/** Counting lines of a generated report (a list of lines later joined with newlines). */
module Lines {
  import opened PyStr

  /** How many lines equal `x`. */
  function Occurrences(lines: seq<string>, x: string): (n: nat)
    ensures n <= |lines|
    ensures n == 0 <==> x !in lines
  {
    if |lines| == 0 then 0
    else (if lines[0] == x then 1 else 0) + Occurrences(lines[1..], x)
  }

  /** How many lines start with `p`. */
  function CountStarting(lines: seq<string>, p: string): (n: nat)
    ensures n <= |lines|
    ensures n == 0 <==> forall i :: 0 <= i < |lines| ==> !StartsWith(lines[i], p)
  {
    if |lines| == 0 then 0
    else
      var rest := CountStarting(lines[1..], p);
      assert forall i :: 1 <= i < |lines| ==> lines[i] == lines[1..][i - 1];
      (if StartsWith(lines[0], p) then 1 else 0) + rest
  }

  lemma {:induction false} OccurrencesConcat(a: seq<string>, b: seq<string>, x: string)
    ensures Occurrences(a + b, x) == Occurrences(a, x) + Occurrences(b, x)
  {
    if |a| == 0 {
      assert a + b == b;
    } else {
      assert (a + b)[1..] == a[1..] + b;
      OccurrencesConcat(a[1..], b, x);
    }
  }

  lemma {:induction false} CountStartingConcat(a: seq<string>, b: seq<string>, p: string)
    ensures CountStarting(a + b, p) == CountStarting(a, p) + CountStarting(b, p)
  {
    if |a| == 0 {
      assert a + b == b;
    } else {
      assert (a + b)[1..] == a[1..] + b;
      CountStartingConcat(a[1..], b, p);
    }
  }

  /** `OccursOnce` for a sequence known to be laid out as `a + [x] + b`. */
  lemma OccursOnceIn(s: seq<string>, a: seq<string>, x: string, b: seq<string>)
    requires s == a + [x] + b && x !in a && x !in b
    ensures Occurrences(s, x) == 1
  {
    OccursOnce(a, x, b);
  }

  /** A line that occurs once between two stretches that do not hold it is counted once. */
  lemma OccursOnce(a: seq<string>, x: string, b: seq<string>)
    requires x !in a && x !in b
    ensures Occurrences(a + [x] + b, x) == 1
  {
    OccurrencesConcat(a + [x], b, x);
    OccurrencesConcat(a, [x], x);
  }

  /** Associativity over opaque operands: stating it on variables keeps the verifier from
      unfolding the blocks they stand for. */
  lemma AppendAssoc(a: seq<string>, b: seq<string>, c: seq<string>)
    ensures (a + b) + c == a + (b + c)
  {
  }

  /** Regrouping `h + ((m + [x, e]) + b) + t` around the line `x`. */
  lemma RegroupPair(h: seq<string>, m: seq<string>, x: string, e: string, b: seq<string>, t: seq<string>)
    ensures h + ((m + [x, e]) + b) + t == (h + m) + [x] + (([e] + b) + t)
  {
  }

  /** Regrouping `h + (([x] + m) + j + b) + t` around the line `x`. */
  lemma Regroup(h: seq<string>, x: string, m: seq<string>, j: seq<string>, b: seq<string>, t: seq<string>)
    ensures h + ((([x] + m) + j) + b) + t == h + [x] + (m + ((j + b) + t))
  {
  }

  /** The lines that start with `p`, in their order. */
  function LinesStarting(lines: seq<string>, p: string): (r: seq<string>)
    ensures |r| == CountStarting(lines, p)
    ensures forall i :: 0 <= i < |r| ==> StartsWith(r[i], p)
  {
    if |lines| == 0 then []
    else (if StartsWith(lines[0], p) then [lines[0]] else []) + LinesStarting(lines[1..], p)
  }

  lemma {:induction false} LinesStartingConcat(a: seq<string>, b: seq<string>, p: string)
    ensures LinesStarting(a + b, p) == LinesStarting(a, p) + LinesStarting(b, p)
  {
    if |a| == 0 {
      assert a + b == b;
    } else {
      assert (a + b)[1..] == a[1..] + b;
      LinesStartingConcat(a[1..], b, p);
    }
  }
}
