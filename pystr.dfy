/** The operations of Python's `str` that the repository relies on, over `seq<char>`:
    `strip`, `split` on one character, `join`, `replace(pattern, '')` and `endswith`. */
module PyStr {

  /** The characters for which Python's `str.isspace()` holds. */
  predicate IsSpace(c: char) {
    || ('\t' <= c <= '\r')
    || ('\U{1c}' <= c <= '\U{1f}')
    || c == ' ' || c == '\U{85}' || c == '\U{a0}' || c == '\U{1680}'
    || ('\U{2000}' <= c <= '\U{200a}')
    || c == '\U{2028}' || c == '\U{2029}' || c == '\U{202f}' || c == '\U{205f}' || c == '\U{3000}'
  }

  /** No whitespace at either end: what `strip()` returns. */
  predicate Trimmed(s: string) {
    s == [] || (!IsSpace(s[0]) && !IsSpace(s[|s| - 1]))
  }

  /** `s.lstrip()`: the suffix left after dropping leading whitespace. */
  function StripLeft(s: string): (r: string)
    ensures |r| <= |s| && r == s[|s| - |r|..]
    ensures r == [] || !IsSpace(r[0])
  {
    if |s| > 0 && IsSpace(s[0]) then StripLeft(s[1..]) else s
  }

  /** `s.rstrip()`: the prefix left after dropping trailing whitespace. */
  function StripRight(s: string): (r: string)
    ensures |r| <= |s| && r == s[..|r|]
    ensures r == [] || !IsSpace(r[|r| - 1])
  {
    if |s| > 0 && IsSpace(s[|s| - 1]) then StripRight(s[..|s| - 1]) else s
  }

  /** What `lstrip()` drops is whitespace. */
  lemma {:induction false} LeadingSpaces(s: string)
    ensures forall i :: 0 <= i < |s| - |StripLeft(s)| ==> IsSpace(s[i])
    decreases |s|
  {
    if |s| > 0 && IsSpace(s[0]) {
      LeadingSpaces(s[1..]);
      forall i | 1 <= i < |s| - |StripLeft(s)|
        ensures IsSpace(s[i])
      {
        assert s[i] == s[1..][i - 1];
      }
    }
  }

  /** What `rstrip()` drops is whitespace. */
  lemma {:induction false} TrailingSpaces(s: string)
    ensures forall i :: |StripRight(s)| <= i < |s| ==> IsSpace(s[i])
    decreases |s|
  {
    if |s| > 0 && IsSpace(s[|s| - 1]) {
      TrailingSpaces(s[..|s| - 1]);
      forall i | |StripRight(s)| <= i < |s| - 1
        ensures IsSpace(s[i])
      {
        assert s[i] == s[..|s| - 1][i];
      }
    }
  }

  /** `s.strip()`. */
  function Strip(s: string): (r: string)
    ensures Trimmed(r)
  {
    StripRight(StripLeft(s))
  }

  /** `strip()` returns an infix of its input, with whitespace only outside it and none at its ends. */
  lemma StripSpec(s: string)
    ensures var r, a := Strip(s), |s| - |StripLeft(s)|;
      && Trimmed(r)
      && a + |r| <= |s| && r == s[a..a + |r|]
      && (forall i :: 0 <= i < a ==> IsSpace(s[i]))
      && (forall i :: a + |r| <= i < |s| ==> IsSpace(s[i]))
  {
    StripInfix(s);
    LeadingSpaces(s);
    StripTrailing(s);
  }

  lemma StripInfix(s: string)
    ensures var r, a := Strip(s), |s| - |StripLeft(s)|;
      a + |r| <= |s| && r == s[a..a + |r|]
  {
    var l := StripLeft(s);
    var r := StripRight(l);
    var a := |s| - |l|;
    assert l == s[a..] && r == l[..|r|];
    assert s[a..][..|r|] == s[a..a + |r|];
  }

  lemma StripTrailing(s: string)
    ensures var r, a := Strip(s), |s| - |StripLeft(s)|;
      forall i :: a + |r| <= i < |s| ==> IsSpace(s[i])
  {
    var l := StripLeft(s);
    var r := StripRight(l);
    var a := |s| - |l|;
    assert l == s[a..];
    TrailingSpaces(l);
    forall i | a + |r| <= i < |s| ensures IsSpace(s[i]) {
      assert s[i] == l[i - a] && |r| <= i - a < |l|;
    }
  }

  /** A character absent from a string is absent from its stripped form. */
  lemma StripKeepsAbsent(s: string, c: char)
    ensures c !in s ==> c !in Strip(s)
  {
    StripInfix(s);
    var r, a := Strip(s), |s| - |StripLeft(s)|;
    forall i | 0 <= i < |r|
      ensures r[i] in s
    {
      assert r[i] == s[a + i];
    }
  }

  /** A string with no whitespace at its ends is left as it is by `strip()`. */
  lemma StripTrimmed(s: string)
    requires Trimmed(s)
    ensures Strip(s) == s
  {
  }

  /** `strip()` is idempotent. */
  lemma StripIdempotent(s: string)
    ensures Strip(Strip(s)) == Strip(s)
  {
    StripSpec(s);
    StripTrimmed(Strip(s));
  }

  /** Leading whitespace does not change what `lstrip()` returns. */
  lemma {:induction false} StripLeftAfterSpaces(w: string, t: string)
    requires forall i :: 0 <= i < |w| ==> IsSpace(w[i])
    ensures StripLeft(w + t) == StripLeft(t)
    decreases |w|
  {
    if w != [] {
      var wt := w + t;
      assert IsSpace(wt[0]) by { assert wt[0] == w[0]; }
      assert StripLeft(wt) == StripLeft(wt[1..]);
      assert wt[1..] == w[1..] + t;
      assert forall i :: 0 <= i < |w[1..]| ==> IsSpace(w[1..][i]);
      StripLeftAfterSpaces(w[1..], t);
    } else {
      assert w + t == t;
    }
  }

  /** `s.startswith(p)` */
  predicate StartsWith(s: string, p: string) {
    |p| <= |s| && s[..|p|] == p
  }

  /** `s.endswith(p)` */
  predicate EndsWith(s: string, p: string) {
    |p| <= |s| && s[|s| - |p|..] == p
  }

  /** `p in s` for strings: `p` occurs somewhere in `s`. */
  predicate HasInfix(s: string, p: string)
    decreases |s|
  {
    StartsWith(s, p) || (|s| > 0 && HasInfix(s[1..], p))
  }

  /** `s.split(sep)` for a one-character separator: always at least one piece, none holding `sep`. */
  function Split(s: string, sep: char): (r: seq<string>)
    ensures |r| >= 1
    ensures forall i :: 0 <= i < |r| ==> sep !in r[i]
    decreases |s|
  {
    if |s| == 0 then [""]
    else
      var rest := Split(s[1..], sep);
      if s[0] == sep then [""] + rest
      else [[s[0]] + rest[0]] + rest[1..]
  }

  /** `sep.join(parts)` */
  function Join(sep: string, parts: seq<string>): string
  {
    if |parts| == 0 then ""
    else if |parts| == 1 then parts[0]
    else parts[0] + sep + Join(sep, parts[1..])
  }

  /** A string without the separator splits into itself alone. */
  lemma {:induction false} SplitWithoutSeparator(s: string, sep: char)
    requires sep !in s
    ensures Split(s, sep) == [s]
  {
    if |s| > 0 {
      assert sep !in s[1..] by {
        forall i | 0 <= i < |s[1..]| ensures s[1..][i] != sep { assert s[1..][i] == s[i + 1]; }
      }
      SplitWithoutSeparator(s[1..], sep);
      assert [s[0]] + s[1..] == s;
    }
  }

  /** Splitting at a separator splits both sides independently. */
  lemma {:induction false} SplitConcat(a: string, sep: char, b: string)
    ensures Split(a + [sep] + b, sep) == Split(a, sep) + Split(b, sep)
    decreases |a|
  {
    if |a| == 0 {
      assert a + [sep] + b == [sep] + b;
      assert ([sep] + b)[1..] == b;
    } else {
      assert (a + [sep] + b)[1..] == a[1..] + [sep] + b;
      SplitConcat(a[1..], sep, b);
    }
  }

  /** A string splits into two or more pieces exactly when it holds the separator. */
  lemma {:induction false} SplitPieces(s: string, sep: char)
    ensures |Split(s, sep)| >= 2 <==> sep in s
  {
    if sep in s {
      var i :| 0 <= i < |s| && s[i] == sep;
      assert s == s[..i] + [sep] + s[i + 1..];
      SplitConcat(s[..i], sep, s[i + 1..]);
    } else {
      SplitWithoutSeparator(s, sep);
    }
  }

  lemma JoinConsHead(sep: string, c: char, x: string, ys: seq<string>)
    ensures Join(sep, [[c] + x] + ys) == [c] + Join(sep, [x] + ys)
  {
    if |ys| > 0 {
      assert ([[c] + x] + ys)[1..] == ys;
      assert ([x] + ys)[1..] == ys;
    }
  }

  /** Joining the pieces of a split with the same separator gives back the string. */
  lemma {:induction false} JoinSplit(s: string, sep: char)
    ensures Join([sep], Split(s, sep)) == s
    decreases |s|
  {
    if |s| > 0 {
      var rest := Split(s[1..], sep);
      JoinSplit(s[1..], sep);
      if s[0] == sep {
        assert ([""] + rest)[1..] == rest;
        assert s == [sep] + s[1..];
      } else {
        JoinConsHead([sep], s[0], rest[0], rest[1..]);
        assert [rest[0]] + rest[1..] == rest;
        assert s == [s[0]] + s[1..];
      }
    }
  }

  /** `s.replace(pat, '')`: every occurrence found scanning left to right, without overlap, is removed. */
  function RemoveAll(s: string, pat: string): string
    requires |pat| > 0
    decreases |s|
  {
    if |s| < |pat| then s
    else if s[..|pat|] == pat then RemoveAll(s[|pat|..], pat)
    else [s[0]] + RemoveAll(s[1..], pat)
  }

  /** Nothing is removed from a string in which the pattern does not occur. */
  lemma {:induction false} RemoveAllAbsent(s: string, pat: string)
    requires |pat| > 0 && !HasInfix(s, pat)
    ensures RemoveAll(s, pat) == s
    decreases |s|
  {
    if |s| >= |pat| {
      RemoveAllAbsent(s[1..], pat);
    }
  }

  /** When the pattern's first character does not recur in it, a single trailing occurrence
      is the only one removed. */
  lemma {:induction false} RemoveAllSuffix(x: string, pat: string)
    requires |pat| > 0 && pat[0] !in pat[1..]
    requires !HasInfix(x, pat)
    ensures RemoveAll(x + pat, pat) == x
    decreases |x|
  {
    var s := x + pat;
    if |x| == 0 {
      assert s == pat;
      assert s[|pat|..] == [];
    } else {
      assert s[..|pat|] != pat by {
        if |x| >= |pat| {
          assert x[..|pat|] == s[..|pat|];
        } else {
          assert pat[1..][|x| - 1] == pat[|x|];
          assert s[..|pat|][|x|] == pat[0] != pat[|x|];
        }
      }
      assert s[1..] == x[1..] + pat;
      RemoveAllSuffix(x[1..], pat);
      assert [x[0]] + x[1..] == x;
    }
  }

  /** A pattern that does not hold `c` occurs in `a + [c] + b` only inside `a` or inside `b`. */
  lemma {:induction false} NoInfixAcross(a: string, c: char, b: string, pat: string)
    requires |pat| > 0 && c !in pat
    requires !HasInfix(a, pat) && !HasInfix(b, pat)
    ensures !HasInfix(a + [c] + b, pat)
    decreases |a|
  {
    var s := a + [c] + b;
    assert !StartsWith(s, pat) by {
      if |a| >= |pat| {
        assert a[..|pat|] == s[..|pat|];
      } else if |pat| <= |s| {
        assert pat[|a|] != c;
        assert s[..|pat|][|a|] == c;
      }
    }
    if |a| == 0 {
      assert s[1..] == b;
    } else {
      assert s[1..] == a[1..] + [c] + b;
      NoInfixAcross(a[1..], c, b, pat);
    }
  }
}
