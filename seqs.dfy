/** Order-preserving selection over sequences: Python's `[x for x in xs if p(x)]`. */
module Seqs {

  /** A non-empty sequence is its head followed by its tail. */
  lemma HeadTail<T>(s: seq<T>)
    requires |s| > 0
    ensures [s[0]] + s[1..] == s
  {
  }

  /** `a` can be obtained from `b` by deleting elements, the rest kept in their order. */
  predicate IsSubseq<T(==)>(a: seq<T>, b: seq<T>)
    decreases |b|
  {
    if |a| == 0 then true
    else if |b| == 0 then false
    else (a[0] == b[0] && IsSubseq(a[1..], b[1..])) || IsSubseq(a, b[1..])
  }

  /** The number of elements of `s` that satisfy `p`. */
  function Count<T>(p: T -> bool, s: seq<T>): (n: nat)
    ensures n <= |s|
  {
    if |s| == 0 then 0 else (if p(s[0]) then 1 else 0) + Count(p, s[1..])
  }

  /** `[x for x in s if p(x)]`: exactly the elements satisfying `p`, in their original order. */
  function Filter<T(==)>(p: T -> bool, s: seq<T>): (r: seq<T>)
    ensures forall i :: 0 <= i < |r| ==> r[i] in s && p(r[i])
    ensures forall i :: 0 <= i < |s| && p(s[i]) ==> s[i] in r
    ensures IsSubseq(r, s)
    ensures |r| == Count(p, s)
  {
    if |s| == 0 then []
    else if p(s[0]) then
      var rest := Filter(p, s[1..]);
      assert ([s[0]] + rest)[1..] == rest;
      [s[0]] + rest
    else Filter(p, s[1..])
  }

  /** Something is selected exactly when some element qualifies. */
  lemma FilterNonEmpty<T>(p: T -> bool, s: seq<T>)
    ensures |Filter(p, s)| > 0 <==> exists i :: 0 <= i < |s| && p(s[i])
  {
    var r := Filter(p, s);
    if |r| > 0 {
      assert r[0] in s && p(r[0]);
    }
  }

  /** Selection distributes over concatenation. */
  lemma {:induction false} FilterConcat<T>(p: T -> bool, a: seq<T>, b: seq<T>)
    ensures Filter(p, a + b) == Filter(p, a) + Filter(p, b)
  {
    if |a| > 0 {
      assert (a + b)[1..] == a[1..] + b;
      FilterConcat(p, a[1..], b);
    } else {
      assert a + b == b;
    }
  }

  /** Selection keeps everything when every element qualifies. */
  lemma {:induction false} FilterAll<T>(p: T -> bool, s: seq<T>)
    requires forall i :: 0 <= i < |s| ==> p(s[i])
    ensures Filter(p, s) == s
  {
    if |s| > 0 {
      FilterAll(p, s[1..]);
      assert [s[0]] + s[1..] == s;
    }
  }

  /** Counting splits over concatenation. */
  lemma {:induction false} CountConcat<T>(p: T -> bool, a: seq<T>, b: seq<T>)
    ensures Count(p, a + b) == Count(p, a) + Count(p, b)
  {
    if |a| > 0 {
      assert (a + b)[1..] == a[1..] + b;
      CountConcat(p, a[1..], b);
    } else {
      assert a + b == b;
    }
  }
}
