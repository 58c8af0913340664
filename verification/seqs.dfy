/**
 * The array operations of JavaScript that the model uses: `slice` and
 * `filter`, with the facts about them the other modules rely on.
 */
module Seqs {
  import opened Text

  function Min(a: int, b: int): int {
    if a < b then a else b
  }

  /** `s.slice(0, k)` for a non-negative `k`: the first `min(k, |s|)` elements. */
  function Prefix<T>(s: seq<T>, k: nat): (r: seq<T>)
    ensures |r| == Min(k, |s|)
    ensures r == s[..|r|]
  {
    if k < |s| then s[..k] else s
  }

  /** `s.slice(a, b)` for `0 <= a <= b`: indices that run past the end are
      cut back to the length. */
  function Slice<T>(s: seq<T>, a: nat, b: nat): (r: seq<T>)
    requires a <= b
    ensures |r| == Min(b, |s|) - Min(a, |s|)
    ensures r == s[Min(a, |s|)..Min(b, |s|)]
  {
    s[Min(a, |s|)..Min(b, |s|)]
  }

  /** `s.slice(0, end)` for any number: NaN counts as 0 and a negative end
      counts back from the length. */
  function SliceTo<T>(s: seq<T>, end: JsNum): (r: seq<T>)
    ensures |r| <= |s| && r == s[..|r|]
    ensures end.NaN? ==> r == []
    ensures end.Num? && end.n >= 0 ==> |r| == Min(end.n, |s|)
    ensures end.Num? && end.n < 0 ==> |r| == (if |s| + end.n > 0 then |s| + end.n else 0)
  {
    match end
    case NaN => []
    case Num(n) =>
      if n >= 0 then Prefix(s, n)
      else if |s| + n > 0 then s[..|s| + n]
      else []
  }

  /** `s.filter(p)`: the elements that pass and nothing else; how often each
      is kept is `FilterCounts`. */
  function Filter<T(==)>(s: seq<T>, p: T -> bool): (r: seq<T>)
    ensures |r| <= |s|
    ensures forall x :: x in r ==> x in s && p(x)
    ensures forall i :: 0 <= i < |s| && p(s[i]) ==> s[i] in r
  {
    if |s| == 0 then []
    else (if p(s[0]) then [s[0]] else []) + Filter(s[1..], p)
  }

  /** `filter` keeps every passing element as often as it occurs, and drops
      every other occurrence. */
  lemma {:induction false} FilterCounts<T>(s: seq<T>, p: T -> bool, x: T)
    ensures multiset(Filter(s, p))[x] == if p(x) then multiset(s)[x] else 0
  {
    if |s| > 0 {
      FilterCounts(s[1..], p, x);
      assert s == [s[0]] + s[1..];
      assert multiset(s) == multiset([s[0]]) + multiset(s[1..]);
      var head: seq<T> := if p(s[0]) then [s[0]] else [];
      assert Filter(s, p) == head + Filter(s[1..], p);
      assert multiset(Filter(s, p)) == multiset(head) + multiset(Filter(s[1..], p));
    }
  }

  /** `a` is `b` with some elements left out and the rest in their order. */
  predicate IsSubsequence<T(==)>(a: seq<T>, b: seq<T>)
    decreases |b|
  {
    |a| == 0 || (|b| > 0 && if a[0] == b[0] then IsSubsequence(a[1..], b[1..]) else IsSubsequence(a, b[1..]))
  }

  lemma {:induction false} EmptySubsequence<T>(b: seq<T>)
    ensures IsSubsequence([], b)
  {
  }

  lemma {:induction false} SubsequenceRefl<T>(s: seq<T>)
    ensures IsSubsequence(s, s)
  {
    if |s| > 0 {
      SubsequenceRefl(s[1..]);
    }
  }

  lemma {:induction false} SubsequenceSkip<T>(a: seq<T>, b: seq<T>)
    requires |b| > 0 && IsSubsequence(a, b[1..])
    ensures IsSubsequence(a, b)
    decreases |b|, 0
  {
    if |a| > 0 && a[0] == b[0] {
      SubsequenceTail(a, b[1..]);
    }
  }

  lemma {:induction false} SubsequenceTail<T>(a: seq<T>, c: seq<T>)
    requires |a| > 0 && IsSubsequence(a, c)
    ensures IsSubsequence(a[1..], c)
    decreases |c|, 1
  {
    if a[0] == c[0] {
      SubsequenceSkip(a[1..], c);
    } else {
      SubsequenceTail(a, c[1..]);
      SubsequenceSkip(a[1..], c);
    }
  }

  /** `filter` keeps the survivors in their original order. */
  lemma {:induction false} FilterIsSubsequence<T>(s: seq<T>, p: T -> bool)
    ensures IsSubsequence(Filter(s, p), s)
  {
    if |s| > 0 {
      FilterIsSubsequence(s[1..], p);
      var rest := Filter(s[1..], p);
      if p(s[0]) {
        assert Filter(s, p) == [s[0]] + rest;
        assert ([s[0]] + rest)[1..] == rest;
      } else {
        assert Filter(s, p) == rest;
        SubsequenceSkip(rest, s);
      }
    }
  }

  /** A prefix of a subsequence is still a subsequence. */
  lemma {:induction false} PrefixOfSubsequence<T>(a: seq<T>, b: seq<T>, k: nat)
    requires IsSubsequence(a, b)
    ensures IsSubsequence(Prefix(a, k), b)
    decreases |b|
  {
    if k < |a| && k > 0 {
      if a[0] == b[0] {
        assert Prefix(a, k)[1..] == Prefix(a[1..], k - 1);
        PrefixOfSubsequence(a[1..], b[1..], k - 1);
      } else {
        PrefixOfSubsequence(a, b[1..], k);
      }
    } else if k == 0 {
      EmptySubsequence(b);
    }
  }

  lemma {:induction false} FilterConcat<T>(a: seq<T>, b: seq<T>, p: T -> bool)
    ensures Filter(a + b, p) == Filter(a, p) + Filter(b, p)
    decreases |a|
  {
    if |a| == 0 {
      assert a + b == b;
    } else {
      assert (a + b)[0] == a[0];
      assert (a + b)[1..] == a[1..] + b;
      FilterConcat(a[1..], b, p);
    }
  }

  /** A kept element that has fewer than `k` kept elements before it is
      among the first `k` of the filter. */
  lemma FirstKOfFilter<T>(s: seq<T>, p: T -> bool, k: nat, i: nat)
    requires i < |s| && p(s[i]) && |Filter(s[..i], p)| < k
    ensures s[i] in Prefix(Filter(s, p), k)
  {
    assert s == s[..i] + s[i..];
    FilterConcat(s[..i], s[i..], p);
    var n := |Filter(s[..i], p)|;
    assert Filter(s[i..], p)[0] == s[i];
    assert Filter(s, p)[n] == s[i];
  }

  /** `s.filter(p).slice(0, k)`: at most `k` elements, each kept by `p`, in
      their original order, and none of the first `k` kept ones left out. */
  lemma FirstKFilterSpec<T>(s: seq<T>, p: T -> bool, k: nat)
    ensures |Prefix(Filter(s, p), k)| <= k
    ensures forall x :: x in Prefix(Filter(s, p), k) ==> x in s && p(x)
    ensures IsSubsequence(Prefix(Filter(s, p), k), s)
    ensures forall i :: 0 <= i < |s| && p(s[i]) && |Filter(s[..i], p)| < k ==> s[i] in Prefix(Filter(s, p), k)
  {
    FilterIsSubsequence(s, p);
    PrefixOfSubsequence(Filter(s, p), s, k);
    forall i | 0 <= i < |s| && p(s[i]) && |Filter(s[..i], p)| < k
      ensures s[i] in Prefix(Filter(s, p), k)
    {
      FirstKOfFilter(s, p, k, i);
    }
  }
}
