/**
 * `shuffleArray`: the Fisher–Yates shuffle the gateway applies to the merged
 * article list. The random choice `Math.floor(Math.random() * (i + 1))` is an
 * oracle `rand`; step `i` swaps position `i` with `rand(i) % (i + 1)`, which
 * ranges over exactly the indices `0..i` that the original can pick.
 */
module Shuffle {

  /** Exchanges the elements at `i` and `j`. */
  function Swap<T>(s: seq<T>, i: nat, j: nat): (r: seq<T>)
    requires i < |s| && j < |s|
    ensures |r| == |s|
    ensures r[i] == s[j] && r[j] == s[i]
    ensures forall k :: 0 <= k < |s| && k != i && k != j ==> r[k] == s[k]
  {
    s[i := s[j]][j := s[i]]
  }

  lemma SwapPermutes<T>(s: seq<T>, i: nat, j: nat)
    requires i < |s| && j < |s|
    ensures multiset(Swap(s, i, j)) == multiset(s)
  {
    var t := s[i := s[j]];
    assert multiset(t) == multiset(s) - multiset{s[i]} + multiset{s[j]};
    assert multiset(t[j := s[i]]) == multiset(t) - multiset{t[j]} + multiset{s[i]};
  }

  /** The steps `i, i-1, ..., 1` of the shuffle. */
  function ShuffleFrom<T>(s: seq<T>, i: nat, rand: nat -> nat): (r: seq<T>)
    requires i < |s|
    ensures |r| == |s|
    decreases i
  {
    if i == 0 then s
    else
      var j := rand(i) % (i + 1);
      ShuffleFrom(Swap(s, i, j), i - 1, rand)
  }

  /** The shuffle of the whole list, as a reference definition. */
  function Shuffled<T>(s: seq<T>, rand: nat -> nat): (r: seq<T>)
    ensures |r| == |s|
  {
    if |s| == 0 then s else ShuffleFrom(s, |s| - 1, rand)
  }

  lemma {:induction false} ShuffleFromPermutes<T>(s: seq<T>, i: nat, rand: nat -> nat)
    requires i < |s|
    ensures multiset(ShuffleFrom(s, i, rand)) == multiset(s)
    decreases i
  {
    if i > 0 {
      var j := rand(i) % (i + 1);
      SwapPermutes(s, i, j);
      ShuffleFromPermutes(Swap(s, i, j), i - 1, rand);
    }
  }

  /** The shuffle is a permutation: same length, same elements with the same
      multiplicities, whatever the oracle answers. */
  lemma ShuffledPermutes<T>(s: seq<T>, rand: nat -> nat)
    ensures |Shuffled(s, rand)| == |s|
    ensures multiset(Shuffled(s, rand)) == multiset(s)
  {
    if |s| > 0 {
      ShuffleFromPermutes(s, |s| - 1, rand);
    }
  }

  /** `shuffleArray(array)`: copies the input and runs the loop
      `for (i = len - 1; i > 0; i--)` on the copy. The input is a value, so it
      is left as it was. */
  method ShuffleArray<T>(a: seq<T>, rand: nat -> nat) returns (shuffled: seq<T>)
    ensures shuffled == Shuffled(a, rand)
    ensures |shuffled| == |a| && multiset(shuffled) == multiset(a)
  {
    shuffled := a;
    var i: int := |shuffled| - 1;
    while i > 0
      invariant -1 <= i < |a|
      invariant |shuffled| == |a|
      invariant i == -1 ==> |a| == 0 && shuffled == a
      invariant i >= 0 ==> ShuffleFrom(shuffled, i, rand) == Shuffled(a, rand)
      decreases i
    {
      var j := rand(i) % (i + 1);
      shuffled := Swap(shuffled, i, j);
      i := i - 1;
    }
    ShuffledPermutes(a, rand);
  }

  /** Steps `i` down to 1 never change a position above `i`. */
  lemma {:induction false} ShuffleKeepsAbove<T>(s: seq<T>, i: nat, p: nat, rand: nat -> nat)
    requires i < p < |s|
    ensures ShuffleFrom(s, i, rand)[p] == s[p]
    decreases i
  {
    if i > 0 {
      var j := rand(i) % (i + 1);
      var t := Swap(s, i, j);
      assert t[p] == s[p];
      assert ShuffleFrom(s, i, rand) == ShuffleFrom(t, i - 1, rand);
      ShuffleKeepsAbove(t, i - 1, p, rand);
    }
  }

  /** The first step decides the last position: the element there is the one
      at the index the oracle picks among all of them, so any element can end
      up last. */
  lemma LastIsOracleChoice<T>(s: seq<T>, rand: nat -> nat)
    requires |s| >= 2
    ensures Shuffled(s, rand)[|s| - 1] == s[rand(|s| - 1) % |s|]
  {
    var n := |s|;
    var j := rand(n - 1) % n;
    ShuffleKeepsAbove(Swap(s, n - 1, j), n - 2, n - 1, rand);
  }
}
