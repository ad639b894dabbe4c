/** The Fisher-Yates shuffle the quiz applies to a copy of a category's
    questions before a session starts. The random index drawn at position i
    (Math.floor(Math.random() * (i + 1))) is supplied by the caller as js[i]. */
module Shuffle {

  /** Every draw is a legal random index for its position: 0 <= js[i] <= i. */
  predicate ValidDraws(js: seq<nat>): (b: bool)
    ensures b && |js| > 0 ==> js[0] == 0
  {
    forall i :: 0 <= i < |js| ==> js[i] <= i
  }

  /** The destructuring swap [s[i], s[j]] = [s[j], s[i]]. */
  function Swap<T>(s: seq<T>, i: nat, j: nat): (r: seq<T>)
    requires i < |s| && j < |s|
    ensures |r| == |s| && r[i] == s[j] && r[j] == s[i]
    ensures forall k :: 0 <= k < |s| && k != i && k != j ==> r[k] == s[k]
  {
    s[i := s[j]][j := s[i]]
  }

  /** The state after the loop has visited positions k - 1 down to 1. */
  function ShuffleDown<T>(s: seq<T>, js: seq<nat>, k: nat): (r: seq<T>)
    requires k <= |s| && k <= |js| && ValidDraws(js)
    ensures |r| == |s|
    ensures k <= 1 ==> r == s
    decreases k
  {
    if k <= 1 then s else ShuffleDown(Swap(s, k - 1, js[k - 1]), js, k - 1)
  }

  /** The whole shuffle of s under the draws js. */
  function Shuffled<T>(s: seq<T>, js: seq<nat>): (r: seq<T>)
    requires |s| <= |js| && ValidDraws(js)
    ensures |r| == |s|
    ensures |s| <= 1 ==> r == s
  {
    ShuffleDown(s, js, |s|)
  }

  lemma SwapPermutes<T>(s: seq<T>, i: nat, j: nat)
    requires i < |s| && j < |s|
    ensures multiset(Swap(s, i, j)) == multiset(s)
  {
    var t := s[i := s[j]];
    assert multiset(t) == multiset(s) - multiset{s[i]} + multiset{s[j]};
  }

  /** Swapping only rearranges: the result has the input's length and elements. */
  lemma {:induction false} ShuffleDownPermutes<T>(s: seq<T>, js: seq<nat>, k: nat)
    requires k <= |s| && k <= |js| && ValidDraws(js)
    ensures |ShuffleDown(s, js, k)| == |s|
    ensures multiset(ShuffleDown(s, js, k)) == multiset(s)
    decreases k
  {
    if k > 1 {
      SwapPermutes(s, k - 1, js[k - 1]);
      ShuffleDownPermutes(Swap(s, k - 1, js[k - 1]), js, k - 1);
    }
  }

  /** The shuffle yields a permutation of its input. */
  lemma ShuffledIsPermutation<T>(s: seq<T>, js: seq<nat>)
    requires |s| <= |js| && ValidDraws(js)
    ensures |Shuffled(s, js)| == |s|
    ensures multiset(Shuffled(s, js)) == multiset(s)
  {
    ShuffleDownPermutes(s, js, |s|);
  }

  /** Positions the loop has not reached yet keep their element. */
  lemma {:induction false} ShuffleDownKeepsTail<T>(s: seq<T>, js: seq<nat>, k: nat, m: nat)
    requires k <= |s| && k <= |js| && ValidDraws(js)
    requires k <= m < |s|
    ensures |ShuffleDown(s, js, k)| == |s| && ShuffleDown(s, js, k)[m] == s[m]
    decreases k
  {
    if k > 1 {
      ShuffleDownKeepsTail(Swap(s, k - 1, js[k - 1]), js, k - 1, m);
    }
  }

  /** shuffleArray: for i from the last index down to 1, swap a[i] with a[js[i]]. */
  method ShuffleArray<T>(a: array<T>, js: seq<nat>)
    requires a.Length <= |js| && ValidDraws(js)
    modifies a
    ensures a[..] == Shuffled(old(a[..]), js)
    ensures multiset(a[..]) == multiset(old(a[..]))
  {
    var i := a.Length - 1;
    while i > 0
      invariant -1 <= i < a.Length
      invariant ShuffleDown(a[..], js, i + 1) == Shuffled(old(a[..]), js)
    {
      var j := js[i];
      ghost var before := a[..];
      a[i], a[j] := a[j], a[i];
      assert a[..] == Swap(before, i, j);
      i := i - 1;
    }
    ShuffledIsPermutation(old(a[..]), js);
  }
}
