/** The sketch draws its random orders from the rendering library's `shuffle`.
    The model takes the outcome of each shuffle as a parameter instead: a
    permutation of the positions, so that every contract holds for every
    order the library could produce. */
module Shuffles {

  /** No element of `s` occurs twice. */
  ghost predicate Distinct<T>(s: seq<T>)
  {
    forall i, j :: 0 <= i < j < |s| ==> s[i] != s[j]
  }

  /** `p` lists every position 0 .. n-1 exactly once. */
  ghost predicate IsPermutation(p: seq<nat>, n: nat)
  {
    && |p| == n
    && (forall j :: 0 <= j < n ==> p[j] < n)
    && (forall i, j :: 0 <= i < j < n ==> p[i] != p[j])
    && (forall k :: 0 <= k < n ==> k in p)
  }

  /** The order `shuffle(xs)` returns when the library's random choices
      produce `p`: position j of the result holds `xs[p[j]]`. The input
      itself is left as it was (the library copies the array). */
  function Shuffle<T>(xs: seq<T>, p: seq<nat>): (r: seq<T>)
    requires IsPermutation(p, |xs|)
    ensures |r| == |xs|
    ensures forall k :: 0 <= k < |xs| ==> xs[k] in r
    ensures forall x :: x in r ==> x in xs
  {
    var r := seq(|xs|, j requires 0 <= j < |xs| => xs[p[j]]);
    assert forall k :: 0 <= k < |xs| ==> xs[k] in r by {
      forall k | 0 <= k < |xs| ensures xs[k] in r {
        assert k in p;
        var j :| 0 <= j < |p| && p[j] == k;
        assert r[j] == xs[k];
      }
    }
    r
  }

  /** Each input element lands at exactly one position of the shuffle:
      the position j with p[j] == k. */
  lemma ShufflePlaces<T>(xs: seq<T>, p: seq<nat>, k: nat)
    requires IsPermutation(p, |xs|) && k < |xs|
    ensures exists j :: 0 <= j < |xs| && p[j] == k && Shuffle(xs, p)[j] == xs[k]
    ensures forall j :: 0 <= j < |xs| && p[j] == k ==> forall j' :: 0 <= j' < |xs| && p[j'] == k ==> j == j'
  {
    assert k in p;
    var j :| 0 <= j < |p| && p[j] == k;
    assert Shuffle(xs, p)[j] == xs[k];
  }

  /** The first `n` positions of a permutation name distinct positions of
      the input, so a prefix of a shuffle is a sample without replacement. */
  lemma PrefixOfPermutationDistinct(p: seq<nat>, len: nat, n: nat)
    requires IsPermutation(p, len) && n <= len
    ensures Distinct(p[..n])
    ensures forall j :: 0 <= j < n ==> p[..n][j] < len
  {
  }

  /** Joining two lists without repeats and without common elements gives a
      list without repeats. */
  lemma DistinctAppend<T>(a: seq<T>, b: seq<T>)
    requires Distinct(a) && Distinct(b)
    requires forall x :: x in b ==> x !in a
    ensures Distinct(a + b)
  {
    forall i, j | 0 <= i < j < |a + b|
      ensures (a + b)[i] != (a + b)[j]
    {
      if j < |a| {
        assert (a + b)[i] == a[i] && (a + b)[j] == a[j];
      } else if i < |a| {
        assert (a + b)[i] == a[i] && (a + b)[j] == b[j - |a|];
        assert b[j - |a|] in b;
      } else {
        assert (a + b)[i] == b[i - |a|] && (a + b)[j] == b[j - |a|];
      }
    }
  }
}
