/** Rearrangements of a sequence, given as the sequence of source positions. */
module Permutations {
  import opened RealSums

  ghost predicate IsPermutation(p: seq<nat>, n: nat) {
    && |p| == n
    && (forall i :: 0 <= i < n ==> p[i] < n)
    && (forall i, j :: 0 <= i < j < n ==> p[i] != p[j])
    && (forall k :: 0 <= k < n ==> k in p)
  }

  function Permute<T>(xs: seq<T>, p: seq<nat>): (ys: seq<T>)
    requires forall i :: 0 <= i < |p| ==> p[i] < |xs|
    ensures |ys| == |p|
  {
    seq(|p|, i requires 0 <= i < |p| => xs[p[i]])
  }

  /** Taking out the entry that names the last position leaves a permutation of the others. */
  lemma DropLast(p: seq<nat>, n: nat, j: nat)
    requires IsPermutation(p, n) && j < n && p[j] == n - 1
    ensures IsPermutation(p[..j] + p[j + 1..], n - 1)
  {
    var q := p[..j] + p[j + 1..];
    forall k | 0 <= k < n - 1
      ensures k in q
    {
      assert k in p;
      var i :| 0 <= i < n && p[i] == k;
      assert q[if i < j then i else i - 1] == k;
    }
  }

  lemma LastOccurs(p: seq<nat>, n: nat)
    requires IsPermutation(p, n) && n > 0
    ensures |p| == n && n - 1 in p
  {
  }

  lemma PermuteDropLast<T>(xs: seq<T>, p: seq<nat>, j: nat)
    requires IsPermutation(p, |xs|) && j < |xs| && p[j] == |xs| - 1
    ensures var ys, q := Permute(xs, p), p[..j] + p[j + 1..];
            && IsPermutation(q, |xs| - 1)
            && Permute(xs[..|xs| - 1], q) == ys[..j] + ys[j + 1..]
  {
    DropLast(p, |xs|, j);
  }

  lemma {:induction false} SumPermute(xs: seq<real>, p: seq<nat>)
    requires IsPermutation(p, |xs|)
    ensures Sum(Permute(xs, p)) == Sum(xs)
    decreases |xs|
  {
    var n := |xs|;
    if n > 0 {
      hide IsPermutation, Permute;
      LastOccurs(p, n);
      var j :| 0 <= j < n && p[j] == n - 1;
      var q := p[..j] + p[j + 1..];
      PermuteDropLast(xs, p, j);
      SumPermute(xs[..n - 1], q);
      SumRemove(Permute(xs, p), j);
    }
  }
}
