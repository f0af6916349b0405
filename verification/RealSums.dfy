/** Finite sums of reals: the exact value that `math.fsum` and numpy's `sum` stand for. */
module RealSums {

  function Sum(xs: seq<real>): real {
    if |xs| == 0 then 0.0 else Sum(xs[..|xs| - 1]) + xs[|xs| - 1]
  }

  lemma SumAppend(xs: seq<real>, x: real)
    ensures Sum(xs + [x]) == Sum(xs) + x
  {
    assert (xs + [x])[..|xs|] == xs;
  }

  lemma {:induction false} SumConcat(xs: seq<real>, ys: seq<real>)
    ensures Sum(xs + ys) == Sum(xs) + Sum(ys)
  {
    if |ys| == 0 {
      assert xs + ys == xs;
    } else {
      var n := |ys| - 1;
      assert (xs + ys)[..|xs + ys| - 1] == xs + ys[..n];
      SumConcat(xs, ys[..n]);
    }
  }

  lemma {:induction false} SumLe(xs: seq<real>, ys: seq<real>)
    requires |xs| == |ys|
    requires forall i :: 0 <= i < |xs| ==> xs[i] <= ys[i]
    ensures Sum(xs) <= Sum(ys)
  {
    if |xs| > 0 {
      SumLe(xs[..|xs| - 1], ys[..|ys| - 1]);
    }
  }

  /** Linearity, stated on the summands so that callers need no particular comprehension. */
  lemma {:induction false} SumLinear(a: real, xs: seq<real>, b: real, ys: seq<real>, zs: seq<real>)
    requires |xs| == |ys| == |zs|
    requires forall i :: 0 <= i < |zs| ==> zs[i] == a * xs[i] + b * ys[i]
    ensures Sum(zs) == a * Sum(xs) + b * Sum(ys)
  {
    if |zs| > 0 {
      var n := |zs| - 1;
      SumLinear(a, xs[..n], b, ys[..n], zs[..n]);
      Distribute(a, Sum(xs[..n]), xs[n]);
      Distribute(b, Sum(ys[..n]), ys[n]);
    }
  }

  lemma Distribute(a: real, x: real, y: real)
    ensures a * (x + y) == a * x + a * y
  {
  }

  lemma SumScale(k: real, xs: seq<real>, ys: seq<real>)
    requires |xs| == |ys|
    requires forall i :: 0 <= i < |ys| ==> ys[i] == k * xs[i]
    ensures Sum(ys) == k * Sum(xs)
  {
    SumLinear(k, xs, 0.0, xs, ys);
  }

  lemma {:induction false} SumPositive(xs: seq<real>)
    requires |xs| > 0
    requires forall i :: 0 <= i < |xs| ==> xs[i] > 0.0
    ensures Sum(xs) > 0.0
  {
    if |xs| > 1 {
      SumPositive(xs[..|xs| - 1]);
    } else {
      assert xs[..0] == [];
    }
  }

  lemma {:induction false} SumNonNegative(xs: seq<real>)
    requires forall i :: 0 <= i < |xs| ==> xs[i] >= 0.0
    ensures Sum(xs) >= 0.0
  {
    if |xs| > 0 {
      SumNonNegative(xs[..|xs| - 1]);
    }
  }

  /** A sum of non-negative terms dominates each of its terms. */
  lemma {:induction false} SumDominates(xs: seq<real>, k: nat)
    requires forall i :: 0 <= i < |xs| ==> xs[i] >= 0.0
    requires k < |xs|
    ensures xs[k] <= Sum(xs)
  {
    if k < |xs| - 1 {
      SumDominates(xs[..|xs| - 1], k);
    } else {
      SumNonNegative(xs[..|xs| - 1]);
    }
  }

  /** Taking one term out of the middle. */
  lemma SumRemove(xs: seq<real>, k: nat)
    requires k < |xs|
    ensures Sum(xs) == Sum(xs[..k] + xs[k + 1..]) + xs[k]
  {
    hide Sum;
    var before, after := xs[..k], xs[k + 1..];
    assert xs == (before + [xs[k]]) + after;
    SumConcat(before + [xs[k]], after);
    SumAppend(before, xs[k]);
    SumConcat(before, after);
  }
}
