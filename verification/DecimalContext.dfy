/** Decimal arithmetic at a fixed precision: which results it delivers unrounded. */
module DecimalContext {

  function Pow10(k: nat): (r: nat)
    ensures r >= 1
  {
    if k == 0 then 1 else 10 * Pow10(k - 1)
  }

  lemma {:induction false} Pow10Add(j: nat, k: nat)
    ensures Pow10(j + k) == Pow10(j) * Pow10(k)
    decreases j
  {
    if j > 0 {
      Pow10Add(j - 1, k);
      assert Pow10(j + k) == 10 * Pow10(j + k - 1);
    }
  }

  lemma {:induction false} Pow10Order(j: nat, k: nat)
    requires j <= k
    ensures Pow10(j) <= Pow10(k)
    decreases k
  {
    if j < k {
      Pow10Order(j, k - 1);
    }
  }

  /** `v` is `n / 10^scale` for some natural number `n <= bound`. */
  ghost predicate Multiple(v: real, scale: nat, bound: nat) {
    exists n: nat :: n <= bound && Numerator(v, scale, n)
  }

  ghost predicate Numerator(v: real, scale: nat, n: nat) {
    v * (Pow10(scale) as real) == n as real
  }

  const E15: nat := 1_00000_0000000000
  const E20: nat := 1_0000000000_0000000000
  const E30: nat := 1_0000000000_0000000000_0000000000
  const E40: nat := 1_0000000000_0000000000_0000000000_0000000000
  const E90: nat := E30 * E30 * E30
  const E91: nat := 10 * E90
  const E106: nat := E15 * E91
  const E160: nat := E40 * E40 * E40 * E40

  lemma Pow10Small(k: nat)
    requires k <= 30
    ensures Pow10(6) == 1000000
    ensures Pow10(k) <= E30
  {
    assert Pow10(5) == 100000;
    Pow10Add(5, 5);
    Pow10Add(10, 10);
    Pow10Add(20, 10);
    Pow10Order(k, 30);
  }

  /** `round` leaves every value of at most 160 significant digits alone, as any rounding mode does. */
  ghost predicate ExactContext(round: real -> real) {
    forall v: real, scale: nat, bound: nat ::
      bound < E160 && Multiple(v, scale, bound) ==> round(v) == v
  }

  lemma Witness(v: real, scale: nat, bound: nat) returns (n: nat)
    requires Multiple(v, scale, bound)
    ensures n <= bound && Numerator(v, scale, n)
  {
    n :| n <= bound && Numerator(v, scale, n);
  }

  lemma MultipleWiden(v: real, scale: nat, bound: nat, bound': nat)
    requires Multiple(v, scale, bound) && bound <= bound'
    ensures Multiple(v, scale, bound')
  {
    var n := Witness(v, scale, bound);
  }

  lemma MultipleZero(scale: nat)
    ensures Multiple(0.0, scale, 0)
  {
    var n: nat := 0;
    assert Numerator(0.0, scale, n);
  }

  lemma MultipleNat(t: nat, bound: nat)
    requires t <= bound
    ensures Multiple(t as real, 0, bound)
  {
    assert Numerator(t as real, 0, t);
  }

  lemma MultipleAdd(v: real, w: real, scale: nat, a: nat, b: nat)
    requires Multiple(v, scale, a) && Multiple(w, scale, b)
    ensures Multiple(v + w, scale, a + b)
  {
    var m := Witness(v, scale, a);
    var n := Witness(w, scale, b);
    assert Numerator(v + w, scale, m + n);
  }

  lemma MultipleMul(v: real, w: real, j: nat, k: nat, a: nat, b: nat, bound: nat)
    requires Multiple(v, j, a) && Multiple(w, k, b) && a * b <= bound
    ensures Multiple(v * w, j + k, bound)
  {
    hide Pow10;
    var m := Witness(v, j, a);
    var n := Witness(w, k, b);
    Pow10Add(j, k);
    NatProductOrder(m, a, n, b);
    Exchange(v, w, Pow10(j) as real, Pow10(k) as real);
    assert Pow10(j + k) as real == (Pow10(j) as real) * (Pow10(k) as real);
    assert (m * n) as real == (m as real) * (n as real);
    assert Numerator(v * w, j + k, m * n);
  }

  lemma Exchange(v: real, w: real, x: real, y: real)
    ensures (v * w) * (x * y) == (v * x) * (w * y)
  {
  }

  lemma NatProductOrder(m: nat, a: nat, n: nat, b: nat)
    requires m <= a && n <= b
    ensures m * n <= a * b
  {
    assert m * n <= a * n;
    assert a * n <= a * b;
  }

  lemma Associate(x: real, y: real, z: real)
    ensures x * (y * z) == (x * y) * z == (x * z) * y
  {
  }

  /** Dividing by `10^k` only moves the point. */
  lemma MultipleShift(v: real, scale: nat, k: nat, bound: nat)
    requires Multiple(v, scale, bound)
    ensures Multiple(v / Pow10(k) as real, scale + k, bound)
  {
    hide Pow10;
    var n := Witness(v, scale, bound);
    var x, y := Pow10(scale) as real, Pow10(k) as real;
    var q := v / y;
    Pow10Add(scale, k);
    assert Pow10(scale + k) as real == x * y;
    assert q * y == v;
    Associate(q, x, y);
    assert Numerator(q, scale + k, n);
  }

  /** A coarser value written with more decimal places. */
  lemma MultipleRefine(v: real, scale: nat, k: nat, bound: nat)
    requires Multiple(v, scale, bound)
    ensures Multiple(v, scale + k, bound * Pow10(k))
  {
    hide Pow10;
    var n := Witness(v, scale, bound);
    var x, y := Pow10(scale) as real, Pow10(k) as real;
    Pow10Add(scale, k);
    assert Pow10(scale + k) as real == x * y;
    Associate(v, x, y);
    NatProductOrder(n, bound, Pow10(k), Pow10(k));
    assert (n * Pow10(k)) as real == n as real * y;
    assert Numerator(v, scale + k, n * Pow10(k));
  }
}
