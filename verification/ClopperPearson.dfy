/** The one-sided Clopper-Pearson bound: the exact binomial distribution function and the bisection that
    inverts it, over reals. */
module ClopperPearson {
  import opened PenaltyBisection

  function Factorial(n: nat): (r: real)
    ensures r >= 1.0
  {
    if n == 0 then 1.0 else n as real * Factorial(n - 1)
  }

  function Power(p: real, k: nat): real {
    if k == 0 then 1.0 else Product(p, Power(p, k - 1))
  }

  function Product(x: real, y: real): real {
    x * y
  }

  function Quotient(a: real, b: real, c: real): real
    requires b >= 1.0 && c >= 1.0
  {
    NonZero(b, c);
    a / (b * c)
  }

  lemma NonZero(b: real, c: real)
    requires b >= 1.0 && c >= 1.0
    ensures b * c >= 1.0
  {
  }

  /** exp(lgamma(n + 1) - lgamma(i + 1) - lgamma(n - i + 1)). */
  function Coefficient(n: nat, i: nat): real
    requires i <= n
  {
    Quotient(Factorial(n), Factorial(i), Factorial(n - i))
  }

  /** One summand of `_binom_cdf`; no outcome lies outside 0..n. */
  function Term(i: int, n: nat, p: real): real {
    if 0 <= i <= n then Product(Coefficient(n, i), Product(Power(p, i), Power(1.0 - p, n - i))) else 0.0
  }

  /** The sum of the terms 0..x. */
  function Mass(x: int, n: nat, p: real): real {
    if x < 0 then 0.0 else Mass(x - 1, n, p) + Term(x, n, p)
  }

  /** `_binom_cdf`. */
  function Cdf(x: int, n: nat, p: real): real {
    if p <= 0.0 then 1.0
    else if p >= 1.0 then if x >= n then 1.0 else 0.0
    else Mass(x, n, p)
  }

  /** What one more trial at rate `p` makes of two masses. */
  function Mix(p: real, a: real, b: real): real {
    (1.0 - p) * a + p * b
  }

  // ---- Pascal's rule ------------------------------------------------------------------------------------

  lemma FactorialStep(n: nat)
    ensures Factorial(n + 1) == Product(Factorial(n), (n + 1) as real)
  {
  }

  lemma ProductAdds(a: real, m: real, k: real)
    ensures Product(a, m + k) == Product(a, m) + Product(a, k)
  {
  }

  lemma DivideBack(x: real, y: real, r: real)
    requires y != 0.0 && x == r * y
    ensures x / y == r
  {
  }

  lemma QuotientExpands(a: real, b: real, c: real, k: real)
    requires b >= 1.0 && c >= 1.0 && k >= 1.0
    ensures Product(b, k) >= 1.0 && Product(c, k) >= 1.0
    ensures Quotient(Product(a, k), b, Product(c, k)) == Quotient(a, b, c)
    ensures Quotient(Product(a, k), Product(b, k), c) == Quotient(a, b, c)
  {
    NonZero(b, k);
    NonZero(c, k);
    NonZero(b, c);
    NonZero(b, Product(c, k));
    NonZero(Product(b, k), c);
    var r := Quotient(a, b, c);
    assert r * (b * c) == a;
    Regroup(r, b, c, k);
    DivideBack(a * k, b * (c * k), r);
    DivideBack(a * k, b * k * c, r);
  }

  lemma Regroup(r: real, b: real, c: real, k: real)
    ensures r * (b * (c * k)) == r * (b * c) * k == r * (b * k * c)
  {
  }

  lemma QuotientAdds(a: real, a': real, b: real, c: real)
    requires b >= 1.0 && c >= 1.0
    ensures Quotient(a, b, c) + Quotient(a', b, c) == Quotient(a + a', b, c)
  {
    NonZero(b, c);
    var d := b * c;
    assert a / d + a' / d == (a + a') / d;
  }

  lemma Pascal(n: nat, i: nat)
    requires 1 <= i <= n
    ensures Coefficient(n + 1, i) == Coefficient(n, i) + Coefficient(n, i - 1)
  {
    hide Quotient, Product, Factorial;
    var a, k, m := Factorial(n), i as real, (n + 1 - i) as real;
    FactorialStep(n);
    FactorialStep(i - 1);
    FactorialStep(n - i);
    assert (n + 1) as real == m + k;
    ProductAdds(a, m, k);
    QuotientExpands(a, Factorial(i), Factorial(n - i), m);
    QuotientExpands(a, Factorial(i - 1), Factorial(n + 1 - i), k);
    QuotientAdds(Product(a, m), Product(a, k), Factorial(i), Factorial(n + 1 - i));
  }

  lemma EndCoefficients(n: nat)
    ensures Coefficient(n, 0) == 1.0 && Coefficient(n, n) == 1.0
  {
    var a := Factorial(n);
    DivideBack(a, 1.0 * a, 1.0);
    DivideBack(a, a * 1.0, 1.0);
  }

  lemma MixTerms(p: real, c: real, d: real, u: real, v: real)
    ensures Product(c + d, Product(Product(p, u), Product(1.0 - p, v)))
         == Mix(p, Product(c, Product(Product(p, u), v)), Product(d, Product(u, Product(1.0 - p, v))))
  {
    var w := (p * u) * ((1.0 - p) * v);
    Shuffle(1.0 - p, c, p * u, v);
    Shuffle(p, d, u, (1.0 - p) * v);
    assert (c + d) * w == c * w + d * w;
  }

  lemma Shuffle(a: real, b: real, c: real, d: real)
    ensures a * (b * (c * d)) == b * (c * (a * d)) && a * (b * (c * d)) == b * ((a * c) * d)
  {
  }

  lemma MixFirst(p: real, u: real, next: real, a: real, b: real)
    requires next == Product(1.0, Product(1.0, Product(1.0 - p, u))) && a == Product(1.0, Product(1.0, u)) && b == 0.0
    ensures next == Mix(p, a, b)
  {
  }

  lemma MixLast(p: real, u: real, next: real, a: real, b: real)
    requires next == Product(1.0, Product(Product(p, u), 1.0)) && a == 0.0 && b == Product(1.0, Product(u, 1.0))
    ensures next == Mix(p, a, b)
  {
  }

  lemma FirstTerm(n: nat, p: real)
    ensures Term(0, n + 1, p) == Mix(p, Term(0, n, p), Term(-1, n, p))
  {
    hide Coefficient, Product, Mix;
    EndCoefficients(n);
    EndCoefficients(n + 1);
    assert Power(p, 0) == 1.0 && Power(1.0 - p, n + 1) == Product(1.0 - p, Power(1.0 - p, n));
    MixFirst(p, Power(1.0 - p, n), Term(0, n + 1, p), Term(0, n, p), Term(-1, n, p));
  }

  lemma LastTerm(n: nat, p: real)
    ensures Term(n + 1, n + 1, p) == Mix(p, Term(n + 1, n, p), Term(n, n, p))
  {
    hide Coefficient, Product, Mix;
    EndCoefficients(n);
    EndCoefficients(n + 1);
    assert Power(1.0 - p, 0) == 1.0 && Power(p, n + 1) == Product(p, Power(p, n));
    MixLast(p, Power(p, n), Term(n + 1, n + 1, p), Term(n + 1, n, p), Term(n, n, p));
  }

  lemma MiddleTerm(i: nat, n: nat, p: real)
    requires 1 <= i <= n
    ensures Term(i, n + 1, p) == Mix(p, Term(i, n, p), Term(i - 1, n, p))
  {
    hide Coefficient, Product, Mix;
    var u, v := Power(p, i - 1), Power(1.0 - p, n - i);
    Pascal(n, i);
    assert Power(p, i) == Product(p, u);
    assert Power(1.0 - p, n + 1 - i) == Product(1.0 - p, v);
    MixTerms(p, Coefficient(n, i), Coefficient(n, i - 1), u, v);
  }

  lemma TermRecursion(i: nat, n: nat, p: real)
    ensures Term(i, n + 1, p) == Mix(p, Term(i, n, p), Term(i - 1, n, p))
  {
    hide Term, Mix;
    if i == 0 {
      FirstTerm(n, p);
    } else if i <= n {
      MiddleTerm(i, n, p);
    } else if i == n + 1 {
      LastTerm(n, p);
    } else {
      NoTerm(i, n + 1, p);
      NoTerm(i, n, p);
      NoTerm(i - 1, n, p);
      MixConstants(p, Term(i, n, p));
    }
  }

  lemma MixAdds(p: real, a: real, b: real, c: real, d: real)
    ensures Mix(p, a, b) + Mix(p, c, d) == Mix(p, a + c, b + d)
  {
  }

  lemma MixConstants(p: real, a: real)
    ensures Mix(p, a, a) == a && Mix(0.0, p, a) == p && Mix(1.0, p, a) == a
  {
  }

  /** The sums obey the rule of the terms. */
  lemma {:induction false} MassRecursion(x: int, n: nat, p: real)
    ensures Mass(x, n + 1, p) == Mix(p, Mass(x, n, p), Mass(x - 1, n, p))
    decreases x
  {
    hide Term, Mix;
    if x < 0 {
      MixConstants(p, 0.0);
    } else {
      MassRecursion(x - 1, n, p);
      TermRecursion(x, n, p);
      NoTerm(-1, n, p);
      MixAdds(p, Mass(x - 1, n, p), Mass(x - 2, n, p), Term(x, n, p), Term(x - 1, n, p));
    }
  }

  lemma {:induction false} WholeMass(n: nat, p: real)
    ensures Mass(n, n, p) == 1.0
  {
    hide Term, Mix;
    if n == 0 {
      UnitTerm(p);
      assert Mass(-1, 0, p) == 0.0;
    } else {
      WholeMass(n - 1, p);
      MassRecursion(n, n - 1, p);
      NoTerm(n, n - 1, p);
      MixConstants(p, 1.0);
    }
  }

  lemma NoTerm(i: int, n: nat, p: real)
    requires i < 0 || i > n
    ensures Term(i, n, p) == 0.0
  {
  }

  lemma UnitTerm(p: real)
    ensures Term(0, 0, p) == 1.0
  {
    EndCoefficients(0);
  }

  lemma {:induction false} PowerRange(p: real, k: nat)
    requires 0.0 <= p
    ensures Power(p, k) >= 0.0
  {
    if k > 0 {
      PowerRange(p, k - 1);
      ProductNonNegative(p, Power(p, k - 1));
    }
  }

  lemma TermNonNegative(i: int, n: nat, p: real)
    requires 0.0 <= p <= 1.0
    ensures Term(i, n, p) >= 0.0
  {
    hide Product, Quotient;
    if 0 <= i <= n {
      PowerRange(p, i);
      PowerRange(1.0 - p, n - i);
      ProductNonNegative(Power(p, i), Power(1.0 - p, n - i));
      QuotientNonNegative(Factorial(n), Factorial(i), Factorial(n - i));
      ProductNonNegative(Coefficient(n, i), Product(Power(p, i), Power(1.0 - p, n - i)));
    }
  }

  lemma QuotientNonNegative(a: real, b: real, c: real)
    requires a >= 0.0 && b >= 1.0 && c >= 1.0
    ensures Quotient(a, b, c) >= 0.0
  {
    NonZero(b, c);
  }

  lemma ProductNonNegative(a: real, b: real)
    requires a >= 0.0 && b >= 0.0
    ensures a * b >= 0.0 && Product(a, b) >= 0.0
  {
  }

  /** One trial more, mixed from the two masses that it may come from, falls when the rate rises. */
  lemma MixFalls(p: real, q: real, a: real, b: real, a': real, b': real)
    requires 0.0 <= p <= q <= 1.0 && b <= a && a' <= a && b' <= b
    ensures Mix(q, a', b') <= Mix(p, a, b)
  {
    ProductNonNegative(1.0 - q, a - a');
    ProductNonNegative(q, b - b');
    ProductNonNegative(q - p, a - b);
  }

  /** The distribution function falls as the rate rises. */
  lemma {:induction false} MassAntitone(x: int, n: nat, p: real, q: real)
    requires x <= n && 0.0 <= p <= q <= 1.0
    ensures Mass(x, n, q) <= Mass(x, n, p)
    decreases n
  {
    hide Term, Mix;
    if x == n {
      WholeMass(n, p);
      WholeMass(n, q);
    } else if x >= 0 {
      MassAntitone(x, n - 1, p, q);
      MassAntitone(x - 1, n - 1, p, q);
      MassRecursion(x, n - 1, p);
      MassRecursion(x, n - 1, q);
      TermNonNegative(x, n - 1, p);
      MixFalls(p, q, Mass(x, n - 1, p), Mass(x - 1, n - 1, p), Mass(x, n - 1, q), Mass(x - 1, n - 1, q));
    }
  }

  /** At the ends the sum is what `_binom_cdf` returns without summing. */
  lemma {:induction false} MassAtEnds(x: int, n: nat)
    requires x < n
    ensures Mass(x, n, 0.0) == (if x < 0 then 0.0 else 1.0) && Mass(x, n, 1.0) == 0.0
    decreases n
  {
    hide Term, Mix;
    if x >= 0 {
      MassRecursion(x, n - 1, 0.0);
      MassRecursion(x, n - 1, 1.0);
      MixConstants(Mass(x, n - 1, 0.0), Mass(x - 1, n - 1, 0.0));
      MixConstants(Mass(x, n - 1, 1.0), Mass(x - 1, n - 1, 1.0));
      MassAtEnds(x - 1, n - 1);
      if x == n - 1 {
        WholeMass(n - 1, 0.0);
      } else {
        MassAtEnds(x, n - 1);
      }
    }
  }

  /** What is returned is the sum of the terms for every rate, and beyond the ends the value at the end. */
  lemma CdfIsMass(x: int, n: nat, p: real)
    requires 0 <= x <= n
    ensures Cdf(x, n, p) == Mass(x, n, if p <= 0.0 then 0.0 else if p >= 1.0 then 1.0 else p)
  {
    hide Mass;
    if x == n {
      WholeMass(n, 0.0);
      WholeMass(n, 1.0);
    } else {
      MassAtEnds(x, n);
    }
  }

  lemma CdfAntitone(x: int, n: nat, p: real, q: real)
    requires 0 <= x <= n && p <= q
    ensures Cdf(x, n, q) <= Cdf(x, n, p)
  {
    hide Mass;
    if x == n {
      WholeMass(n, p);
      WholeMass(n, q);
    } else {
      MassAtEnds(x, n);
      var p' := if p <= 0.0 then 0.0 else if p >= 1.0 then 1.0 else p;
      var q' := if q <= 0.0 then 0.0 else if q >= 1.0 then 1.0 else q;
      MassAntitone(x, n, p', q');
    }
  }

  // ---- the bound ----------------------------------------------------------------------------------------

  const HALVINGS: nat := 80

  /** The distance that is left of the way from the observed rate to 1 after some halvings. */
  function Width(x: nat, n: nat, halvings: nat): real
    requires n > 0
  {
    (1.0 - x as real / n as real) / Pow2(halvings)
  }

  lemma WidthHalves(x: nat, n: nat, halvings: nat)
    requires n > 0
    ensures Width(x, n, halvings + 1) == Width(x, n, halvings) / 2.0
  {
    var w := 1.0 - x as real / n as real;
    var t := Pow2(halvings);
    var r := w / t;
    assert r * t == w;
    DivideBack(w, 2.0 * t, r / 2.0);
  }

  /** `clopper_pearson_upper`. Every rate from the bound up is rejected at level `alpha`. It is tight: a rate
      within 2^-80 of the way from the observed rate to 1 is accepted, unless none above the observed rate
      was, and then the bound is that close to the observed rate. */
  method ClopperPearsonUpper(x: nat, n: nat, alpha: real) returns (bound: real, ghost moved: bool)
    ensures x >= n ==> bound == 1.0
    ensures x < n && alpha >= 0.0 ==> forall p :: p >= bound ==> Cdf(x, n, p) <= alpha
    ensures x < n && moved ==> exists p :: bound - Width(x, n, 80) <= p < bound && Cdf(x, n, p) > alpha
    ensures x < n && !moved ==> bound == x as real / n as real + Width(x, n, 80)
  {
    hide Mass, Width;
    moved := false;
    if x >= n {
      return 1.0, false;
    }
    var low, high := x as real / n as real, 1.0;
    WidthAtStart(x, n);
    var i := 0;
    while i < HALVINGS
      invariant 0 <= i <= HALVINGS
      invariant high - low == Width(x, n, i) && Width(x, n, i) > 0.0
      invariant high == 1.0 || Cdf(x, n, high) <= alpha
      invariant if moved then Cdf(x, n, low) > alpha else low == x as real / n as real
    {
      var middle := (low + high) / 2.0;
      WidthHalves(x, n, i);
      if Cdf(x, n, middle) > alpha {
        low, moved := middle, true;
      } else {
        high := middle;
      }
      i := i + 1;
    }
    bound := high;
    if alpha >= 0.0 {
      forall p | p >= bound
        ensures Cdf(x, n, p) <= alpha
      {
        CdfAntitone(x, n, bound, p);
      }
    }
    if moved {
      assert bound - Width(x, n, HALVINGS) <= low < bound && Cdf(x, n, low) > alpha;
    }
  }

  lemma WidthAtStart(x: nat, n: nat)
    requires x < n
    ensures Width(x, n, 0) == 1.0 - x as real / n as real && Width(x, n, 0) > 0.0
  {
    var r := x as real / n as real;
    assert r * n as real == x as real;
    if r >= 1.0 {
      ProductNonNegative(r - 1.0, n as real);
    }
  }
}
