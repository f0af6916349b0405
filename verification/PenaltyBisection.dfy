/** The search every allocator of the repository runs over its penalty: double an upper end until it
    stops violating, then halve the bracket a fixed number of times and keep the upper end. */
module PenaltyBisection {

  function Pow2(k: nat): (r: real)
    ensures r >= 1.0
  {
    if k == 0 then 1.0 else 2.0 * Pow2(k - 1)
  }

  /** `x * 2^k`. */
  function Scaled(x: real, k: nat): real {
    x * Pow2(k)
  }

  function Max(x: real, y: real): real {
    if x < y then y else x
  }

  datatype Bracket = Bracket(low: real, high: real)

  /** The doubling loop, entered with `high == 2^k` and bounded by `2^limit`. */
  function Widen(violates: real -> bool, low: real, k: nat, limit: nat): Bracket
    requires k <= limit
    decreases limit - k
  {
    if violates(Pow2(k)) && k < limit then Widen(violates, Pow2(k), k + 1, limit)
    else Bracket(low, Pow2(k))
  }

  /** The halving loop. */
  function Halve(violates: real -> bool, b: Bracket, iterations: nat): Bracket
    decreases iterations
  {
    if iterations == 0 then b
    else
      var middle := (b.low + b.high) / 2.0;
      Halve(violates, if violates(middle) then Bracket(middle, b.high) else Bracket(b.low, middle), iterations - 1)
  }

  function FinalBracket(violates: real -> bool, limit: nat, iterations: nat): Bracket {
    Halve(violates, Widen(violates, 0.0, 0, limit), iterations)
  }

  /** The penalty whose choice the search ends on. */
  function FinalPenalty(violates: real -> bool, limit: nat, iterations: nat): real {
    if !violates(0.0) then 0.0 else FinalBracket(violates, limit, iterations).high
  }

  /** Once a penalty satisfies the constraints, every larger one does. */
  ghost predicate Antitone(violates: real -> bool) {
    forall p, q :: 0.0 <= p <= q && violates(q) ==> violates(p)
  }

  // ---- the two loops ------------------------------------------------------------------------

  lemma Pow2Step(k: nat)
    ensures Pow2(0) == 1.0 && Pow2(k + 1) == 2.0 * Pow2(k)
  {
  }

  lemma {:induction false} Pow2Order(j: nat, k: nat)
    requires j < k
    ensures 2.0 * Pow2(j) <= Pow2(k)
    decreases k
  {
    if j + 1 < k {
      Pow2Order(j, k - 1);
    }
  }

  lemma {:induction false} Pow2Add(j: nat, k: nat)
    ensures Pow2(j + k) == Pow2(j) * Pow2(k)
    decreases j
  {
    if j > 0 {
      Pow2Add(j - 1, k);
      assert Pow2(j + k) == 2.0 * Pow2(j + k - 1);
    }
  }

  const TWO_TO_40: real := 1099511627776.0
  const TWO_TO_60: real := 1152921504606846976.0
  const TWO_TO_80: real := 1208925819614629174706176.0

  /** The largest penalties and the bracket widths of the repository's searches. */
  lemma Pow2Values()
    ensures Pow2(40) == TWO_TO_40 && Pow2(60) == TWO_TO_60 && Pow2(80) == TWO_TO_80
  {
    assert Pow2(5) == 32.0;
    Pow2Add(5, 5);
    Pow2Add(10, 10);
    Pow2Add(20, 20);
    Pow2Add(40, 20);
    Pow2Add(40, 40);
  }

  /** One turn of the doubling loop, or its exit. */
  lemma WidenTurn(violates: real -> bool, low: real, k: nat, limit: nat)
    requires k <= limit
    ensures Widen(violates, low, k, limit)
         == if violates(Pow2(k)) && k < limit then Widen(violates, Pow2(k), k + 1, limit) else Bracket(low, Pow2(k))
    ensures k < limit <==> Pow2(k) < Pow2(limit)
  {
    if k < limit {
      Pow2Order(k, limit);
    }
  }

  /** One turn of the halving loop. */
  lemma HalveTurn(violates: real -> bool, b: Bracket, iterations: nat)
    ensures Halve(violates, b, 0) == b
    ensures Halve(violates, b, iterations + 1)
         == (var middle := (b.low + b.high) / 2.0;
             Halve(violates, if violates(middle) then Bracket(middle, b.high) else Bracket(b.low, middle), iterations))
  {
  }

  /** What the doubling loop guarantees with no assumption on the predicate. */
  lemma {:induction false} WidenFacts(violates: real -> bool, low: real, k: nat, limit: nat)
    requires k <= limit
    requires violates(low)
    requires 0.0 <= low < Pow2(k)
    requires if k == 0 then low == 0.0 else low == Pow2(k - 1)
    ensures var b := Widen(violates, low, k, limit);
            && 0.0 <= b.low < b.high <= Pow2(limit)
            && violates(b.low)
            && b.high - b.low <= Max(1.0, b.low)
            && (violates(b.high) ==> b.high == Pow2(limit))
    decreases limit - k
  {
    if k < limit {
      Pow2Order(k, limit);
      if violates(Pow2(k)) {
        WidenFacts(violates, Pow2(k), k + 1, limit);
      }
    }
  }

  lemma ScaledZero(x: real)
    ensures Scaled(x, 0) == x
  {
  }

  lemma ScaledStep(x: real, k: nat)
    requires k > 0
    ensures Scaled(x, k) == 2.0 * Scaled(x, k - 1)
  {
  }

  /** What the halving loop guarantees with no assumption on the predicate. */
  lemma {:induction false} HalveFacts(violates: real -> bool, b: Bracket, iterations: nat)
    requires b.low < b.high
    requires violates(b.low)
    ensures var h := Halve(violates, b, iterations);
            && b.low <= h.low < h.high <= b.high
            && violates(h.low)
            && (h.high == b.high || !violates(h.high))
            && Scaled(h.high - h.low, iterations) == b.high - b.low
    decreases iterations
  {
    hide Scaled;
    if iterations == 0 {
      ScaledZero(b.high - b.low);
    } else {
      var middle := (b.low + b.high) / 2.0;
      var next := if violates(middle) then Bracket(middle, b.high) else Bracket(b.low, middle);
      HalveFacts(violates, next, iterations - 1);
      ScaledStep(Halve(violates, b, iterations).high - Halve(violates, b, iterations).low, iterations);
    }
  }

  // ---- theorems about the search --------------------------------------------------------------

  /** With no assumption at all: the search ends on a penalty that satisfies the constraints unless
      even the largest one tried violates them, and it keeps a violating penalty directly below it. */
  lemma FinalBracketFacts(violates: real -> bool, limit: nat, iterations: nat)
    requires violates(0.0)
    ensures var b := FinalBracket(violates, limit, iterations);
            && 0.0 <= b.low < b.high <= Pow2(limit)
            && violates(b.low)
            && (violates(b.high) ==> b.high == Pow2(limit))
            && Scaled(b.high - b.low, iterations) <= Max(1.0, b.high)
  {
    var wide := Widen(violates, 0.0, 0, limit);
    WidenFacts(violates, 0.0, 0, limit);
    HalveFacts(violates, wide, iterations);
    assert wide.low < Halve(violates, wide, iterations).high;
  }

  /** For an antitone predicate the search fails exactly when the largest penalty still violates. */
  lemma FailsExactlyAtLimit(violates: real -> bool, limit: nat, iterations: nat)
    requires Antitone(violates)
    ensures violates(FinalPenalty(violates, limit, iterations)) <==> violates(Pow2(limit))
  {
    if violates(0.0) {
      FinalBracketFacts(violates, limit, iterations);
    }
  }

  /** For an antitone predicate the final bracket separates the violating penalties from the rest. */
  lemma BracketSeparates(violates: real -> bool, limit: nat, iterations: nat, p: real)
    requires Antitone(violates)
    requires violates(0.0) && !violates(Pow2(limit))
    requires p >= 0.0
    ensures var b := FinalBracket(violates, limit, iterations);
            && (p <= b.low ==> violates(p))
            && (p >= b.high ==> !violates(p))
  {
    FinalBracketFacts(violates, limit, iterations);
    FailsExactlyAtLimit(violates, limit, iterations);
  }

  /** Predicates that agree on every penalty give the same search. */
  lemma {:induction false} HalveExtensional(v: real -> bool, w: real -> bool, b: Bracket, iterations: nat)
    requires forall p :: p >= 0.0 ==> v(p) == w(p)
    requires 0.0 <= b.low <= b.high
    ensures Halve(v, b, iterations) == Halve(w, b, iterations)
    decreases iterations
  {
    if iterations > 0 {
      var middle := (b.low + b.high) / 2.0;
      assert v(middle) == w(middle);
      HalveExtensional(v, w, if v(middle) then Bracket(middle, b.high) else Bracket(b.low, middle), iterations - 1);
    }
  }

  lemma {:induction false} WidenExtensional(v: real -> bool, w: real -> bool, low: real, k: nat, limit: nat)
    requires forall p :: p >= 0.0 ==> v(p) == w(p)
    requires k <= limit
    requires 0.0 <= low <= Pow2(k)
    ensures Widen(v, low, k, limit) == Widen(w, low, k, limit)
    ensures 0.0 <= Widen(v, low, k, limit).low <= Widen(v, low, k, limit).high
    decreases limit - k
  {
    assert v(Pow2(k)) == w(Pow2(k));
    if v(Pow2(k)) && k < limit {
      WidenExtensional(v, w, Pow2(k), k + 1, limit);
    }
  }

  lemma SearchExtensional(v: real -> bool, w: real -> bool, limit: nat, iterations: nat)
    requires forall p :: p >= 0.0 ==> v(p) == w(p)
    ensures FinalPenalty(v, limit, iterations) == FinalPenalty(w, limit, iterations)
  {
    assert v(0.0) == w(0.0);
    WidenExtensional(v, w, 0.0, 0, limit);
    HalveExtensional(v, w, Widen(v, 0.0, 0, limit), iterations);
  }

  lemma {:induction false} HalveSplit(v: real -> bool, b: Bracket, m: nat, n: nat)
    ensures Halve(v, b, m + n) == Halve(v, Halve(v, b, m), n)
    decreases m
  {
    if m > 0 {
      var middle := (b.low + b.high) / 2.0;
      HalveSplit(v, if v(middle) then Bracket(middle, b.high) else Bracket(b.low, middle), m - 1, n);
    }
  }

  /** More halvings never raise the final penalty, whatever the predicate. */
  lemma MoreIterationsLowerPenalty(v: real -> bool, limit: nat, m: nat, n: nat)
    ensures FinalPenalty(v, limit, m + n) <= FinalPenalty(v, limit, m)
  {
    if v(0.0) {
      var b := Widen(v, 0.0, 0, limit);
      WidenFacts(v, 0.0, 0, limit);
      HalveFacts(v, b, m);
      HalveSplit(v, b, m, n);
      HalveFacts(v, Halve(v, b, m), n);
    }
  }

  // ---- a predicate that violates more ends on a larger penalty ----------------------------------

  lemma {:induction false} HalveOrder(v: real -> bool, w: real -> bool, b: Bracket, iterations: nat)
    requires forall p :: 0.0 <= p && v(p) ==> w(p)
    requires 0.0 <= b.low < b.high && v(b.low)
    ensures Halve(v, b, iterations).high <= Halve(w, b, iterations).high
    decreases iterations
  {
    if iterations > 0 {
      var middle := (b.low + b.high) / 2.0;
      var upper, lower := Bracket(middle, b.high), Bracket(b.low, middle);
      if v(middle) {
        HalveOrder(v, w, upper, iterations - 1);
      } else if w(middle) {
        HalveFacts(v, lower, iterations - 1);
        HalveFacts(w, upper, iterations - 1);
      } else {
        HalveOrder(v, w, lower, iterations - 1);
      }
    }
  }

  lemma {:induction false} WidenOrder(v: real -> bool, w: real -> bool, low: real, k: nat, limit: nat)
    requires forall p :: 0.0 <= p && v(p) ==> w(p)
    requires k <= limit && !w(Pow2(limit))
    requires if k == 0 then low == 0.0 else low == Pow2(k - 1)
    requires v(low)
    ensures var x, y := Widen(v, low, k, limit), Widen(w, low, k, limit);
            x == y || x.high <= y.low
    decreases limit - k
  {
    if k < limit && v(Pow2(k)) {
      WidenOrder(v, w, Pow2(k), k + 1, limit);
    } else if k < limit && w(Pow2(k)) {
      Pow2Order(k, k + 1);
      WidenFacts(w, Pow2(k), k + 1, limit);
      WidenLow(w, Pow2(k), k + 1, limit);
    }
  }

  lemma {:induction false} WidenLow(w: real -> bool, low: real, k: nat, limit: nat)
    requires k <= limit && low <= Pow2(k)
    ensures low <= Widen(w, low, k, limit).low
    decreases limit - k
  {
    if k < limit && w(Pow2(k)) {
      Pow2Order(k, k + 1);
      WidenLow(w, Pow2(k), k + 1, limit);
    }
  }

  /** If `w` violates wherever `v` does, its search never ends on a smaller penalty. */
  lemma MoreViolationsRaisePenalty(v: real -> bool, w: real -> bool, limit: nat, iterations: nat)
    requires forall p :: 0.0 <= p && v(p) ==> w(p)
    requires !w(Pow2(limit))
    ensures FinalPenalty(v, limit, iterations) <= FinalPenalty(w, limit, iterations)
  {
    if v(0.0) {
      var x, y := Widen(v, 0.0, 0, limit), Widen(w, 0.0, 0, limit);
      Pow2Step(0);
      WidenOrder(v, w, 0.0, 0, limit);
      WidenFacts(v, 0.0, 0, limit);
      WidenFacts(w, 0.0, 0, limit);
      HalveFacts(v, x, iterations);
      HalveFacts(w, y, iterations);
      if x == y {
        HalveOrder(v, w, x, iterations);
      }
    } else if w(0.0) {
      FinalBracketFacts(w, limit, iterations);
    }
  }
}
