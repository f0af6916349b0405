/** The two array-style training copies of the allocator: `allocate` of the standalone search and the
    older `allocate_vectorized`, which has no share bound. Choices are column numbers. */
module TrainingCopies {
  import opened RealSums
  import opened Models
  import opened PenaltyBisection
  import opened TeamAllocator
  import opened AllocatorTheorems

  // ---- array expressions --------------------------------------------------------------------------

  /** `np.argmax` along a row of three entries: the first maximal column. */
  function ArgMax(values: PerModel<real>): (column: nat)
    ensures column < 3
  {
    if values.light >= values.mid && values.light >= values.high then 0
    else if values.mid >= values.high then 1
    else 2
  }

  function Column(column: nat): Model
    requires column < 3
  {
    if column == 0 then Ax31Light else if column == 1 then Ax31 else Axk1Think
  }

  function Columns(sel: seq<Model>): (choice: seq<nat>)
    ensures |choice| == |sel|
    ensures forall i :: 0 <= i < |sel| ==> choice[i] < 3 && Column(choice[i]) == sel[i]
  {
    seq(|sel|, i requires 0 <= i < |sel| => sel[i].Index())
  }

  function Expected(row: Row, s: Settings, rankTotal: real, penalty: real): PerModel<real>
    requires rankTotal > 0.0
  {
    PerModel(Value(row, s, rankTotal, penalty, Ax31Light),
             Value(row, s, rankTotal, penalty, Ax31),
             Value(row, s, rankTotal, penalty, Axk1Think))
  }

  predicate ValidChoice(rows: seq<Row>, choice: seq<nat>) {
    |choice| == |rows| && forall i :: 0 <= i < |choice| ==> choice[i] < 3
  }

  /** `choose(penalty)[0]`. */
  function ArrayChoice(rows: seq<Row>, s: Settings, penalty: real): (choice: seq<nat>)
    requires Priced(rows)
    ensures ValidChoice(rows, choice)
  {
    TotalsPositive(rows);
    seq(|rows|, i requires 0 <= i < |rows| => ArgMax(Expected(rows[i], s, RankLightTotal(rows), penalty)))
  }

  function TakenCosts(rows: seq<Row>, choice: seq<nat>): seq<real>
    requires ValidChoice(rows, choice)
  {
    seq(|rows|, i requires 0 <= i < |rows| => rows[i].costs.At(Column(choice[i])))
  }

  function MaskedHighCosts(rows: seq<Row>, choice: seq<nat>): seq<real>
    requires ValidChoice(rows, choice)
  {
    seq(|rows|, i requires 0 <= i < |rows| => if choice[i] == 2 then rows[i].costs.high else 0.0)
  }

  function MaskedShares(rows: seq<Row>, choice: seq<nat>, column: nat): seq<real>
    requires Priced(rows) && ValidChoice(rows, choice)
  {
    TotalsPositive(rows);
    seq(|rows|, i requires 0 <= i < |rows| =>
      if choice[i] == column then rows[i].costs.light / LightTotal(rows) else 0.0)
  }

  /** The column-by-column excess: `(3 - 1)` times the mid shares plus `(33 - 1)` times the high ones. */
  function MaskedExcess(rows: seq<Row>, choice: seq<nat>): real
    requires Priced(rows) && ValidChoice(rows, choice)
  {
    (3.0 - 1.0) * Sum(MaskedShares(rows, choice, 1)) + (33.0 - 1.0) * Sum(MaskedShares(rows, choice, 2))
  }

  /** `violates` of the older copy: the cap and the high-model cap alone. */
  predicate OverCaps(rows: seq<Row>, s: Settings, choice: seq<nat>)
    requires ValidChoice(rows, choice)
  {
    || Sum(TakenCosts(rows, choice)) > Cap(rows, s)
    || Sum(MaskedHighCosts(rows, choice)) > Cap(rows, s) * s.highCapRatio
  }

  /** `violates` of the standalone search. */
  predicate OverLimits(rows: seq<Row>, s: Settings, choice: seq<nat>)
    requires Priced(rows) && ValidChoice(rows, choice)
  {
    || OverCaps(rows, s, choice)
    || MaskedExcess(rows, choice) > (s.budgetMultiplier - 1.0) * s.shareRatio
  }

  // ---- the array forms agree with the shipped ones ------------------------------------------------

  lemma ArgMaxIsPick(row: Row, s: Settings, rankTotal: real, penalty: real)
    requires rankTotal > 0.0
    ensures ArgMax(Expected(row, s, rankTotal, penalty)) == Pick(row, s, rankTotal, penalty).Index()
  {
    hide Value;
  }

  lemma ArrayChoiceAgrees(rows: seq<Row>, s: Settings, penalty: real)
    requires Priced(rows)
    ensures ArrayChoice(rows, s, penalty) == Columns(Choice(rows, s, penalty))
  {
    hide Pick, ArgMax;
    TotalsPositive(rows);
    forall i | 0 <= i < |rows|
      ensures ArrayChoice(rows, s, penalty)[i] == Columns(Choice(rows, s, penalty))[i]
    {
      ArgMaxIsPick(rows[i], s, RankLightTotal(rows), penalty);
    }
  }

  lemma OverLimitsAgrees(rows: seq<Row>, s: Settings, sel: seq<Model>)
    requires Priced(rows) && |sel| == |rows|
    ensures OverLimits(rows, s, Columns(sel)) == Violates(rows, s, sel)
  {
    hide Sum;
    var choice := Columns(sel);
    TotalsPositive(rows);
    assert TakenCosts(rows, choice) == ChosenCosts(rows, sel);
    assert MaskedHighCosts(rows, choice) == HighCosts(rows, sel);
    var mid, high := MaskedShares(rows, choice, 1), MaskedShares(rows, choice, 2);
    SumLinear(3.0 - 1.0, mid, 33.0 - 1.0, high, BoundTerms(rows, sel));
  }

  // ---- allocate -------------------------------------------------------------------------------------

  /** `allocate`, with its number of halvings as a parameter (60 unless the caller says otherwise). */
  method Allocate(rows: seq<Row>, s: Settings, iterations: nat) returns (choice: seq<nat>)
    requires Priced(rows)
    ensures choice == Columns(Allocation(rows, s, iterations))
  {
    hide Violates, Choice, Pow2, Widen, Halve, ArrayChoice, OverLimits, Columns;
    ghost var v := ViolatesAt(rows, s);
    ghost var penalty := 0.0;
    Bridge(rows, s, 0.0);
    choice := ArrayChoice(rows, s, 0.0);
    if OverLimits(rows, s, choice) {
      var low, high := 0.0, 1.0;
      ghost var k: nat := 0;
      Pow2Step(0);
      Bridge(rows, s, high);
      choice := ArrayChoice(rows, s, high);
      while OverLimits(rows, s, choice) && high < Pow2(40)
        invariant k <= LIMIT && high == Pow2(k)
        invariant choice == ArrayChoice(rows, s, high) && OverLimits(rows, s, choice) == v(high)
        invariant Widen(v, low, k, LIMIT) == Widen(v, 0.0, 0, LIMIT)
        decreases LIMIT - k
      {
        WidenTurn(v, low, k, LIMIT);
        Pow2Step(k);
        low, high, k := high, high * 2.0, k + 1;
        Bridge(rows, s, high);
        choice := ArrayChoice(rows, s, high);
      }
      WidenTurn(v, low, k, LIMIT);
      ghost var wide := Bracket(low, high);
      for turn := 0 to iterations
        invariant Halve(v, Bracket(low, high), iterations - turn) == Halve(v, wide, iterations)
        invariant choice == ArrayChoice(rows, s, high) && OverLimits(rows, s, choice) == v(high)
      {
        HalveTurn(v, Bracket(low, high), iterations - turn - 1);
        var middle := (low + high) / 2.0;
        Bridge(rows, s, middle);
        var candidate := ArrayChoice(rows, s, middle);
        if !OverLimits(rows, s, candidate) {
          high := middle;
          choice := candidate;
        } else {
          low := middle;
        }
      }
      HalveTurn(v, Bracket(low, high), 0);
      penalty := high;
    }
    assert penalty == Penalty(rows, s, iterations);
    Bridge(rows, s, penalty);
    if OverLimits(rows, s, choice) {
      choice := seq(|rows|, _ => 0);
      ZeroColumns(|rows|);
    }
  }

  lemma ZeroColumns(n: nat)
    ensures Columns(AllLight(n)) == seq(n, _ => 0)
  {
  }

  lemma Bridge(rows: seq<Row>, s: Settings, penalty: real)
    requires Priced(rows)
    ensures ArrayChoice(rows, s, penalty) == Columns(Choice(rows, s, penalty))
    ensures OverLimits(rows, s, ArrayChoice(rows, s, penalty)) == ViolatesAt(rows, s)(penalty)
  {
    hide Violates, Choice, OverLimits, ArrayChoice, Columns;
    ArrayChoiceAgrees(rows, s, penalty);
    OverLimitsAgrees(rows, s, Choice(rows, s, penalty));
  }

  /** The search's 60 halvings against the router's 40: no row gets a cheaper model, and the two fall
      back to all-light on the same batches. */
  lemma MoreIterationsPromoteMore(rows: seq<Row>, s: Settings, m: nat, n: nat)
    requires Priced(rows) && AllRise(rows, s)
    ensures NoHigher(Allocation(rows, s, m), Allocation(rows, s, m + n))
    ensures FallsBack(rows, s, m) <==> FallsBack(rows, s, m + n)
  {
    hide Violates, Choice, Pow2, Widen, Halve;
    var v := ViolatesAt(rows, s);
    ViolatesAntitone(rows, s);
    FailsExactlyAtLimit(v, LIMIT, m);
    FailsExactlyAtLimit(v, LIMIT, m + n);
    MoreIterationsLowerPenalty(v, LIMIT, m, n);
    ChoiceAntitone(rows, s, Penalty(rows, s, m + n), Penalty(rows, s, m));
  }

  // ---- allocate_vectorized ----------------------------------------------------------------------------

  function OverCapsAt(rows: seq<Row>, s: Settings): real -> bool
    requires Priced(rows)
  {
    penalty => OverCaps(rows, s, ArrayChoice(rows, s, penalty))
  }

  function VectorPenalty(rows: seq<Row>, s: Settings, iterations: nat): real
    requires Priced(rows)
  {
    FinalPenalty(OverCapsAt(rows, s), LIMIT, iterations)
  }

  function VectorAllocation(rows: seq<Row>, s: Settings, iterations: nat): (choice: seq<nat>)
    requires Priced(rows)
    ensures ValidChoice(rows, choice)
  {
    var p := VectorPenalty(rows, s, iterations);
    if OverCapsAt(rows, s)(p) then seq(|rows|, _ => 0) else ArrayChoice(rows, s, p)
  }

  method AllocateVectorized(rows: seq<Row>, s: Settings, iterations: nat) returns (choice: seq<nat>)
    requires Priced(rows)
    ensures choice == VectorAllocation(rows, s, iterations)
  {
    hide Pow2, Widen, Halve, ArrayChoice, OverCaps;
    ghost var v := OverCapsAt(rows, s);
    ghost var penalty := 0.0;
    choice := ArrayChoice(rows, s, 0.0);
    if OverCaps(rows, s, choice) {
      var low, high := 0.0, 1.0;
      ghost var k: nat := 0;
      Pow2Step(0);
      choice := ArrayChoice(rows, s, high);
      while OverCaps(rows, s, choice) && high < Pow2(40)
        invariant k <= LIMIT && high == Pow2(k)
        invariant choice == ArrayChoice(rows, s, high)
        invariant Widen(v, low, k, LIMIT) == Widen(v, 0.0, 0, LIMIT)
        decreases LIMIT - k
      {
        WidenTurn(v, low, k, LIMIT);
        Pow2Step(k);
        low, high, k := high, high * 2.0, k + 1;
        choice := ArrayChoice(rows, s, high);
      }
      WidenTurn(v, low, k, LIMIT);
      ghost var wide := Bracket(low, high);
      for turn := 0 to iterations
        invariant Halve(v, Bracket(low, high), iterations - turn) == Halve(v, wide, iterations)
        invariant choice == ArrayChoice(rows, s, high)
      {
        HalveTurn(v, Bracket(low, high), iterations - turn - 1);
        var middle := (low + high) / 2.0;
        var candidate := ArrayChoice(rows, s, middle);
        if !OverCaps(rows, s, candidate) {
          high := middle;
          choice := candidate;
        } else {
          low := middle;
        }
      }
      HalveTurn(v, Bracket(low, high), 0);
      penalty := high;
    }
    assert penalty == VectorPenalty(rows, s, iterations);
    if OverCaps(rows, s, choice) {
      choice := seq(|rows|, _ => 0);
    }
  }

  /** At every penalty whose choice fits both caps, the share bound holds as well. */
  ghost predicate ShareNeverBinds(rows: seq<Row>, s: Settings)
    requires Priced(rows)
  {
    forall p :: 0.0 <= p && ViolatesAt(rows, s)(p) ==> OverCapsAt(rows, s)(p)
  }

  lemma CapsAreSomeLimits(rows: seq<Row>, s: Settings)
    requires Priced(rows)
    ensures forall p :: OverCapsAt(rows, s)(p) ==> ViolatesAt(rows, s)(p)
  {
    hide Violates, Choice, ArrayChoice, OverCaps;
    forall p | OverCapsAt(rows, s)(p)
      ensures ViolatesAt(rows, s)(p)
    {
      Bridge(rows, s, p);
    }
  }

  /** Where the share bound cannot bind, the older copy returns what the newer one does. */
  lemma VectorizedAgrees(rows: seq<Row>, s: Settings, iterations: nat)
    requires Priced(rows) && ShareNeverBinds(rows, s)
    ensures VectorAllocation(rows, s, iterations) == Columns(Allocation(rows, s, iterations))
  {
    hide Violates, Choice, ArrayChoice, OverCaps, Pow2, Widen, Halve, Columns;
    var v, w := OverCapsAt(rows, s), ViolatesAt(rows, s);
    CapsAreSomeLimits(rows, s);
    SearchExtensional(v, w, LIMIT, iterations);
    if w(0.0) {
      FinalBracketFacts(w, LIMIT, iterations);
    }
    Bridge(rows, s, Penalty(rows, s, iterations));
    ZeroColumns(|rows|);
  }

  /** A condition on the tier alone under which the share bound cannot bind: no assignment's shares
      add up to more than the whole batch, and the largest multiple is 33. */
  lemma LooseShareNeverBinds(rows: seq<Row>, s: Settings)
    requires Priced(rows) && (s.budgetMultiplier - 1.0) * s.shareRatio >= 32.0
    ensures ShareNeverBinds(rows, s)
  {
    hide Choice, ArrayChoice, Sum, OverCaps;
    forall p | 0.0 <= p && ViolatesAt(rows, s)(p)
      ensures OverCapsAt(rows, s)(p)
    {
      ExcessAtMost32(rows, Choice(rows, s, p));
      Bridge(rows, s, p);
      ArrayChoiceAgrees(rows, s, p);
      OverCapsIsPart(rows, s, Choice(rows, s, p));
    }
  }

  /** The older copy is the newer one, and the router, under a share ratio too loose to bind. */
  lemma VectorizedIsLoose(rows: seq<Row>, s: Settings, iterations: nat)
    requires Priced(rows) && s.budgetMultiplier > 1.0
    ensures var loose := s.(shareRatio := 32.0 / (s.budgetMultiplier - 1.0));
            VectorAllocation(rows, s, iterations) == Columns(Allocation(rows, loose, iterations))
  {
    hide Choice, Violates, OverCaps, Columns, Pow2, Widen, Halve;
    var loose := s.(shareRatio := 32.0 / (s.budgetMultiplier - 1.0));
    var x, d := loose.shareRatio, s.budgetMultiplier - 1.0;
    assert x * d == 32.0;
    LooseShareNeverBinds(rows, loose);
    VectorizedAgrees(rows, loose, iterations);
    forall p
      ensures OverCapsAt(rows, s)(p) == OverCapsAt(rows, loose)(p)
      ensures ArrayChoice(rows, s, p) == ArrayChoice(rows, loose, p)
    {
      ShareIgnored(rows, s, loose, p);
    }
    SearchExtensional(OverCapsAt(rows, s), OverCapsAt(rows, loose), LIMIT, iterations);
  }

  lemma ValueByRisk(row: Row, s: Settings, s': Settings, rankTotal: real, p: real, m: Model)
    requires rankTotal > 0.0 && s.risk == s'.risk
    ensures Value(row, s, rankTotal, p, m) == Value(row, s', rankTotal, p, m)
  {
    assert s.risk.At(m) == s'.risk.At(m);
  }

  lemma ShareIgnored(rows: seq<Row>, s: Settings, loose: Settings, p: real)
    requires Priced(rows) && loose == s.(shareRatio := loose.shareRatio)
    ensures OverCapsAt(rows, s)(p) == OverCapsAt(rows, loose)(p)
    ensures ArrayChoice(rows, s, p) == ArrayChoice(rows, loose, p)
  {
    hide Sum, ArgMax, Value;
    TotalsPositive(rows);
    var total := RankLightTotal(rows);
    forall i | 0 <= i < |rows|
      ensures Expected(rows[i], s, total, p) == Expected(rows[i], loose, total, p)
    {
      ValueByRisk(rows[i], s, loose, total, p, Ax31Light);
      ValueByRisk(rows[i], s, loose, total, p, Ax31);
      ValueByRisk(rows[i], s, loose, total, p, Axk1Think);
    }
    assert ArrayChoice(rows, s, p) == ArrayChoice(rows, loose, p);
  }

  lemma OverCapsIsPart(rows: seq<Row>, s: Settings, sel: seq<Model>)
    requires Priced(rows) && |sel| == |rows| && Violates(rows, s, sel)
    requires BoundExcess(rows, sel) <= (s.budgetMultiplier - 1.0) * s.shareRatio
    ensures OverCaps(rows, s, Columns(sel))
  {
    hide Sum;
    assert TakenCosts(rows, Columns(sel)) == ChosenCosts(rows, sel);
    assert MaskedHighCosts(rows, Columns(sel)) == HighCosts(rows, sel);
  }

  lemma ExcessAtMost32(rows: seq<Row>, sel: seq<Model>)
    requires Priced(rows) && |sel| == |rows|
    ensures BoundExcess(rows, sel) <= 32.0
  {
    hide Sum;
    TotalsPositive(rows);
    if |rows| == 0 {
      assert BoundTerms(rows, sel) == [] == LightCosts(rows);
    } else {
      var l := LightTotal(rows);
      var ceiling := seq(|rows|, i requires 0 <= i < |rows| => 32.0 / l * rows[i].costs.light);
      SumScale(32.0 / l, LightCosts(rows), ceiling);
      forall i | 0 <= i < |rows|
        ensures BoundTerms(rows, sel)[i] <= ceiling[i]
      {
        ShareTerm(rows[i].costs.light, l, MultipleBound(sel[i]) - 1.0);
      }
      SumLe(BoundTerms(rows, sel), ceiling);
      assert 32.0 / l * l == 32.0;
    }
  }

  lemma ShareTerm(x: real, l: real, b: real)
    requires x > 0.0 && l > 0.0 && b <= 32.0
    ensures b * (x / l) <= 32.0 / l * x
  {
    var q := x / l;
    assert b * q <= 32.0 * q;
    assert 32.0 / l * x == 32.0 * q by {
      assert q * l == x;
      var r := 32.0 / l;
      assert r * l == 32.0;
      assert r * x == r * (q * l) == r * l * q;
    }
  }

  /** Dropping the share bound never makes a row's model cheaper. */
  lemma VectorizedPromotesMore(rows: seq<Row>, s: Settings, iterations: nat, i: nat)
    requires Priced(rows) && AllRise(rows, s) && i < |rows|
    ensures Allocation(rows, s, iterations)[i].Index() <= VectorAllocation(rows, s, iterations)[i]
  {
    hide Violates, Choice, ArrayChoice, OverCaps, Pow2, Widen, Halve;
    var v, w := OverCapsAt(rows, s), ViolatesAt(rows, s);
    CapsAreSomeLimits(rows, s);
    ViolatesAntitone(rows, s);
    FailsExactlyAtLimit(w, LIMIT, iterations);
    if !FallsBack(rows, s, iterations) {
      MoreViolationsRaisePenalty(v, w, LIMIT, iterations);
      var p, q := VectorPenalty(rows, s, iterations), Penalty(rows, s, iterations);
      if v(0.0) {
        FinalBracketFacts(v, LIMIT, iterations);
      }
      assert !v(p) by {
        assert !v(Pow2(LIMIT));
      }
      Bridge(rows, s, p);
      ChoiceAntitone(rows, s, p, q);
    }
  }
}
