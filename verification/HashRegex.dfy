/** The baseline allocator: a first pass under one cap, and for the premium tier a second pass that
    spends what is left on upgrades from the light to the middle model. */
module HashRegex {
  import opened RealSums
  import opened Models
  import opened PenaltyBisection
  import Team = TeamAllocator
  import Theorems = AllocatorTheorems

  datatype Row = Row(scores: PerModel<real>, costs: PerModel<real>)

  datatype Plan = Plan(selected: seq<Model>, ratio: real) | InvalidInput

  const LIMIT: nat := 60
  const FILL_SAFETY_RATIO: real := 0.65

  /** Every row's costs went through the ordering clamp of `predict_episode`. */
  predicate Clamped(rows: seq<Row>) {
    forall i :: 0 <= i < |rows| ==> StrictlyIncreasing(rows[i].costs)
  }

  predicate Priced(rows: seq<Row>) {
    |rows| > 0 && Clamped(rows)
  }

  function LightCosts(rows: seq<Row>): seq<real> {
    seq(|rows|, i requires 0 <= i < |rows| => rows[i].costs.light)
  }

  function LightTotal(rows: seq<Row>): real {
    Sum(LightCosts(rows))
  }

  function ChosenCosts(rows: seq<Row>, sel: seq<Model>): seq<real>
    requires |sel| == |rows|
  {
    seq(|rows|, i requires 0 <= i < |rows| => rows[i].costs.At(sel[i]))
  }

  function Total(rows: seq<Row>, sel: seq<Model>): real
    requires |sel| == |rows|
  {
    Sum(ChosenCosts(rows, sel))
  }

  predicate Exceeds(rows: seq<Row>, sel: seq<Model>, cap: real)
    requires |sel| == |rows|
  {
    Total(rows, sel) > cap
  }

  function ChosenScores(rows: seq<Row>, sel: seq<Model>): seq<real>
    requires |sel| == |rows|
  {
    seq(|rows|, i requires 0 <= i < |rows| => rows[i].scores.At(sel[i]))
  }

  function Score(rows: seq<Row>, sel: seq<Model>): real
    requires |sel| == |rows|
  {
    Sum(ChosenScores(rows, sel))
  }

  lemma LightTotalPositive(rows: seq<Row>)
    requires Priced(rows)
    ensures LightTotal(rows) > 0.0
  {
    SumPositive(LightCosts(rows));
  }

  /** Predicted cost of a selection as a multiple of the all-light cost. */
  function Ratio(rows: seq<Row>, sel: seq<Model>): real
    requires Priced(rows) && |sel| == |rows|
  {
    LightTotalPositive(rows);
    Total(rows, sel) / LightTotal(rows)
  }

  lemma TotalOrder(rows: seq<Row>, a: seq<Model>, b: seq<Model>)
    requires Priced(rows) && |a| == |rows| && Theorems.NoHigher(a, b)
    ensures Total(rows, a) <= Total(rows, b)
  {
    hide Sum;
    forall i | 0 <= i < |rows|
      ensures ChosenCosts(rows, a)[i] <= ChosenCosts(rows, b)[i]
    {
      assert a[i].Index() <= b[i].Index();
    }
    SumLe(ChosenCosts(rows, a), ChosenCosts(rows, b));
  }

  // ---- first pass -------------------------------------------------------------------------------------

  function Value(row: Row, lightTotal: real, penalty: real, m: Model): real
    requires lightTotal > 0.0
  {
    row.scores.At(m) - penalty * row.costs.At(m) / lightTotal
  }

  function Pick(row: Row, lightTotal: real, penalty: real): Model
    requires lightTotal > 0.0
  {
    var first := if Value(row, lightTotal, penalty, Ax31) > Value(row, lightTotal, penalty, Ax31Light)
                 then Ax31 else Ax31Light;
    if Value(row, lightTotal, penalty, Axk1Think) > Value(row, lightTotal, penalty, first) then Axk1Think else first
  }

  function Choice(rows: seq<Row>, penalty: real): (sel: seq<Model>)
    requires Priced(rows)
    ensures |sel| == |rows|
  {
    LightTotalPositive(rows);
    seq(|rows|, i requires 0 <= i < |rows| => Pick(rows[i], LightTotal(rows), penalty))
  }

  function FirstCap(rows: seq<Row>, multiplier: real, safety: real): real {
    LightTotal(rows) * Max(1.0, multiplier * safety)
  }

  function FirstViolates(rows: seq<Row>, cap: real): real -> bool
    requires Priced(rows)
  {
    penalty => Exceeds(rows, Choice(rows, penalty), cap)
  }

  function FirstPass(rows: seq<Row>, multiplier: real, safety: real): (sel: seq<Model>)
    requires Priced(rows)
    ensures |sel| == |rows|
  {
    var v := FirstViolates(rows, FirstCap(rows, multiplier, safety));
    var p := FinalPenalty(v, LIMIT, 80);
    if v(p) then Team.AllLight(|rows|) else Choice(rows, p)
  }

  /** The search of `select_models`. */
  method SearchFirst(rows: seq<Row>, multiplier: real, safety: real) returns (selected: seq<Model>)
    requires Priced(rows)
    ensures selected == FirstPass(rows, multiplier, safety)
  {
    hide Clamped, Choice, Total, Exceeds, Pow2, Widen, Halve, LightTotal, FirstCap, Ratio;
    var cap := FirstCap(rows, multiplier, safety);
    ghost var v := FirstViolates(rows, cap);
    ghost var penalty := 0.0;
    selected := Choice(rows, 0.0);
    if Exceeds(rows, selected, cap) {
      var low, high := 0.0, 1.0;
      ghost var k: nat := 0;
      Pow2Step(0);
      selected := Choice(rows, high);
      while Exceeds(rows, selected, cap) && high < Pow2(60)
        invariant k <= LIMIT && high == Pow2(k)
        invariant selected == Choice(rows, high)
        invariant Widen(v, low, k, LIMIT) == Widen(v, 0.0, 0, LIMIT)
        decreases LIMIT - k
      {
        WidenTurn(v, low, k, LIMIT);
        Pow2Step(k);
        low, high, k := high, high * 2.0, k + 1;
        selected := Choice(rows, high);
      }
      WidenTurn(v, low, k, LIMIT);
      ghost var wide := Bracket(low, high);
      for iteration := 0 to 80
        invariant Halve(v, Bracket(low, high), 80 - iteration) == Halve(v, wide, 80)
        invariant selected == Choice(rows, high)
      {
        HalveTurn(v, Bracket(low, high), 79 - iteration);
        var middle := (low + high) / 2.0;
        var candidate := Choice(rows, middle);
        if !Exceeds(rows, candidate, cap) {
          high := middle;
          selected := candidate;
        } else {
          low := middle;
        }
      }
      HalveTurn(v, Bracket(low, high), 0);
      penalty := high;
    }
    assert penalty == FinalPenalty(v, LIMIT, 80);
    if Exceeds(rows, selected, cap) {
      selected := Team.AllLight(|rows|);
    }
  }

  /** `select_models`: the selection and its predicted budget ratio. */
  method SelectModels(rows: seq<Row>, multiplier: real, safety: real) returns (plan: Plan)
    requires Clamped(rows)
    ensures plan.InvalidInput? <==> |rows| == 0
    ensures |rows| > 0 ==>
              var sel := FirstPass(rows, multiplier, safety); plan == Plan(sel, Ratio(rows, sel))
  {
    if |rows| == 0 {
      return InvalidInput;
    }
    hide FirstPass, Ratio;
    var selected := SearchFirst(rows, multiplier, safety);
    return Plan(selected, Ratio(rows, selected));
  }

  lemma AllLightTotal(rows: seq<Row>)
    ensures Total(rows, Team.AllLight(|rows|)) == LightTotal(rows)
  {
    assert ChosenCosts(rows, Team.AllLight(|rows|)) == LightCosts(rows);
  }

  lemma ValueIsUnitRisk(row: Row, lightTotal: real, penalty: real, s: Team.Settings, m: Model)
    requires lightTotal > 0.0 && s.risk == PerModel(1.0, 1.0, 1.0)
    ensures Value(row, lightTotal, penalty, m)
         == Team.Value(Team.Row(row.scores, row.costs, row.costs), s, lightTotal, penalty, m)
  {
    assert s.risk.At(m) == 1.0;
    assert penalty * 1.0 == penalty;
  }

  /** The first pass is the shipped rule with every risk multiplier 1 and one cost for both purposes. */
  lemma PickIsUnitRisk(row: Row, lightTotal: real, penalty: real, s: Team.Settings)
    requires lightTotal > 0.0 && s.risk == PerModel(1.0, 1.0, 1.0)
    ensures Pick(row, lightTotal, penalty)
              == Team.Pick(Team.Row(row.scores, row.costs, row.costs), s, lightTotal, penalty)
  {
    hide Value, Team.Value;
    ValueIsUnitRisk(row, lightTotal, penalty, s, Ax31Light);
    ValueIsUnitRisk(row, lightTotal, penalty, s, Ax31);
    ValueIsUnitRisk(row, lightTotal, penalty, s, Axk1Think);
  }

  lemma ChoiceAntitone(rows: seq<Row>, p: real, q: real)
    requires Priced(rows) && p <= q
    ensures Theorems.NoHigher(Choice(rows, q), Choice(rows, p))
  {
    hide Pick, Team.Pick;
    LightTotalPositive(rows);
    var unit := Team.Settings(1.0, 1.0, PerModel(1.0, 1.0, 1.0), 1.0, 1.0);
    forall i | 0 <= i < |rows|
      ensures Choice(rows, q)[i].Index() <= Choice(rows, p)[i].Index()
    {
      var l := LightTotal(rows);
      PickIsUnitRisk(rows[i], l, p, unit);
      PickIsUnitRisk(rows[i], l, q, unit);
      Theorems.PickAntitone(Team.Row(rows[i].scores, rows[i].costs, rows[i].costs), unit, l, p, q);
    }
  }

  /** The first pass always fits its cap, and gives up exactly when the penalty `2^60` does not fit. */
  lemma FirstPassFits(rows: seq<Row>, multiplier: real, safety: real)
    requires Priced(rows)
    ensures Total(rows, FirstPass(rows, multiplier, safety)) <= FirstCap(rows, multiplier, safety)
    ensures var v := FirstViolates(rows, FirstCap(rows, multiplier, safety));
            v(FinalPenalty(v, LIMIT, 80)) <==> v(Pow2(60))
  {
    hide Choice, Total, Pow2, Widen, Halve;
    var cap := FirstCap(rows, multiplier, safety);
    var v := FirstViolates(rows, cap);
    LightTotalPositive(rows);
    AllLightTotal(rows);
    ScaleByAtLeastOne(LightTotal(rows), Max(1.0, multiplier * safety));
    forall p, q | 0.0 <= p <= q && v(q)
      ensures v(p)
    {
      ChoiceAntitone(rows, p, q);
      TotalOrder(rows, Choice(rows, q), Choice(rows, p));
    }
    FailsExactlyAtLimit(v, LIMIT, 80);
  }

  lemma ScaleByAtLeastOne(l: real, x: real)
    requires l > 0.0 && x >= 1.0
    ensures l <= l * x
  {
  }

  // ---- fill pass ----------------------------------------------------------------------------------------

  predicate Upgrades(row: Row, lightTotal: real, penalty: real)
    requires lightTotal > 0.0
  {
    var incrementalScore := row.scores.mid - row.scores.light;
    var incrementalCost := row.costs.mid - row.costs.light;
    incrementalScore - penalty * incrementalCost / lightTotal > 0.0
  }

  function FillChoice(selected: seq<Model>, rows: seq<Row>, penalty: real): (filled: seq<Model>)
    requires Priced(rows) && |selected| == |rows|
    ensures |filled| == |rows|
  {
    LightTotalPositive(rows);
    seq(|rows|, i requires 0 <= i < |rows| =>
      if selected[i] != Ax31Light then selected[i]
      else if Upgrades(rows[i], LightTotal(rows), penalty) then Ax31 else Ax31Light)
  }

  function FillCap(selected: seq<Model>, rows: seq<Row>, multiplier: real, safety: real): real
    requires |selected| == |rows|
  {
    Max(Total(rows, selected), FirstCap(rows, multiplier, safety))
  }

  function FillViolates(selected: seq<Model>, rows: seq<Row>, cap: real): real -> bool
    requires Priced(rows) && |selected| == |rows|
  {
    penalty => Exceeds(rows, FillChoice(selected, rows, penalty), cap)
  }

  function FillPass(selected: seq<Model>, rows: seq<Row>, multiplier: real, safety: real): (filled: seq<Model>)
    requires Priced(rows) && |selected| == |rows|
    ensures |filled| == |rows|
  {
    var v := FillViolates(selected, rows, FillCap(selected, rows, multiplier, safety));
    var p := FinalPenalty(v, LIMIT, 80);
    if v(p) then selected else FillChoice(selected, rows, p)
  }

  /** The search of `fill_ax31_upgrades`. */
  method SearchFill(selected: seq<Model>, rows: seq<Row>, multiplier: real, safety: real) returns (filled: seq<Model>)
    requires Priced(rows) && |selected| == |rows|
    ensures filled == FillPass(selected, rows, multiplier, safety)
  {
    hide Clamped, FillChoice, Total, Exceeds, Pow2, Widen, Halve, LightTotal, FillCap, Ratio;
    var cap := FillCap(selected, rows, multiplier, safety);
    ghost var v := FillViolates(selected, rows, cap);
    ghost var penalty := 0.0;
    filled := FillChoice(selected, rows, 0.0);
    if Exceeds(rows, filled, cap) {
      var low, high := 0.0, 1.0;
      ghost var k: nat := 0;
      Pow2Step(0);
      filled := FillChoice(selected, rows, high);
      while Exceeds(rows, filled, cap) && high < Pow2(60)
        invariant k <= LIMIT && high == Pow2(k)
        invariant filled == FillChoice(selected, rows, high)
        invariant Widen(v, low, k, LIMIT) == Widen(v, 0.0, 0, LIMIT)
        decreases LIMIT - k
      {
        WidenTurn(v, low, k, LIMIT);
        Pow2Step(k);
        low, high, k := high, high * 2.0, k + 1;
        filled := FillChoice(selected, rows, high);
      }
      WidenTurn(v, low, k, LIMIT);
      ghost var wide := Bracket(low, high);
      for iteration := 0 to 80
        invariant Halve(v, Bracket(low, high), 80 - iteration) == Halve(v, wide, 80)
        invariant filled == FillChoice(selected, rows, high)
      {
        HalveTurn(v, Bracket(low, high), 79 - iteration);
        var middle := (low + high) / 2.0;
        var candidate := FillChoice(selected, rows, middle);
        if !Exceeds(rows, candidate, cap) {
          high := middle;
          filled := candidate;
        } else {
          low := middle;
        }
      }
      HalveTurn(v, Bracket(low, high), 0);
      penalty := high;
    }
    assert penalty == FinalPenalty(v, LIMIT, 80);
    if Exceeds(rows, filled, cap) {
      filled := selected;
    }
  }

  /** `fill_ax31_upgrades`. */
  method FillUpgrades(selected: seq<Model>, rows: seq<Row>, multiplier: real, safety: real) returns (plan: Plan)
    requires Clamped(rows)
    ensures plan.InvalidInput? <==> |selected| != |rows| || |selected| == 0 || !(0.0 < safety <= 1.0)
    ensures !plan.InvalidInput? ==>
              var filled := FillPass(selected, rows, multiplier, safety); plan == Plan(filled, Ratio(rows, filled))
  {
    if |selected| != |rows| || |selected| == 0 || !(0.0 < safety <= 1.0) {
      return InvalidInput;
    }
    hide FillPass, Ratio;
    var filled := SearchFill(selected, rows, multiplier, safety);
    return Plan(filled, Ratio(rows, filled));
  }

  /** `make_hash_regex_submission`'s composition of the two passes. */
  method PlanTier(rows: seq<Row>, multiplier: real, safety: real, premium: bool) returns (plan: Plan)
    requires Priced(rows)
    ensures var first := FirstPass(rows, multiplier, safety);
            var sel := if premium then FillPass(first, rows, multiplier, 0.65) else first;
            plan == Plan(sel, Ratio(rows, sel))
  {
    hide FirstPass, FillPass, Total, LightTotal;
    LightTotalPositive(rows);
    plan := SelectModels(rows, multiplier, safety);
    if premium {
      plan := FillUpgrades(plan.selected, rows, multiplier, FILL_SAFETY_RATIO);
    }
  }

  // ---- what the fill pass does ----------------------------------------------------------------------------

  lemma UpgradeNested(row: Row, lightTotal: real, p: real, q: real)
    requires lightTotal > 0.0 && StrictlyIncreasing(row.costs) && 0.0 <= p <= q
    requires Upgrades(row, lightTotal, q)
    ensures Upgrades(row, lightTotal, p)
    ensures row.scores.light < row.scores.mid
  {
    var c := row.costs.mid - row.costs.light;
    assert 0.0 <= p * c <= q * c;
    assert p * c / lightTotal <= q * c / lightTotal;
    assert 0.0 <= p * c / lightTotal;
  }

  /** The upgrade sets are nested: what a larger penalty upgrades, a smaller one does too. */
  lemma FillNested(selected: seq<Model>, rows: seq<Row>, p: real, q: real)
    requires Priced(rows) && |selected| == |rows| && 0.0 <= p <= q
    ensures Theorems.NoHigher(FillChoice(selected, rows, q), FillChoice(selected, rows, p))
  {
    hide Upgrades;
    LightTotalPositive(rows);
    forall i | 0 <= i < |rows|
      ensures FillChoice(selected, rows, q)[i].Index() <= FillChoice(selected, rows, p)[i].Index()
    {
      if Upgrades(rows[i], LightTotal(rows), q) {
        UpgradeNested(rows[i], LightTotal(rows), p, q);
      }
    }
  }

  lemma FillSearch(selected: seq<Model>, rows: seq<Row>, multiplier: real, safety: real) returns (p: real)
    requires Priced(rows) && |selected| == |rows|
    ensures p >= 0.0
    ensures var v := FillViolates(selected, rows, FillCap(selected, rows, multiplier, safety));
            && (v(Pow2(60)) ==> FillPass(selected, rows, multiplier, safety) == selected)
            && (!v(Pow2(60)) ==> !v(p) && FillPass(selected, rows, multiplier, safety) == FillChoice(selected, rows, p))
  {
    hide FillChoice, Total, Pow2, Widen, Halve;
    var v := FillViolates(selected, rows, FillCap(selected, rows, multiplier, safety));
    p := FinalPenalty(v, LIMIT, 80);
    forall x, y | 0.0 <= x <= y && v(y)
      ensures v(x)
    {
      FillNested(selected, rows, x, y);
      TotalOrder(rows, FillChoice(selected, rows, y), FillChoice(selected, rows, x));
    }
    FailsExactlyAtLimit(v, LIMIT, 80);
    if v(0.0) {
      FinalBracketFacts(v, LIMIT, 80);
    }
  }

  /** The fill pass keeps every non-light choice; each row it changes goes from the light to the middle
      model with a strictly higher predicted score. So the predicted score never falls. */
  lemma FillOnlyUpgrades(selected: seq<Model>, rows: seq<Row>, multiplier: real, safety: real)
    requires Priced(rows) && |selected| == |rows|
    ensures var filled := FillPass(selected, rows, multiplier, safety);
            && (forall i :: 0 <= i < |rows| && filled[i] != selected[i] ==>
                  selected[i] == Ax31Light && filled[i] == Ax31 && rows[i].scores.light < rows[i].scores.mid)
            && Score(rows, selected) <= Score(rows, filled)
  {
    hide Sum, Upgrades, Total, FillPass, FillViolates;
    var filled := FillPass(selected, rows, multiplier, safety);
    var p := FillSearch(selected, rows, multiplier, safety);
    LightTotalPositive(rows);
    forall i | 0 <= i < |rows| && filled[i] != selected[i]
      ensures selected[i] == Ax31Light && filled[i] == Ax31 && rows[i].scores.light < rows[i].scores.mid
    {
      UpgradeNested(rows[i], LightTotal(rows), p, p);
    }
    forall i | 0 <= i < |rows|
      ensures ChosenScores(rows, selected)[i] <= ChosenScores(rows, filled)[i]
    {
    }
    SumLe(ChosenScores(rows, selected), ChosenScores(rows, filled));
  }

  lemma FillFits(selected: seq<Model>, rows: seq<Row>, multiplier: real, safety: real)
    requires Priced(rows) && |selected| == |rows|
    ensures Total(rows, FillPass(selected, rows, multiplier, safety)) <= FillCap(selected, rows, multiplier, safety)
  {
    hide Total, FillPass, FillChoice;
    var p := FillSearch(selected, rows, multiplier, safety);
  }

  lemma DivideBound(total: real, l: real, x: real)
    requires l > 0.0 && total <= l * x
    ensures total / l <= x
  {
    var q := total / l;
    assert q * l == total;
    if q > x {
      assert (q - x) * l > 0.0;
    }
  }

  /** Predicted budget ratio of the whole plan. The fill pass ends within the largest of the first
      pass's ratio, 1 and 0.65 of the multiplier, so a tier whose multiplier is at least 1 is never
      planned over its limit. */
  lemma PlanWithinTier(rows: seq<Row>, multiplier: real, safety: real)
    requires Priced(rows) && 0.0 < safety <= 1.0
    ensures var first := FirstPass(rows, multiplier, safety);
            var filled := FillPass(first, rows, multiplier, FILL_SAFETY_RATIO);
            && Ratio(rows, first) <= Max(1.0, multiplier * safety)
            && Ratio(rows, filled) <= Max(Ratio(rows, first), Max(1.0, multiplier * 0.65))
            && (multiplier >= 1.0 ==> Ratio(rows, filled) <= multiplier)
  {
    hide Total, FirstPass, FillPass, LightTotal, Max;
    LightTotalPositive(rows);
    var l := LightTotal(rows);
    var first := FirstPass(rows, multiplier, safety);
    var filled := FillPass(first, rows, multiplier, FILL_SAFETY_RATIO);
    FirstPassFits(rows, multiplier, safety);
    FillFits(first, rows, multiplier, FILL_SAFETY_RATIO);
    DivideBound(Total(rows, first), l, Max(1.0, multiplier * safety));
    DivideMaxBound(Total(rows, filled), Total(rows, first), FirstCap(rows, multiplier, FILL_SAFETY_RATIO), l,
                   Max(1.0, multiplier * FILL_SAFETY_RATIO));
    WithinMultiplier(multiplier, safety);
    WithinMultiplier(multiplier, 0.65);
    MaxBelow(Ratio(rows, first), Max(1.0, multiplier * 0.65), multiplier);
  }

  lemma DivideMaxBound(total: real, first: real, cap: real, l: real, x: real)
    requires l > 0.0 && cap == l * x && total <= Max(first, cap)
    ensures total / l <= Max(first / l, x)
  {
    if total <= first {
      assert total / l <= first / l;
    } else {
      DivideBound(total, l, x);
    }
  }

  lemma WithinMultiplier(multiplier: real, safety: real)
    requires 0.0 < safety <= 1.0
    ensures multiplier >= 1.0 ==> Max(1.0, multiplier * safety) <= multiplier
  {
    if multiplier >= 1.0 {
      assert multiplier * safety <= multiplier;
    }
  }

  lemma MaxBelow(x: real, y: real, z: real)
    ensures x <= z && y <= z ==> Max(x, y) <= z
  {
  }
}
