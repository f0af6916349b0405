/** The shipped batch allocator: `_team_select_models` and its local `choose` and `violates`. */
module TeamAllocator {
  import opened RealSums
  import opened Models
  import opened PenaltyBisection

  /** One episode's predictions: quality, budget cost and ranking cost of each model. */
  datatype Row = Row(scores: PerModel<real>, costs: PerModel<real>, rankCosts: PerModel<real>)

  datatype Settings = Settings(
    budgetMultiplier: real,
    safetyRatio: real,
    risk: PerModel<real>,
    highCapRatio: real,
    shareRatio: real)

  /** The factor by which the clamp keeps each model dearer than the one before. */
  const CLAMP: real := 1.000000000001

  predicate PositiveCosts(c: PerModel<real>) {
    0.0 < c.light && 0.0 < c.mid && 0.0 < c.high
  }

  predicate Clamped(c: PerModel<real>) {
    0.0 < c.light && c.light * CLAMP <= c.mid && c.mid * CLAMP <= c.high
  }

  /** `cost_from`: the clamp that orders the three cost predictions. */
  function CostFrom(raw: PerModel<real>): (c: PerModel<real>)
    requires PositiveCosts(raw)
    ensures StrictlyIncreasing(c) && Clamped(c)
    ensures c.light == raw.light && c.mid >= raw.mid && c.high >= raw.high
  {
    var mid := Max(raw.mid, raw.light * CLAMP);
    PerModel(raw.light, mid, Max(raw.high, mid * CLAMP))
  }

  /** The clamp keeps each model dearer than the one before by 10^-12 of its cost, and raises nothing more than
      that takes: no other costs that do so, above the same predictions, lie lower. */
  lemma CostFromLeast(raw: PerModel<real>, other: PerModel<real>)
    requires PositiveCosts(raw)
    ensures var c := CostFrom(raw);
            c.light * 1.000000000001 <= c.mid && c.mid * 1.000000000001 <= c.high
    ensures raw.light * 1.000000000001 <= other.mid && other.mid * 1.000000000001 <= other.high
            && other.mid >= raw.mid && other.high >= raw.high ==>
              CostFrom(raw).mid <= other.mid && CostFrom(raw).high <= other.high
  {
    var mid := CostFrom(raw).mid;
    if mid <= other.mid {
      assert mid * CLAMP <= other.mid * CLAMP;
    }
  }

  /** The clamp returns exactly the costs that keep its distance. */
  lemma CostFromExactly(c: PerModel<real>)
    ensures Clamped(c) <==> exists raw: PerModel<real> :: PositiveCosts(raw) && CostFrom(raw) == c
  {
    if Clamped(c) {
      assert PositiveCosts(c) && CostFrom(c) == c;
    }
  }

  /** A row as `_team_predict_episode` can return it: scores within 0 and 1, both costs clamped. */
  predicate Predicted(row: Row) {
    && 0.0 <= row.scores.light <= 1.0 && 0.0 <= row.scores.mid <= 1.0 && 0.0 <= row.scores.high <= 1.0
    && Clamped(row.costs) && Clamped(row.rankCosts)
  }

  /** Every row's two cost predictions went through `CostFrom`. */
  predicate Priced(rows: seq<Row>) {
    forall i :: 0 <= i < |rows| ==> StrictlyIncreasing(rows[i].costs) && StrictlyIncreasing(rows[i].rankCosts)
  }

  /** `_TEAM_MULTIPLE_BOUND`, extended by 1 to the light model, which adds no excess. */
  function MultipleBound(m: Model): real {
    match m
    case Ax31Light => 1.0
    case Ax31 => 3.0
    case Axk1Think => 33.0
  }

  // ---- batch totals ---------------------------------------------------------------------------

  function LightCosts(rows: seq<Row>): seq<real> {
    seq(|rows|, i requires 0 <= i < |rows| => rows[i].costs.light)
  }

  function LightTotal(rows: seq<Row>): real { Sum(LightCosts(rows)) }

  function RankLightCosts(rows: seq<Row>): seq<real> {
    seq(|rows|, i requires 0 <= i < |rows| => rows[i].rankCosts.light)
  }

  function RankLightTotal(rows: seq<Row>): real { Sum(RankLightCosts(rows)) }

  function Cap(rows: seq<Row>, s: Settings): real {
    LightTotal(rows) * (1.0 + (s.budgetMultiplier - 1.0) * s.safetyRatio)
  }

  function ChosenCosts(rows: seq<Row>, sel: seq<Model>): seq<real>
    requires |sel| == |rows|
  {
    seq(|rows|, i requires 0 <= i < |rows| => rows[i].costs.At(sel[i]))
  }

  function HighCosts(rows: seq<Row>, sel: seq<Model>): seq<real>
    requires |sel| == |rows|
  {
    seq(|rows|, i requires 0 <= i < |rows| => if sel[i].Axk1Think? then rows[i].costs.high else 0.0)
  }

  function BoundTerms(rows: seq<Row>, sel: seq<Model>): seq<real>
    requires Priced(rows) && |sel| == |rows|
  {
    TotalsPositive(rows);
    seq(|rows|, i requires 0 <= i < |rows| =>
      (MultipleBound(sel[i]) - 1.0) * (rows[i].costs.light / LightTotal(rows)))
  }

  function Total(rows: seq<Row>, sel: seq<Model>): real
    requires |sel| == |rows|
  {
    Sum(ChosenCosts(rows, sel))
  }

  function HighTotal(rows: seq<Row>, sel: seq<Model>): real
    requires |sel| == |rows|
  {
    Sum(HighCosts(rows, sel))
  }

  function BoundExcess(rows: seq<Row>, sel: seq<Model>): real
    requires Priced(rows) && |sel| == |rows|
  {
    Sum(BoundTerms(rows, sel))
  }

  lemma TotalsPositive(rows: seq<Row>)
    requires Priced(rows)
    ensures |rows| > 0 ==> LightTotal(rows) > 0.0 && RankLightTotal(rows) > 0.0
    ensures |rows| == 0 ==> LightTotal(rows) == 0.0
  {
    if |rows| > 0 {
      SumPositive(LightCosts(rows));
      SumPositive(RankLightCosts(rows));
    }
  }

  // ---- one row --------------------------------------------------------------------------------

  /** The expected-value key of one candidate; `rankTotal` is the batch's light ranking cost. */
  function Value(row: Row, s: Settings, rankTotal: real, penalty: real, m: Model): real
    requires rankTotal > 0.0
  {
    row.scores.At(m) - penalty * s.risk.At(m) * row.rankCosts.At(m) / rankTotal
  }

  /** The risk-weighted, normalised ranking cost that the penalty prices. */
  function Weight(row: Row, s: Settings, rankTotal: real, m: Model): real
    requires rankTotal > 0.0
  {
    s.risk.At(m) * row.rankCosts.At(m) / rankTotal
  }

  /** Maximal by (value, cheaper first), the key the source gives to `max`. */
  ghost predicate IsArgmax(row: Row, s: Settings, rankTotal: real, penalty: real, m: Model)
    requires rankTotal > 0.0
  {
    forall other: Model ::
      var mine, theirs := Value(row, s, rankTotal, penalty, m), Value(row, s, rankTotal, penalty, other);
      theirs < mine || (theirs == mine && m.Index() <= other.Index())
  }

  function Pick(row: Row, s: Settings, rankTotal: real, penalty: real): (m: Model)
    requires rankTotal > 0.0
    ensures IsArgmax(row, s, rankTotal, penalty, m)
  {
    var first := if Value(row, s, rankTotal, penalty, Ax31) > Value(row, s, rankTotal, penalty, Ax31Light)
                 then Ax31 else Ax31Light;
    if Value(row, s, rankTotal, penalty, Axk1Think) > Value(row, s, rankTotal, penalty, first)
    then Axk1Think else first
  }

  lemma ValueIsPenalised(row: Row, s: Settings, rankTotal: real, penalty: real, m: Model)
    requires rankTotal > 0.0
    ensures Value(row, s, rankTotal, penalty, m) == row.scores.At(m) - penalty * Weight(row, s, rankTotal, m)
  {
    var a, c := s.risk.At(m), row.rankCosts.At(m);
    assert penalty * a * c / rankTotal == penalty * (a * c / rankTotal) by {
      var q := a * c / rankTotal;
      assert q * rankTotal == a * c;
      assert penalty * q * rankTotal == penalty * (a * c) == penalty * a * c;
    }
  }

  // ---- the batch ------------------------------------------------------------------------------

  function Choice(rows: seq<Row>, s: Settings, penalty: real): (sel: seq<Model>)
    requires Priced(rows)
    ensures |sel| == |rows|
  {
    TotalsPositive(rows);
    seq(|rows|, i requires 0 <= i < |rows| => Pick(rows[i], s, RankLightTotal(rows), penalty))
  }

  predicate Violates(rows: seq<Row>, s: Settings, sel: seq<Model>)
    requires Priced(rows) && |sel| == |rows|
  {
    || Total(rows, sel) > Cap(rows, s)
    || HighTotal(rows, sel) > Cap(rows, s) * s.highCapRatio
    || BoundExcess(rows, sel) > (s.budgetMultiplier - 1.0) * s.shareRatio
  }

  function ViolatesAt(rows: seq<Row>, s: Settings): real -> bool
    requires Priced(rows)
  {
    penalty => Violates(rows, s, Choice(rows, s, penalty))
  }

  function AllLight(n: nat): seq<Model> {
    seq(n, _ => Ax31Light)
  }

  const LIMIT: nat := 40

  function Penalty(rows: seq<Row>, s: Settings, iterations: nat): real
    requires Priced(rows)
  {
    FinalPenalty(ViolatesAt(rows, s), LIMIT, iterations)
  }

  predicate FallsBack(rows: seq<Row>, s: Settings, iterations: nat)
    requires Priced(rows)
  {
    ViolatesAt(rows, s)(Penalty(rows, s, iterations))
  }

  /** The value the whole search returns, as a function of the number of halvings. */
  function Allocation(rows: seq<Row>, s: Settings, iterations: nat): (sel: seq<Model>)
    requires Priced(rows)
    ensures |sel| == |rows|
  {
    if FallsBack(rows, s, iterations) then AllLight(|rows|)
    else Choice(rows, s, Penalty(rows, s, iterations))
  }

  // ---- the imperative code --------------------------------------------------------------------

  method Choose(rows: seq<Row>, s: Settings, penalty: real) returns (selected: seq<Model>, violated: bool)
    requires Priced(rows)
    ensures selected == Choice(rows, s, penalty)
    ensures violated == ViolatesAt(rows, s)(penalty)
  {
    TotalsPositive(rows);
    var rankLightTotal := RankLightTotal(rows);
    selected := [];
    for i := 0 to |rows|
      invariant selected == Choice(rows, s, penalty)[..i]
    {
      selected := selected + [Pick(rows[i], s, rankLightTotal, penalty)];
    }
    violated := Violates(rows, s, selected);
  }

  /** `_team_select_models`. */
  method SelectModels(rows: seq<Row>, s: Settings) returns (selected: seq<Model>)
    requires Priced(rows)
    ensures selected == Allocation(rows, s, 40)
  {
    hide Violates, Choice, Pow2, Widen, Halve;
    ghost var v := ViolatesAt(rows, s);
    ghost var penalty := 0.0;
    var violated: bool;
    selected, violated := Choose(rows, s, 0.0);
    if violated {
      var low, high := 0.0, 1.0;
      selected, violated := Choose(rows, s, high);
      ghost var k: nat := 0;
      Pow2Step(0);
      while violated && high < Pow2(40)
        invariant k <= LIMIT && high == Pow2(k)
        invariant selected == Choice(rows, s, high) && violated == v(high)
        invariant Widen(v, low, k, LIMIT) == Widen(v, 0.0, 0, LIMIT)
        decreases LIMIT - k
      {
        WidenTurn(v, low, k, LIMIT);
        Pow2Step(k);
        low, high, k := high, high * 2.0, k + 1;
        selected, violated := Choose(rows, s, high);
      }
      WidenTurn(v, low, k, LIMIT);
      ghost var wide := Bracket(low, high);
      for iteration := 0 to 40
        invariant Halve(v, Bracket(low, high), 40 - iteration) == Halve(v, wide, 40)
        invariant selected == Choice(rows, s, high) && violated == v(high)
      {
        HalveTurn(v, Bracket(low, high), 39 - iteration);
        var middle := (low + high) / 2.0;
        var candidate, candidateViolated := Choose(rows, s, middle);
        if !candidateViolated {
          high := middle;
          selected, violated := candidate, candidateViolated;
        } else {
          low := middle;
        }
      }
      HalveTurn(v, Bracket(low, high), 0);
      penalty := high;
    }
    assert penalty == Penalty(rows, s, 40);
    if violated {
      selected := AllLight(|rows|);
    }
  }
}
