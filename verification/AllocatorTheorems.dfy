/** What the shipped allocator is for: its search is monotone, its result respects every constraint,
    and no assignment of the same weight scores higher. */
module AllocatorTheorems {
  import opened RealSums
  import opened Models
  import opened PenaltyBisection
  import opened TeamAllocator

  // ---- one row: a larger penalty never promotes --------------------------------------------------

  /** The risk-weighted ranking costs of a row rise with the model. */
  predicate WeightsRise(row: Row, s: Settings) {
    s.risk.light * row.rankCosts.light <= s.risk.mid * row.rankCosts.mid <= s.risk.high * row.rankCosts.high
  }

  ghost predicate AllRise(rows: seq<Row>, s: Settings) {
    forall i :: 0 <= i < |rows| ==> WeightsRise(rows[i], s)
  }

  /** The condition on the artifact's risk multipliers: they may fall by no more than the clamp makes up for. */
  predicate SoundRisk(risk: PerModel<real>) {
    0.0 <= risk.mid && risk.light <= risk.mid * CLAMP && risk.mid <= risk.high * CLAMP
  }

  lemma ProductOrder(a: real, b: real, x: real, y: real)
    requires a <= b * CLAMP && 0.0 <= b && 0.0 <= x && x * CLAMP <= y
    ensures a * x <= b * y
  {
    assert a * x <= b * CLAMP * x;
    assert b * CLAMP * x == b * (x * CLAMP);
    assert b * (x * CLAMP) <= b * y;
  }

  /** Under that condition every predicted row's weights rise. */
  lemma SoundRises(row: Row, s: Settings)
    requires SoundRisk(s.risk) && Clamped(row.rankCosts)
    ensures WeightsRise(row, s)
  {
    var r, c := s.risk, row.rankCosts;
    ProductOrder(r.light, r.mid, c.light, c.mid);
    ProductOrder(r.mid, r.high, c.mid, c.high);
  }

  /** So the theorems on batches below apply to every batch the router predicts. */
  lemma PredictedRise(rows: seq<Row>, s: Settings)
    requires SoundRisk(s.risk) && forall i :: 0 <= i < |rows| ==> Predicted(rows[i])
    ensures Priced(rows) && AllRise(rows, s)
  {
    forall i | 0 <= i < |rows|
      ensures WeightsRise(rows[i], s)
    {
      SoundRises(rows[i], s);
    }
  }

  lemma QuotientOrder(x: real, y: real, d: real)
    requires x <= y && d > 0.0
    ensures x / d <= y / d
  {
  }

  lemma WeightsOrdered(row: Row, s: Settings, rankTotal: real, a: Model, b: Model)
    requires WeightsRise(row, s) && rankTotal > 0.0
    ensures a.Index() <= b.Index() ==> Weight(row, s, rankTotal, a) <= Weight(row, s, rankTotal, b)
  {
    var r, c := s.risk, row.rankCosts;
    QuotientOrder(r.light * c.light, r.mid * c.mid, rankTotal);
    QuotientOrder(r.mid * c.mid, r.high * c.high, rankTotal);
  }

  /** The picked model's penalised value against any other's, ties going to the cheaper one. */
  lemma PickBeats(row: Row, s: Settings, rankTotal: real, p: real, other: Model)
    requires rankTotal > 0.0
    ensures var m := Pick(row, s, rankTotal, p);
            var mine := row.scores.At(m) - p * Weight(row, s, rankTotal, m);
            var theirs := row.scores.At(other) - p * Weight(row, s, rankTotal, other);
            theirs < mine || (theirs == mine && m.Index() <= other.Index())
  {
    var m := Pick(row, s, rankTotal, p);
    hide Value, Weight, Pick;
    assert IsArgmax(row, s, rankTotal, p, m);
    ValueIsPenalised(row, s, rankTotal, p, m);
    ValueIsPenalised(row, s, rankTotal, p, other);
  }

  /** An exchange argument on two penalties. */
  lemma ExchangeOrder(p: real, q: real, x: real, y: real, wx: real, wy: real)
    requires p <= q && wx <= wy
    requires y - p * wy <= x - p * wx
    ensures y - q * wy <= x - q * wx
  {
    var d := wy - wx;
    assert p * d <= q * d;
    assert p * wy == p * wx + p * d;
    assert q * wy == q * wx + q * d;
  }

  lemma PickAntitone(row: Row, s: Settings, rankTotal: real, p: real, q: real)
    requires WeightsRise(row, s) && rankTotal > 0.0
    requires p <= q
    ensures Pick(row, s, rankTotal, q).Index() <= Pick(row, s, rankTotal, p).Index()
  {
    hide *;
    var a, b := Pick(row, s, rankTotal, p), Pick(row, s, rankTotal, q);
    WeightsOrdered(row, s, rankTotal, a, b);
    PickBeats(row, s, rankTotal, p, b);
    PickBeats(row, s, rankTotal, q, a);
    if a.Index() < b.Index() {
      ExchangeOrder(p, q, row.scores.At(a), row.scores.At(b),
                    Weight(row, s, rankTotal, a), Weight(row, s, rankTotal, b));
    }
  }

  /** A larger penalty never promotes a row that the router can predict, in any batch that holds it. */
  ghost predicate PicksAntitone(s: Settings) {
    forall row: Row, rankTotal: real, p: real, q: real ::
      Predicted(row) && rankTotal >= row.rankCosts.light && 0.0 <= p <= q
      ==> Pick(row, s, rankTotal, q).Index() <= Pick(row, s, rankTotal, p).Index()
  }

  // Concrete rows on which a larger penalty promotes, one for each way the risk condition can fail.

  const SOME_COSTS: PerModel<real> := PerModel(1.0, 2.0, 4.0)

  lemma LightRiskTooHigh(s: Settings)
    requires s.risk.mid * CLAMP < s.risk.light
    ensures !PicksAntitone(s)
  {
    WitnessLightToMid(s, CLAMP);
  }

  lemma MidRiskNegative(s: Settings)
    requires s.risk.light <= s.risk.mid * CLAMP && s.risk.mid < 0.0
    ensures !PicksAntitone(s)
  {
    var r := s.risk;
    var d := r.light / r.mid;
    assert d * r.mid == r.light;
    AtLeastFactor(d, r.mid);
    WitnessLightToMid(s, d + CLAMP);
  }

  lemma AtLeastFactor(d: real, m: real)
    requires m < 0.0 && d * m <= m * CLAMP
    ensures d >= CLAMP && m * (d + CLAMP) < d * m
  {
    if d < CLAMP {
      NegativeFactor(CLAMP - d, m);
    }
    assert m * (d + CLAMP) == d * m + m * CLAMP;
  }

  lemma NegativeFactor(x: real, m: real)
    requires x > 0.0 && m < 0.0
    ensures x * m < 0.0
  {
  }

  lemma WitnessLightToMid(s: Settings, ratio: real)
    requires CLAMP <= ratio && s.risk.mid * ratio < s.risk.light
    ensures !PicksAntitone(s)
  {
    var row := Row(PerModel(1.0, 1.0, 1.0), SOME_COSTS, PerModel(1.0, ratio, ratio * CLAMP));
    assert Predicted(row);
    assert Pick(row, s, 1.0, 0.0) == Ax31Light;
    assert Value(row, s, 1.0, 1.0, Ax31Light) < Value(row, s, 1.0, 1.0, Ax31);
    assert IsArgmax(row, s, 1.0, 1.0, Pick(row, s, 1.0, 1.0));
    assert Pick(row, s, 1.0, 1.0) != Ax31Light;
  }

  lemma LaterWins(q: real, wh: real, wm: real, wl: real)
    requires q > 0.0 && wh < wm && q * (wh - wl) < 1.0
    ensures 1.0 - q * wh > 1.0 - q * wm && 1.0 - q * wh > 0.0 - q * wl
  {
    assert q * wh < q * wm;
  }

  lemma MidRiskTooHigh(s: Settings)
    requires s.risk.high * CLAMP < s.risk.mid
    ensures !PicksAntitone(s)
  {
    var r := s.risk;
    var gap := r.high * CLAMP - r.light * 0.5;
    var q := if gap <= 0.0 then 1.0 else 0.5 / gap;
    if gap > 0.0 {
      assert q * gap == 0.5;
    }
    WitnessMidToHigh(s, q);
  }

  lemma WitnessMidToHigh(s: Settings, q: real)
    requires s.risk.high * CLAMP < s.risk.mid
    requires q > 0.0 && q * (s.risk.high * CLAMP - s.risk.light * 0.5) < 1.0
    ensures !PicksAntitone(s)
  {
    var r := s.risk;
    var row := Row(PerModel(0.0, 1.0, 1.0), SOME_COSTS, PerModel(0.5, 1.0, CLAMP));
    assert Predicted(row);
    assert Pick(row, s, 1.0, 0.0) == Ax31;
    assert Value(row, s, 1.0, q, Axk1Think) == 1.0 - q * (r.high * CLAMP);
    assert Value(row, s, 1.0, q, Ax31) == 1.0 - q * r.mid;
    assert Value(row, s, 1.0, q, Ax31Light) == 0.0 - q * (r.light * 0.5);
    LaterWins(q, r.high * CLAMP, r.mid, r.light * 0.5);
    hide Value;
    assert IsArgmax(row, s, 1.0, q, Pick(row, s, 1.0, q));
    assert Pick(row, s, 1.0, q) == Axk1Think;
  }

  /** The bisection's premise, a larger penalty never promotes a row, holds exactly under `SoundRisk`, a
      condition on the artifact that the loader does not check. */
  lemma AntitoneExactly(s: Settings)
    ensures PicksAntitone(s) <==> SoundRisk(s.risk)
  {
    if SoundRisk(s.risk) {
      forall row: Row, rankTotal: real, p: real, q: real
        | Predicted(row) && rankTotal >= row.rankCosts.light && 0.0 <= p <= q
        ensures Pick(row, s, rankTotal, q).Index() <= Pick(row, s, rankTotal, p).Index()
      {
        SoundRises(row, s);
        PickAntitone(row, s, rankTotal, p, q);
      }
    } else if s.risk.mid * CLAMP < s.risk.light {
      LightRiskTooHigh(s);
    } else if s.risk.mid < 0.0 {
      MidRiskNegative(s);
    } else {
      MidRiskTooHigh(s);
    }
  }

  // ---- the batch: cheaper assignments satisfy more -----------------------------------------------

  /** `a` promotes no row beyond where `b` does. */
  ghost predicate NoHigher(a: seq<Model>, b: seq<Model>) {
    |a| == |b| && forall i :: 0 <= i < |a| ==> a[i].Index() <= b[i].Index()
  }

  lemma SharesPositive(rows: seq<Row>)
    requires Priced(rows)
    ensures forall i :: 0 <= i < |rows| ==> LightTotal(rows) > 0.0 && rows[i].costs.light / LightTotal(rows) > 0.0
  {
    TotalsPositive(rows);
  }

  lemma CheaperSatisfiesMore(rows: seq<Row>, s: Settings, a: seq<Model>, b: seq<Model>)
    requires Priced(rows) && NoHigher(a, b) && |a| == |rows|
    requires Violates(rows, s, a)
    ensures Violates(rows, s, b)
  {
    hide Sum;
    TotalsPositive(rows);
    SharesPositive(rows);
    forall i | 0 <= i < |rows|
      ensures ChosenCosts(rows, a)[i] <= ChosenCosts(rows, b)[i]
      ensures HighCosts(rows, a)[i] <= HighCosts(rows, b)[i]
      ensures BoundTerms(rows, a)[i] <= BoundTerms(rows, b)[i]
    {
      assert a[i].Index() <= b[i].Index();
    }
    SumLe(ChosenCosts(rows, a), ChosenCosts(rows, b));
    SumLe(HighCosts(rows, a), HighCosts(rows, b));
    SumLe(BoundTerms(rows, a), BoundTerms(rows, b));
  }

  lemma ChoiceAntitone(rows: seq<Row>, s: Settings, p: real, q: real)
    requires Priced(rows) && AllRise(rows, s) && p <= q
    ensures NoHigher(Choice(rows, s, q), Choice(rows, s, p))
  {
    hide Pick;
    TotalsPositive(rows);
    forall i | 0 <= i < |rows|
      ensures Choice(rows, s, q)[i].Index() <= Choice(rows, s, p)[i].Index()
    {
      PickAntitone(rows[i], s, RankLightTotal(rows), p, q);
    }
  }

  lemma ViolatesAntitone(rows: seq<Row>, s: Settings)
    requires Priced(rows) && AllRise(rows, s)
    ensures Antitone(ViolatesAt(rows, s))
  {
    hide Choice, Violates;
    var v := ViolatesAt(rows, s);
    forall p, q | 0.0 <= p <= q && v(q)
      ensures v(p)
    {
      ChoiceAntitone(rows, s, p, q);
      CheaperSatisfiesMore(rows, s, Choice(rows, s, q), Choice(rows, s, p));
    }
  }

  /** The search is correct. It gives up, and routes everything to the light model, exactly when the
      penalty `2^40` still violates a constraint. Otherwise it returns the choice of some penalty
      that satisfies them, such that every larger one does too and either the penalty is 0 or a
      violating one lies below it within `2^-iterations` of `max(1, penalty)`. */
  lemma SearchCorrect(rows: seq<Row>, s: Settings, iterations: nat)
    requires Priced(rows) && AllRise(rows, s)
    ensures FallsBack(rows, s, iterations) <==> ViolatesAt(rows, s)(Pow2(40))
    ensures !FallsBack(rows, s, iterations) ==>
              var v, p := ViolatesAt(rows, s), Penalty(rows, s, iterations);
              && Allocation(rows, s, iterations) == Choice(rows, s, p)
              && (forall q :: q >= p ==> !v(q))
              && (p != 0.0 ==>
                    var low := FinalBracket(v, LIMIT, iterations).low;
                    && 0.0 <= low < p
                    && (forall q :: 0.0 <= q <= low ==> v(q))
                    && Scaled(p - low, iterations) <= Max(1.0, p))
  {
    hide Choice, Violates, Pow2, Halve, Widen, Scaled;
    var v := ViolatesAt(rows, s);
    ViolatesAntitone(rows, s);
    FailsExactlyAtLimit(v, LIMIT, iterations);
    if !FallsBack(rows, s, iterations) && v(0.0) {
      FinalBracketFacts(v, LIMIT, iterations);
    }
  }

  // ---- the constraints hold ---------------------------------------------------------------------

  /** The tier leaves room for the all-light plan. `parse_policy` and the artifact loader do not
      enforce this: any positive multiplier and any ratios are accepted. */
  predicate LeavesRoom(s: Settings) {
    var cap := 1.0 + (s.budgetMultiplier - 1.0) * s.safetyRatio;
    1.0 <= cap && 0.0 <= cap * s.highCapRatio && 0.0 <= (s.budgetMultiplier - 1.0) * s.shareRatio
  }

  lemma AllLightTotals(rows: seq<Row>)
    requires Priced(rows)
    ensures var light := AllLight(|rows|);
            && Total(rows, light) == LightTotal(rows)
            && HighTotal(rows, light) == 0.0
            && BoundExcess(rows, light) == 0.0
  {
    var light := AllLight(|rows|);
    TotalsPositive(rows);
    assert ChosenCosts(rows, light) == LightCosts(rows);
    SumScale(0.0, LightCosts(rows), HighCosts(rows, light));
    SumScale(0.0, LightCosts(rows), BoundTerms(rows, light));
  }

  lemma AllLightCheapest(sel: seq<Model>)
    ensures NoHigher(AllLight(|sel|), sel)
  {
  }

  lemma ScaledCap(l: real, x: real, y: real)
    requires l > 0.0
    ensures l > l * x <==> 1.0 > x
    ensures 0.0 > l * x * y <==> 0.0 > x * y
  {
    assert l * x * y == l * (x * y);
  }

  lemma AllLightFits(rows: seq<Row>, s: Settings)
    requires Priced(rows) && |rows| > 0
    ensures !Violates(rows, s, AllLight(|rows|)) <==> LeavesRoom(s)
  {
    hide Sum;
    var room := 1.0 + (s.budgetMultiplier - 1.0) * s.safetyRatio;
    TotalsPositive(rows);
    AllLightTotals(rows);
    assert Cap(rows, s) == LightTotal(rows) * room;
    ScaledCap(LightTotal(rows), room, s.highCapRatio);
  }

  /** The returned assignment meets the cap, the high-model cap and the share bound exactly when the
      tier leaves room for the all-light plan, and then only can any assignment meet them. No
      assumption on the risk multipliers is needed. */
  lemma ResultFeasibleExactly(rows: seq<Row>, s: Settings, iterations: nat, other: seq<Model>)
    requires Priced(rows) && |rows| > 0 && |other| == |rows|
    ensures !Violates(rows, s, Allocation(rows, s, iterations)) <==> LeavesRoom(s)
    ensures !Violates(rows, s, other) ==> LeavesRoom(s)
  {
    hide Violates, Choice;
    var result := Allocation(rows, s, iterations);
    AllLightFits(rows, s);
    AllLightCheapest(result);
    AllLightCheapest(other);
    if !LeavesRoom(s) {
      CheaperSatisfiesMore(rows, s, AllLight(|rows|), result);
      CheaperSatisfiesMore(rows, s, AllLight(|rows|), other);
    }
  }

  // ---- weak duality ------------------------------------------------------------------------------

  function ScoreTerms(rows: seq<Row>, sel: seq<Model>): seq<real>
    requires |sel| == |rows|
  {
    seq(|rows|, i requires 0 <= i < |rows| => rows[i].scores.At(sel[i]))
  }

  function WeightTerms(rows: seq<Row>, s: Settings, sel: seq<Model>): seq<real>
    requires Priced(rows) && |sel| == |rows|
  {
    TotalsPositive(rows);
    seq(|rows|, i requires 0 <= i < |rows| => Weight(rows[i], s, RankLightTotal(rows), sel[i]))
  }

  /** Total predicted score of an assignment. */
  function Score(rows: seq<Row>, sel: seq<Model>): real
    requires |sel| == |rows|
  {
    Sum(ScoreTerms(rows, sel))
  }

  /** Total risk-weighted, normalised ranking cost of an assignment. */
  function TotalWeight(rows: seq<Row>, s: Settings, sel: seq<Model>): real
    requires Priced(rows) && |sel| == |rows|
  {
    Sum(WeightTerms(rows, s, sel))
  }

  lemma ChoiceMaximisesLagrangian(rows: seq<Row>, s: Settings, p: real, other: seq<Model>)
    requires Priced(rows) && |other| == |rows|
    ensures var sel := Choice(rows, s, p);
            Score(rows, other) - p * TotalWeight(rows, s, other) <= Score(rows, sel) - p * TotalWeight(rows, s, sel)
  {
    hide Sum, Value, Weight, Pick;
    TotalsPositive(rows);
    var sel, total := Choice(rows, s, p), RankLightTotal(rows);
    var mine := seq(|rows|, i requires 0 <= i < |rows| => Value(rows[i], s, total, p, sel[i]));
    var theirs := seq(|rows|, i requires 0 <= i < |rows| => Value(rows[i], s, total, p, other[i]));
    forall i | 0 <= i < |rows|
      ensures theirs[i] <= mine[i]
      ensures mine[i] == 1.0 * ScoreTerms(rows, sel)[i] + (0.0 - p) * WeightTerms(rows, s, sel)[i]
      ensures theirs[i] == 1.0 * ScoreTerms(rows, other)[i] + (0.0 - p) * WeightTerms(rows, s, other)[i]
    {
      assert IsArgmax(rows[i], s, total, p, Pick(rows[i], s, total, p));
      ValueIsPenalised(rows[i], s, total, p, sel[i]);
      ValueIsPenalised(rows[i], s, total, p, other[i]);
    }
    SumLe(theirs, mine);
    SumLinear(1.0, ScoreTerms(rows, sel), 0.0 - p, WeightTerms(rows, s, sel), mine);
    SumLinear(1.0, ScoreTerms(rows, other), 0.0 - p, WeightTerms(rows, s, other), theirs);
  }

  /** Lagrangian weak duality for the returned assignment: every assignment of the batch scores at
      most the result's score plus the final penalty times its extra weight. In particular no
      assignment of no greater weight scores higher. */
  lemma WeakDuality(rows: seq<Row>, s: Settings, iterations: nat, other: seq<Model>)
    requires Priced(rows) && |other| == |rows|
    requires !FallsBack(rows, s, iterations)
    ensures var sel, p := Allocation(rows, s, iterations), Penalty(rows, s, iterations);
            && 0.0 <= p
            && Score(rows, other) <= Score(rows, sel) + p * (TotalWeight(rows, s, other) - TotalWeight(rows, s, sel))
            && (TotalWeight(rows, s, other) <= TotalWeight(rows, s, sel) ==> Score(rows, other) <= Score(rows, sel))
  {
    hide Score, TotalWeight, Choice, Violates, Pow2, Halve, Widen;
    var v, p := ViolatesAt(rows, s), Penalty(rows, s, iterations);
    if v(0.0) {
      FinalBracketFacts(v, LIMIT, iterations);
    }
    ChoiceMaximisesLagrangian(rows, s, p, other);
  }
}
