/** The router's structural budget guarantee, carried through to the scorer's verdict on the batch. */
module StructuralBudget {
  import opened RealSums
  import opened Models
  import opened PenaltyBisection
  import opened TeamAllocator
  import opened AllocatorTheorems
  import opened DecimalContext
  import opened Scoring

  /** The values of the rows routed to `m`, zero elsewhere. */
  function Masked(values: seq<real>, sel: seq<Model>, m: Model): seq<real>
    requires |values| == |sel|
  {
    seq(|values|, i requires 0 <= i < |values| => if sel[i] == m then values[i] else 0.0)
  }

  function GroupSum(values: seq<real>, sel: seq<Model>, m: Model): real
    requires |values| == |sel|
  {
    Sum(Masked(values, sel, m))
  }

  function PredictedShares(rows: seq<Row>): (shares: seq<real>)
    requires Priced(rows)
    ensures |shares| == |rows|
  {
    TotalsPositive(rows);
    seq(|rows|, i requires 0 <= i < |rows| => rows[i].costs.light / LightTotal(rows))
  }

  lemma SumSplitsByModel(values: seq<real>, sel: seq<Model>)
    requires |values| == |sel|
    ensures Sum(values) == GroupSum(values, sel, Ax31Light) + GroupSum(values, sel, Ax31)
              + GroupSum(values, sel, Axk1Think)
  {
    hide Sum;
    var light, mid, high := Masked(values, sel, Ax31Light), Masked(values, sel, Ax31), Masked(values, sel, Axk1Think);
    forall i | 0 <= i < |values|
      ensures values[i] == light[i] + mid[i] + high[i]
    {
      assert sel[i] == Ax31Light || sel[i] == Ax31 || sel[i] == Axk1Think;
    }
    SumOfThree(light, mid, high, values);
  }

  lemma {:induction false} SumOfThree(xs: seq<real>, ys: seq<real>, zs: seq<real>, total: seq<real>)
    requires |xs| == |ys| == |zs| == |total|
    requires forall i :: 0 <= i < |total| ==> total[i] == xs[i] + ys[i] + zs[i]
    ensures Sum(total) == Sum(xs) + Sum(ys) + Sum(zs)
  {
    var n := |total| - 1;
    if n >= 0 {
      SumOfThree(xs[..n], ys[..n], zs[..n], total[..n]);
    }
  }

  /** The identity the bound rests on: the selected cost is the light cost plus, for each promoted
      group, that group's cost beyond its light cost. */
  lemma CostDecomposes(light: seq<real>, chosen: seq<real>, sel: seq<Model>)
    requires |light| == |chosen| == |sel|
    requires forall i :: 0 <= i < |sel| && sel[i] == Ax31Light ==> chosen[i] == light[i]
    ensures Sum(chosen) == Sum(light) + (GroupSum(chosen, sel, Ax31) - GroupSum(light, sel, Ax31))
                                      + (GroupSum(chosen, sel, Axk1Think) - GroupSum(light, sel, Axk1Think))
  {
    hide Sum;
    SumSplitsByModel(light, sel);
    SumSplitsByModel(chosen, sel);
    assert Masked(chosen, sel, Ax31Light) == Masked(light, sel, Ax31Light);
  }

  lemma ExcessFromShares(rows: seq<Row>, sel: seq<Model>)
    requires Priced(rows) && |sel| == |rows|
    ensures BoundExcess(rows, sel)
         == 2.0 * GroupSum(PredictedShares(rows), sel, Ax31) + 32.0 * GroupSum(PredictedShares(rows), sel, Axk1Think)
  {
    hide Sum, LightTotal;
    var shares := PredictedShares(rows);
    SumLinear(2.0, Masked(shares, sel, Ax31), 32.0, Masked(shares, sel, Axk1Think), BoundTerms(rows, sel));
  }

  /** The batch's realised cost multiple of each promoted group stays under the assumed 3 and 33. */
  ghost predicate MultiplesBounded(light: seq<real>, chosen: seq<real>, sel: seq<Model>)
    requires |light| == |chosen| == |sel|
  {
    && GroupSum(chosen, sel, Ax31) <= 3.0 * GroupSum(light, sel, Ax31)
    && GroupSum(chosen, sel, Axk1Think) <= 33.0 * GroupSum(light, sel, Axk1Think)
  }

  /** The realised share of the light cost each promoted group holds exceeds the predicted share by a
      factor of at most `1 / shareRatio`. */
  ghost predicate SharesPredicted(rows: seq<Row>, s: Settings, light: seq<real>, sel: seq<Model>)
    requires Priced(rows) && |light| == |sel| == |rows|
  {
    && s.shareRatio * GroupSum(light, sel, Ax31) <= GroupSum(PredictedShares(rows), sel, Ax31) * Sum(light)
    && s.shareRatio * GroupSum(light, sel, Axk1Think) <= GroupSum(PredictedShares(rows), sel, Axk1Think) * Sum(light)
  }

  lemma NothingPromoted(rows: seq<Row>, sel: seq<Model>, i: nat)
    requires Priced(rows) && |sel| == |rows| && i < |rows|
    requires BoundExcess(rows, sel) <= 0.0
    ensures sel[i] == Ax31Light
  {
    hide Sum;
    TotalsPositive(rows);
    SharesPositive(rows);
    SumDominates(BoundTerms(rows, sel), i);
  }

  /** The arithmetic of the guarantee: `k` is the share ratio, `b` the budget multiplier, `u` and `v`
      the realised light costs of the two promoted groups, `p` and `q` their predicted shares. */
  lemma BudgetArithmetic(total: real, l: real, u: real, v: real, p: real, q: real, k: real, b: real)
    requires l > 0.0 && k > 0.0
    requires total <= l + 2.0 * u + 32.0 * v
    requires k * u <= p * l && k * v <= q * l
    requires 2.0 * p + 32.0 * q <= (b - 1.0) * k
    ensures total <= l * b
  {
    var x := 2.0 * u + 32.0 * v;
    var y := 2.0 * p + 32.0 * q;
    assert k * x == 2.0 * (k * u) + 32.0 * (k * v);
    assert y * l == 2.0 * (p * l) + 32.0 * (q * l);
    assert y * l <= (b - 1.0) * k * l;
    assert (b - 1.0) * k * l == k * ((b - 1.0) * l);
    assert k * x <= k * ((b - 1.0) * l);
    CancelPositive(k, x, (b - 1.0) * l);
    assert l * b == l + (b - 1.0) * l;
  }

  lemma CancelPositive(k: real, x: real, y: real)
    requires k > 0.0 && k * x <= k * y
    ensures x <= y
  {
    assert k * (y - x) >= 0.0;
  }

  lemma NoRoom(b: real, k: real)
    requires k == 0.0
    ensures (b - 1.0) * k == 0.0
  {
  }

  lemma AtLeastOnce(x: real, b: real)
    requires x > 0.0 && b >= 1.0
    ensures x <= x * b
  {
  }

  /** Without room for any excess everything stays on the light model. */
  lemma NothingSpent(rows: seq<Row>, sel: seq<Model>, light: seq<real>, chosen: seq<real>)
    requires Priced(rows) && |light| == |chosen| == |sel| == |rows|
    requires BoundExcess(rows, sel) <= 0.0
    requires forall i :: 0 <= i < |sel| && sel[i] == Ax31Light ==> chosen[i] == light[i]
    ensures chosen == light
  {
    hide BoundExcess;
    forall i | 0 <= i < |rows|
      ensures chosen[i] == light[i]
    {
      NothingPromoted(rows, sel, i);
    }
  }

  /** Realised costs of any assignment that meets the share bound fit the tier's multiplier. */
  lemma ShareBoundKeepsBudget(rows: seq<Row>, s: Settings, sel: seq<Model>, light: seq<real>, chosen: seq<real>)
    requires Priced(rows) && |light| == |chosen| == |sel| == |rows|
    requires s.budgetMultiplier >= 1.0 && s.shareRatio >= 0.0
    requires BoundExcess(rows, sel) <= (s.budgetMultiplier - 1.0) * s.shareRatio
    requires forall i :: 0 <= i < |sel| && sel[i] == Ax31Light ==> chosen[i] == light[i]
    requires MultiplesBounded(light, chosen, sel) && SharesPredicted(rows, s, light, sel)
    requires Sum(light) > 0.0
    ensures Sum(chosen) <= Sum(light) * s.budgetMultiplier
  {
    hide Sum, BoundExcess, GroupSum, PredictedShares, MultiplesBounded, SharesPredicted;
    if s.shareRatio == 0.0 {
      NoRoom(s.budgetMultiplier, s.shareRatio);
      NothingSpent(rows, sel, light, chosen);
      AtLeastOnce(Sum(light), s.budgetMultiplier);
    } else {
      SomeRoomKeepsBudget(rows, s, sel, light, chosen);
    }
  }

  lemma SomeRoomKeepsBudget(rows: seq<Row>, s: Settings, sel: seq<Model>, light: seq<real>, chosen: seq<real>)
    requires Priced(rows) && |light| == |chosen| == |sel| == |rows|
    requires s.shareRatio > 0.0 && BoundExcess(rows, sel) <= (s.budgetMultiplier - 1.0) * s.shareRatio
    requires forall i :: 0 <= i < |sel| && sel[i] == Ax31Light ==> chosen[i] == light[i]
    requires MultiplesBounded(light, chosen, sel) && SharesPredicted(rows, s, light, sel)
    requires Sum(light) > 0.0
    ensures Sum(chosen) <= Sum(light) * s.budgetMultiplier
  {
    hide Sum, BoundExcess, GroupSum, PredictedShares, Priced;
    CostDecomposes(light, chosen, sel);
    ExcessFromShares(rows, sel);
    var shares := PredictedShares(rows);
    BudgetArithmetic(Sum(chosen), Sum(light), GroupSum(light, sel, Ax31), GroupSum(light, sel, Axk1Think),
                     GroupSum(shares, sel, Ax31), GroupSum(shares, sel, Axk1Think), s.shareRatio, s.budgetMultiplier);
  }

  // ---- through to the scorer --------------------------------------------------------------------------

  ghost predicate Distinct(ids: seq<string>) {
    forall i, j :: 0 <= i < j < |ids| ==> ids[i] != ids[j]
  }

  /** The submission's decisions, one for each input episode. */
  function Decisions(ids: seq<string>, sel: seq<Model>): (d: map<string, Model>)
    requires Distinct(ids) && |sel| == |ids|
    ensures Covers(ids, d)
    ensures forall i :: 0 <= i < |ids| ==> d[ids[i]] == sel[i]
  {
    if |ids| == 0 then map[]
    else
      var n := |ids| - 1;
      assert ids == ids[..n] + [ids[n]];
      Decisions(ids[..n], sel[..n])[ids[n] := sel[n]]
  }

  /** What the guarantee asks of a batch, of the tier and of the realised costs: the assumed margins hold. */
  ghost predicate Margins(ids: seq<string>, rows: seq<Row>, s: Settings, outcomes: Outcomes, policy: Policy) {
    && Distinct(ids) && |rows| == |ids| && Priced(rows) && Complete(ids, outcomes)
    && s.budgetMultiplier >= 1.0 && s.shareRatio >= 0.0
    && Sum(BaselineCosts(ids, outcomes, policy)) > 0.0
    && var sel := Allocation(rows, s, 40);
       var light := BaselineCosts(ids, outcomes, policy);
       var chosen := SelectedCosts(ids, Decisions(ids, sel), outcomes, policy);
       MultiplesBounded(light, chosen, sel) && SharesPredicted(rows, s, light, sel)
  }

  /** The router's submission. */
  function Submitted(ids: seq<string>, rows: seq<Row>, s: Settings): map<string, Model>
    requires Distinct(ids) && |rows| == |ids| && Priced(rows)
  {
    Decisions(ids, Allocation(rows, s, 40))
  }

  /** The verdict of the source's scoring on the router's submission. */
  ghost predicate Passes(ids: seq<string>, rows: seq<Row>, s: Settings, outcomes: Outcomes, policy: Policy,
                         round: real -> real)
    requires Margins(ids, rows, s, outcomes, policy)
  {
    var result := RoundedResult(ids, Submitted(ids, rows, s), outcomes, policy, s.budgetMultiplier, round);
    result.Scored? && result.report.budgetPassed
  }

  /** Within the margins the exact cost of the router's submission keeps the budget: equality included, and
      whatever the predictions of individual episodes are worth. */
  lemma RouterKeepsBudget(ids: seq<string>, rows: seq<Row>, s: Settings, outcomes: Outcomes, policy: Policy)
    requires Margins(ids, rows, s, outcomes, policy) && policy.lightModel == Ax31Light
    ensures Sum(SelectedCosts(ids, Submitted(ids, rows, s), outcomes, policy))
         <= Sum(BaselineCosts(ids, outcomes, policy)) * s.budgetMultiplier
  {
    hide Sum, Allocation, BaselineCosts, SelectedCosts, Decisions, MultiplesBounded, SharesPredicted, Priced, Complete,
         Distinct, BoundExcess;
    var sel := Allocation(rows, s, 40);
    var light := BaselineCosts(ids, outcomes, policy);
    var chosen := SelectedCosts(ids, Decisions(ids, sel), outcomes, policy);
    BoundHolds(rows, s);
    LightRowsCostTheSame(ids, sel, outcomes, policy);
    ShareBoundKeepsBudget(rows, s, sel, light, chosen);
  }

  /** Within the margins the scorer's rounded computation passes the router's submission. */
  lemma RouterPassesBudget(ids: seq<string>, rows: seq<Row>, s: Settings, outcomes: Outcomes, policy: Policy,
                           round: real -> real)
    requires Margins(ids, rows, s, outcomes, policy) && policy.lightModel == Ax31Light
    requires Bounded(ids, outcomes, policy, s.budgetMultiplier, round)
    ensures Passes(ids, rows, s, outcomes, policy, round)
  {
    hide Sum, Allocation, BaselineCosts, SelectedCosts, Decisions, MultiplesBounded, SharesPredicted, Priced, Bounded,
         RoundedResult, ExactResult;
    var decisions := Submitted(ids, rows, s);
    RouterKeepsBudget(ids, rows, s, outcomes, policy);
    RoundedIsExact(ids, decisions, outcomes, policy, s.budgetMultiplier, round);
    PassesExactly(ids, decisions, outcomes, policy, s.budgetMultiplier, round);
  }

  /** The ranges that `parse_outcomes` and `parse_policy` check. */
  ghost predicate Received(outcomes: Outcomes, policy: Policy) {
    && (forall key :: key in outcomes ==>
          var o := outcomes[key]; 0.0 <= o.score <= 1.0 && o.inputTokens >= 1 && o.generations >= 1)
    && 0.0 < policy.warningRatio <= 1.0
  }

  /** The guarantee for policies with a given light model, over every received batch within the margins. */
  ghost predicate Guaranteed(light: Model, round: real -> real) {
    forall ids: seq<string>, rows: seq<Row>, s: Settings, outcomes: Outcomes, policy: Policy ::
      policy.lightModel == light && Received(outcomes, policy) && Margins(ids, rows, s, outcomes, policy)
      && Bounded(ids, outcomes, policy, s.budgetMultiplier, round) ==>
        Passes(ids, rows, s, outcomes, policy, round)
  }

  /** It holds exactly for the model that the router itself takes for the light one. */
  lemma GuaranteedExactly(light: Model, round: real -> real)
    requires ExactContext(round)
    ensures Guaranteed(light, round) <==> light == Ax31Light
  {
    hide Received, Margins, Bounded, Passes, Submitted, ExactContext;
    if light == Ax31Light {
      forall ids: seq<string>, rows: seq<Row>, s: Settings, outcomes: Outcomes, policy: Policy
        | policy.lightModel == light && Received(outcomes, policy) && Margins(ids, rows, s, outcomes, policy)
          && Bounded(ids, outcomes, policy, s.budgetMultiplier, round)
        ensures Passes(ids, rows, s, outcomes, policy, round)
      {
        RouterPassesBudget(ids, rows, s, outcomes, policy, round);
      }
    } else {
      var ids, rows, s, outcomes, policy := DearLight(light, round);
    }
  }

  lemma LightRowsCostTheSame(ids: seq<string>, sel: seq<Model>, outcomes: Outcomes, policy: Policy)
    requires Distinct(ids) && |sel| == |ids| && Complete(ids, outcomes) && policy.lightModel == Ax31Light
    ensures var light := BaselineCosts(ids, outcomes, policy);
            var chosen := SelectedCosts(ids, Decisions(ids, sel), outcomes, policy);
            && |light| == |chosen| == |ids|
            && forall i :: 0 <= i < |sel| && sel[i] == Ax31Light ==> chosen[i] == light[i]
  {
  }

  lemma BoundHolds(rows: seq<Row>, s: Settings)
    requires Priced(rows) && s.budgetMultiplier >= 1.0 && s.shareRatio >= 0.0
    ensures BoundExcess(rows, Allocation(rows, s, 40)) <= (s.budgetMultiplier - 1.0) * s.shareRatio
  {
    hide BoundExcess, Choice, FinalPenalty;
    AllLightTotals(rows);
    assert 0.0 <= (s.budgetMultiplier - 1.0) * s.shareRatio;
  }

  // ---- the guarantee fails where the policy's light model is another ----------------------------------

  const WITNESS_ID: seq<string> := ["e"]
  const WITNESS_OUTCOME: Outcome := Outcome(0.0, 1, 0, 1)

  const WITNESS_OUTCOMES: Outcomes :=
    map[("e", Ax31Light) := WITNESS_OUTCOME, ("e", Ax31) := WITNESS_OUTCOME, ("e", Axk1Think) := WITNESS_OUTCOME]

  const WITNESS_ROWS: seq<Row> :=
    [Row(PerModel(0.0, 0.0, 0.0), PerModel(1.0, 2.0, 3.0), PerModel(1.0, 2.0, 3.0))]

  const WITNESS_SETTINGS: Settings := Settings(1.0, 1.0, PerModel(1.0, 1.0, 1.0), 1.0, 0.0)

  /** The router's light model costs twice what the policy's light model costs. */
  function WitnessPolicy(light: Model): Policy {
    Policy(light, PerModel(Rates(2.0, 0.0, 0.0), Rates(1.0, 0.0, 0.0), Rates(1.0, 0.0, 0.0)), 1.0)
  }

  /** With nothing to spend the router leaves the one episode on its light model. */
  lemma WitnessSelection()
    ensures Priced(WITNESS_ROWS) && Allocation(WITNESS_ROWS, WITNESS_SETTINGS, 40) == [Ax31Light]
  {
    hide Allocation, BoundExcess;
    assert StrictlyIncreasing(WITNESS_ROWS[0].costs) && StrictlyIncreasing(WITNESS_ROWS[0].rankCosts);
    BoundHolds(WITNESS_ROWS, WITNESS_SETTINGS);
    var sel := Allocation(WITNESS_ROWS, WITNESS_SETTINGS, 40);
    NothingPromoted(WITNESS_ROWS, sel, 0);
    assert sel == [sel[0]];
  }

  lemma WitnessCosts(light: Model)
    requires light != Ax31Light
    ensures Distinct(WITNESS_ID) && Complete(WITNESS_ID, WITNESS_OUTCOMES)
    ensures BaselineCosts(WITNESS_ID, WITNESS_OUTCOMES, WitnessPolicy(light)) == [1.0]
    ensures var decisions := Decisions(WITNESS_ID, [Ax31Light]);
            SelectedCosts(WITNESS_ID, decisions, WITNESS_OUTCOMES, WitnessPolicy(light)) == [2.0]
  {
    assert Complete(WITNESS_ID, WITNESS_OUTCOMES) by {
      forall i, m: Model | 0 <= i < 1
        ensures (WITNESS_ID[i], m) in WITNESS_OUTCOMES
      {
        assert m == Ax31Light || m == Ax31 || m == Axk1Think;
      }
    }
    assert light == Ax31 || light == Axk1Think;
    assert WitnessPolicy(light).rates.At(light) == Rates(1.0, 0.0, 0.0);
    FlatCost(1.0);
    FlatCost(2.0);
  }

  lemma FlatCost(c: real)
    ensures ExactCost(WITNESS_OUTCOME, Rates(c, 0.0, 0.0)) == c
  {
  }

  lemma SmallAccepted(n: nat)
    requires n <= 2
    ensures Accepted(n as real)
  {
    MultipleNat(n, E40);
  }

  lemma WitnessBounded(light: Model, round: real -> real)
    requires ExactContext(round)
    ensures Bounded(WITNESS_ID, WITNESS_OUTCOMES, WitnessPolicy(light), 1.0, round)
  {
    hide Accepted, ExactContext;
    SmallAccepted(0);
    SmallAccepted(1);
    SmallAccepted(2);
  }

  lemma SumOfOne(x: real)
    ensures Sum([x]) == x
  {
    assert [x][..0] == [];
  }

  lemma NoGroup(values: seq<real>, m: Model)
    requires |values| == 1 && m != Ax31Light
    ensures GroupSum(values, [Ax31Light], m) == 0.0
  {
    assert Masked(values, [Ax31Light], m) == [0.0];
    SumOfOne(0.0);
  }

  /** A received batch within the margins that the scorer finds over budget. */
  lemma DearLight(light: Model, round: real -> real)
      returns (ids: seq<string>, rows: seq<Row>, s: Settings, outcomes: Outcomes, policy: Policy)
    requires ExactContext(round) && light != Ax31Light
    ensures policy.lightModel == light && Received(outcomes, policy) && Margins(ids, rows, s, outcomes, policy)
    ensures Bounded(ids, outcomes, policy, s.budgetMultiplier, round)
    ensures !Passes(ids, rows, s, outcomes, policy, round)
  {
    hide Allocation, Bounded, ExactContext, RoundedResult, ExactResult, BaselineCosts, SelectedCosts, Decisions, Priced,
         GroupSum, PredictedShares, Complete, Distinct;
    ids, rows, s := WITNESS_ID, WITNESS_ROWS, WITNESS_SETTINGS;
    outcomes, policy := WITNESS_OUTCOMES, WitnessPolicy(light);
    WitnessSelection();
    WitnessCosts(light);
    WitnessBounded(light, round);
    SumOfOne(1.0);
    SumOfOne(2.0);
    NoGroup([1.0], Ax31);
    NoGroup([1.0], Axk1Think);
    NoGroup([2.0], Ax31);
    NoGroup([2.0], Axk1Think);
    NoGroup(PredictedShares(rows), Ax31);
    NoGroup(PredictedShares(rows), Axk1Think);
    RoundedIsExact(ids, Submitted(ids, rows, s), outcomes, policy, s.budgetMultiplier, round);
    PassesExactly(ids, Submitted(ids, rows, s), outcomes, policy, s.budgetMultiplier, round);
  }
}
