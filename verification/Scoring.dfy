/** Budget and quality scoring of one tier, with every `Decimal` operation rounded by the context. */
module Scoring {
  import opened Models
  import opened RealSums
  import opened DecimalContext

  datatype Outcome = Outcome(score: real, inputTokens: nat, outputTokens: nat, generations: nat)

  datatype Rates = Rates(fixedCost: real, inputTokenRate: real, outputTokenRate: real)

  datatype Policy = Policy(lightModel: Model, rates: PerModel<Rates>, warningRatio: real)

  type Outcomes = map<(string, Model), Outcome>

  datatype Report = Report(
    lightBaselineCost: real,
    totalCost: real,
    budgetLimit: real,
    budgetRatio: real,
    budgetPassed: bool,
    nearBudget: bool,
    qualityPointsTotal: real,
    qualityScore: real,
    tierPointsTotal: real,
    tierScore: real)

  datatype Scored = Scored(report: Report) | DecisionRangeError | BaselineError

  const TOKEN_UNIT: real := 1000000.0

  /** Every episode has an outcome for every model, as the outcome index checks. */
  ghost predicate Complete(ids: seq<string>, outcomes: Outcomes) {
    forall i, m: Model :: 0 <= i < |ids| ==> (ids[i], m) in outcomes
  }

  /** Every episode has a decision and every decision names an episode, as the decision index checks. */
  ghost predicate Covers(ids: seq<string>, decisions: map<string, Model>) {
    decisions.Keys == set id | id in ids
  }

  // ---- exact meaning --------------------------------------------------------------------------------

  function TokenProduct(tokens: nat, rate: real): real {
    tokens as real * rate
  }

  function TokenTerm(tokens: nat, rate: real): real {
    TokenProduct(tokens, rate) / TOKEN_UNIT
  }

  function ExactCost(o: Outcome, r: Rates): real {
    r.fixedCost + TokenTerm(o.inputTokens, r.inputTokenRate) + TokenTerm(o.outputTokens, r.outputTokenRate)
  }

  /** What the cost is: the fixed cost without tokens, additive in either count, and a million more input or
      output tokens cost exactly the input or the output rate more. */
  lemma CostLaws(o: Outcome, r: Rates, a: nat, b: nat)
    ensures ExactCost(o.(inputTokens := 0, outputTokens := 0), r) == r.fixedCost
    ensures ExactCost(o.(inputTokens := a + 1_000_000), r) == ExactCost(o.(inputTokens := a), r) + r.inputTokenRate
    ensures ExactCost(o.(outputTokens := a + 1_000_000), r) == ExactCost(o.(outputTokens := a), r) + r.outputTokenRate
    ensures ExactCost(o.(inputTokens := a + b), r) - ExactCost(o.(inputTokens := a), r)
         == ExactCost(o.(inputTokens := b), r) - ExactCost(o.(inputTokens := 0), r)
    ensures ExactCost(o.(outputTokens := a + b), r) - ExactCost(o.(outputTokens := a), r)
         == ExactCost(o.(outputTokens := b), r) - ExactCost(o.(outputTokens := 0), r)
  {
    hide TokenProduct;
    TermAdds(a, b, r.inputTokenRate);
    TermAdds(a, b, r.outputTokenRate);
    TermAdds(a, 1_000_000, r.inputTokenRate);
    TermAdds(a, 1_000_000, r.outputTokenRate);
  }

  lemma TermAdds(a: nat, b: nat, rate: real)
    ensures TokenTerm(a + b, rate) == TokenTerm(a, rate) + TokenTerm(b, rate)
    ensures TokenTerm(0, rate) == 0.0 && TokenTerm(1_000_000, rate) == rate
  {
    assert TokenProduct(a + b, rate) == TokenProduct(a, rate) + TokenProduct(b, rate) by {
      assert (a + b) as real == a as real + b as real;
      Distribute(rate, a as real, b as real);
    }
  }

  function EpisodeCost(id: string, m: Model, outcomes: Outcomes, policy: Policy): real
    requires (id, m) in outcomes
  {
    ExactCost(outcomes[(id, m)], policy.rates.At(m))
  }

  function SelectedCosts(ids: seq<string>, decisions: map<string, Model>, outcomes: Outcomes,
                         policy: Policy): (r: seq<real>)
    requires Complete(ids, outcomes)
    requires Covers(ids, decisions)
    ensures |r| == |ids|
  {
    seq(|ids|, i requires 0 <= i < |ids| => EpisodeCost(ids[i], decisions[ids[i]], outcomes, policy))
  }

  function BaselineCosts(ids: seq<string>, outcomes: Outcomes, policy: Policy): (r: seq<real>)
    requires Complete(ids, outcomes)
    ensures |r| == |ids|
  {
    seq(|ids|, i requires 0 <= i < |ids| => EpisodeCost(ids[i], policy.lightModel, outcomes, policy))
  }

  function SelectedScores(ids: seq<string>, decisions: map<string, Model>, outcomes: Outcomes): (r: seq<real>)
    requires Complete(ids, outcomes)
    requires Covers(ids, decisions)
    ensures |r| == |ids|
  {
    seq(|ids|, i requires 0 <= i < |ids| => outcomes[(ids[i], decisions[ids[i]])].score)
  }

  // ---- the accepted inputs ------------------------------------------------------------------------

  /** A value `_decimal` can return: at most 40 digits, at most 30 of them after the point. */
  ghost predicate Accepted(v: real) {
    exists fraction: nat :: fraction <= 30 && Multiple(v, fraction, E40)
  }

  ghost predicate AcceptedRates(r: Rates) {
    Accepted(r.fixedCost) && Accepted(r.inputTokenRate) && Accepted(r.outputTokenRate)
  }

  ghost predicate AcceptedPolicy(policy: Policy) {
    && AcceptedRates(policy.rates.light) && AcceptedRates(policy.rates.mid) && AcceptedRates(policy.rates.high)
    && Accepted(policy.warningRatio)
  }

  /** Token counts up to `10^20` each. */
  ghost predicate AcceptedOutcomes(outcomes: Outcomes) {
    forall key :: key in outcomes ==>
      outcomes[key].inputTokens <= E20 && outcomes[key].outputTokens <= E20 && Accepted(outcomes[key].score)
  }

  // ---- no cost operation rounds ---------------------------------------------------------------------

  /** An accepted value written with 36 decimal places. */
  lemma AcceptedAt36(v: real)
    requires Accepted(v)
    ensures Multiple(v, 36, E90)
  {
    hide Multiple, Pow10;
    var fraction: nat :| fraction <= 30 && Multiple(v, fraction, E40);
    MultipleRefine(v, fraction, 30 - fraction, E40);
    MultipleRefine(v, 30, 6, E40 * Pow10(30 - fraction));
    Pow10Small(30 - fraction);
    NatProductOrder(E40, E40, Pow10(30 - fraction), E30);
    MultipleWiden(v, 36, E40 * Pow10(30 - fraction) * Pow10(6), E90);
  }

  lemma ProductFits(tokens: nat, rate: real, scale: nat)
    requires tokens <= E20 && Multiple(rate, scale, E40)
    ensures Multiple(TokenProduct(tokens, rate), scale, E20 * E40)
  {
    hide Multiple;
    var t := tokens as real;
    MultipleNat(tokens, E20);
    MultipleMul(t, rate, 0, scale, E20, E40, E20 * E40);
    assert TokenProduct(tokens, rate) == t * rate;
  }

  /** A product of tokens and rate, and its quotient by the token unit, both fit. */
  lemma TokenTermFits(tokens: nat, rate: real) returns (scale: nat)
    requires tokens <= E20 && Accepted(rate)
    ensures Multiple(TokenProduct(tokens, rate), scale, E20 * E40)
    ensures Multiple(TokenTerm(tokens, rate), 36, E90)
  {
    hide Multiple, Pow10, TokenProduct;
    scale :| scale <= 30 && Multiple(rate, scale, E40);
    var product := TokenProduct(tokens, rate);
    Pow10Small(30 - scale);
    ProductFits(tokens, rate, scale);
    MultipleShift(product, scale, 6, E20 * E40);
    MultipleRefine(product / TOKEN_UNIT, scale + 6, 30 - scale, E20 * E40);
    NatProductOrder(E20 * E40, E20 * E40, Pow10(30 - scale), E30);
    MultipleWiden(product / TOKEN_UNIT, 36, E20 * E40 * Pow10(30 - scale), E90);
  }

  /** `_cost` under the context. */
  function RoundedCost(o: Outcome, r: Rates, round: real -> real): real {
    var inputTerm := round(round(TokenProduct(o.inputTokens, r.inputTokenRate)) / TOKEN_UNIT);
    var outputTerm := round(round(TokenProduct(o.outputTokens, r.outputTokenRate)) / TOKEN_UNIT);
    round(round(r.fixedCost + inputTerm) + outputTerm)
  }

  lemma Unrounded(round: real -> real, v: real, scale: nat, bound: nat)
    requires ExactContext(round) && Multiple(v, scale, bound) && bound < E160
    ensures round(v) == v
  {
    hide Multiple;
  }

  lemma CostIsExact(o: Outcome, r: Rates, round: real -> real)
    requires ExactContext(round) && AcceptedRates(r)
    requires o.inputTokens <= E20 && o.outputTokens <= E20
    ensures RoundedCost(o, r, round) == ExactCost(o, r)
    ensures Multiple(ExactCost(o, r), 36, E91)
  {
    hide Multiple, Pow10, ExactContext, TokenProduct;
    var inputProduct := TokenProduct(o.inputTokens, r.inputTokenRate);
    var outputProduct := TokenProduct(o.outputTokens, r.outputTokenRate);
    var inputTerm := TokenTerm(o.inputTokens, r.inputTokenRate);
    var outputTerm := TokenTerm(o.outputTokens, r.outputTokenRate);
    var i := TokenTermFits(o.inputTokens, r.inputTokenRate);
    var j := TokenTermFits(o.outputTokens, r.outputTokenRate);
    AcceptedAt36(r.fixedCost);
    MultipleAdd(r.fixedCost, inputTerm, 36, E90, E90);
    MultipleAdd(r.fixedCost + inputTerm, outputTerm, 36, 2 * E90, E90);
    MultipleWiden(r.fixedCost + inputTerm + outputTerm, 36, 3 * E90, E91);
    Unrounded(round, inputProduct, i, E20 * E40);
    Unrounded(round, outputProduct, j, E20 * E40);
    Unrounded(round, inputTerm, 36, E90);
    Unrounded(round, outputTerm, 36, E90);
    Unrounded(round, r.fixedCost + inputTerm, 36, 2 * E90);
    Unrounded(round, r.fixedCost + inputTerm + outputTerm, 36, E91);
  }

  lemma RatesAccepted(policy: Policy, m: Model)
    requires AcceptedPolicy(policy)
    ensures AcceptedRates(policy.rates.At(m))
  {
    hide AcceptedRates;
  }

  /** Adding one more value to a running total of `n` does not round. */
  lemma RunningTotalExact(total: real, value: real, n: nat, round: real -> real)
    requires ExactContext(round) && n < E15
    requires Multiple(total, 36, n * E91) && Multiple(value, 36, E91)
    ensures round(total + value) == total + value
    ensures Multiple(total + value, 36, (n + 1) * E91)
  {
    hide Multiple, Pow10, ExactContext;
    MultipleAdd(total, value, 36, n * E91, E91);
    Unrounded(round, total + value, 36, (n + 1) * E91);
  }

  /** The budget limit of a baseline over at most `10^15` episodes does not round. */
  lemma LimitExact(baseline: real, multiplier: real, n: nat, round: real -> real)
    requires ExactContext(round) && Accepted(multiplier) && n <= E15
    requires Multiple(baseline, 36, n * E91)
    ensures round(Limit(baseline, multiplier)) == Limit(baseline, multiplier)
  {
    hide Multiple, Pow10, ExactContext;
    var fraction: nat :| fraction <= 30 && Multiple(multiplier, fraction, E40);
    MultipleWiden(baseline, 36, n * E91, E106);
    MultipleMul(baseline, multiplier, 36, fraction, E106, E40, E106 * E40);
    assert Limit(baseline, multiplier) == baseline * multiplier;
    Unrounded(round, Limit(baseline, multiplier), 36 + fraction, E106 * E40);
  }

  /** The threshold of the budget warning does not round. */
  lemma ThresholdExact(multiplier: real, warning: real, round: real -> real)
    requires ExactContext(round) && Accepted(multiplier) && Accepted(warning)
    ensures round(Limit(multiplier, warning)) == Limit(multiplier, warning)
  {
    hide Multiple, Pow10, ExactContext;
    var i: nat :| i <= 30 && Multiple(multiplier, i, E40);
    var j: nat :| j <= 30 && Multiple(warning, j, E40);
    MultipleMul(multiplier, warning, i, j, E40, E40, E40 * E40);
    assert Limit(multiplier, warning) == multiplier * warning;
    Unrounded(round, Limit(multiplier, warning), i + j, E40 * E40);
  }

  lemma QualityExact(total: real, score: real, n: nat, round: real -> real)
    requires ExactContext(round) && n < E15 && Accepted(score)
    requires Multiple(total, 36, n * E91)
    ensures round(total + score) == total + score
    ensures Multiple(total + score, 36, (n + 1) * E91)
  {
    hide Multiple, Pow10, ExactContext;
    AcceptedAt36(score);
    MultipleWiden(score, 36, E90, E91);
    RunningTotalExact(total, score, n, round);
  }

  // ---- the tier ---------------------------------------------------------------------------------------

  ghost predicate Bounded(ids: seq<string>, outcomes: Outcomes, policy: Policy, multiplier: real, round: real -> real) {
    && ExactContext(round) && AcceptedPolicy(policy) && AcceptedOutcomes(outcomes) && Accepted(multiplier)
    && |ids| <= E15
  }

  datatype Totals = Totals(cost: real, baseline: real, quality: real)

  /** The loop's totals after the first `n` episodes, unrounded. */
  function PrefixTotals(ids: seq<string>, decisions: map<string, Model>, outcomes: Outcomes, policy: Policy,
                        n: nat): Totals
    requires Complete(ids, outcomes) && n <= |ids| && Covers(ids, decisions)
  {
    Totals(Sum(SelectedCosts(ids, decisions, outcomes, policy)[..n]),
           Sum(BaselineCosts(ids, outcomes, policy)[..n]),
           Sum(SelectedScores(ids, decisions, outcomes)[..n]))
  }

  ghost predicate Fits(t: Totals, n: nat) {
    Multiple(t.cost, 36, n * E91) && Multiple(t.baseline, 36, n * E91) && Multiple(t.quality, 36, n * E91)
  }

  /** The body of the loop. */
  function AddEpisode(t: Totals, id: string, m: Model, outcomes: Outcomes, policy: Policy, round: real -> real): Totals
    requires (id, m) in outcomes && (id, policy.lightModel) in outcomes
  {
    var selected, light := outcomes[(id, m)], outcomes[(id, policy.lightModel)];
    Totals(round(t.cost + RoundedCost(selected, policy.rates.At(m), round)),
           round(t.baseline + RoundedCost(light, policy.rates.At(policy.lightModel), round)),
           round(t.quality + selected.score))
  }

  lemma AddEpisodeExact(t: Totals, n: nat, id: string, m: Model, outcomes: Outcomes, policy: Policy,
                        round: real -> real)
    requires ExactContext(round) && AcceptedPolicy(policy) && AcceptedOutcomes(outcomes)
    requires (id, m) in outcomes && (id, policy.lightModel) in outcomes
    requires n < E15 && Fits(t, n)
    ensures var next := AddEpisode(t, id, m, outcomes, policy, round);
            && next == Totals(t.cost + EpisodeCost(id, m, outcomes, policy),
                              t.baseline + EpisodeCost(id, policy.lightModel, outcomes, policy),
                              t.quality + outcomes[(id, m)].score)
            && Fits(next, n + 1)
  {
    hide Multiple, ExactContext, Accepted, AcceptedPolicy, RoundedCost, ExactCost;
    var selected, light := outcomes[(id, m)], outcomes[(id, policy.lightModel)];
    RatesAccepted(policy, m);
    RatesAccepted(policy, policy.lightModel);
    CostIsExact(selected, policy.rates.At(m), round);
    CostIsExact(light, policy.rates.At(policy.lightModel), round);
    RunningTotalExact(t.cost, ExactCost(selected, policy.rates.At(m)), n, round);
    RunningTotalExact(t.baseline, ExactCost(light, policy.rates.At(policy.lightModel)), n, round);
    QualityExact(t.quality, selected.score, n, round);
  }

  lemma PrefixStep(ids: seq<string>, decisions: map<string, Model>, outcomes: Outcomes, policy: Policy, n: nat)
    requires Complete(ids, outcomes) && n < |ids|
    requires Covers(ids, decisions)
    ensures var t := PrefixTotals(ids, decisions, outcomes, policy, n);
            var next := PrefixTotals(ids, decisions, outcomes, policy, n + 1);
            var m := decisions[ids[n]];
            next == Totals(t.cost + EpisodeCost(ids[n], m, outcomes, policy),
                           t.baseline + EpisodeCost(ids[n], policy.lightModel, outcomes, policy),
                           t.quality + outcomes[(ids[n], m)].score)
  {
    hide Sum, EpisodeCost;
    Extend(SelectedCosts(ids, decisions, outcomes, policy), n);
    Extend(BaselineCosts(ids, outcomes, policy), n);
    Extend(SelectedScores(ids, decisions, outcomes), n);
  }

  lemma PrefixEnds(ids: seq<string>, decisions: map<string, Model>, outcomes: Outcomes, policy: Policy)
    requires Complete(ids, outcomes)
    requires Covers(ids, decisions)
    ensures PrefixTotals(ids, decisions, outcomes, policy, 0) == Totals(0.0, 0.0, 0.0)
    ensures PrefixTotals(ids, decisions, outcomes, policy, |ids|)
         == Totals(Sum(SelectedCosts(ids, decisions, outcomes, policy)),
                   Sum(BaselineCosts(ids, outcomes, policy)),
                   Sum(SelectedScores(ids, decisions, outcomes)))
    ensures Fits(Totals(0.0, 0.0, 0.0), 0)
  {
    Whole(SelectedCosts(ids, decisions, outcomes, policy));
    Whole(BaselineCosts(ids, outcomes, policy));
    Whole(SelectedScores(ids, decisions, outcomes));
    MultipleZero(36);
  }

  lemma TurnExact(ids: seq<string>, decisions: map<string, Model>, outcomes: Outcomes, policy: Policy,
                  multiplier: real, round: real -> real, i: nat)
    requires Complete(ids, outcomes) && Covers(ids, decisions) && i < |ids|
    requires Bounded(ids, outcomes, policy, multiplier, round)
    requires Fits(PrefixTotals(ids, decisions, outcomes, policy, i), i)
    ensures var next := AddEpisode(PrefixTotals(ids, decisions, outcomes, policy, i), ids[i], decisions[ids[i]],
                                   outcomes, policy, round);
            next == PrefixTotals(ids, decisions, outcomes, policy, i + 1) && Fits(next, i + 1)
  {
    hide PrefixTotals, AddEpisode, Fits, ExactContext, AcceptedPolicy, AcceptedOutcomes, Accepted, EpisodeCost;
    AddEpisodeExact(PrefixTotals(ids, decisions, outcomes, policy, i), i, ids[i], decisions[ids[i]], outcomes, policy,
                  round);
    PrefixStep(ids, decisions, outcomes, policy, i);
  }

  /** The loop's totals after the first `n` episodes, every operation rounded. */
  function RoundedTotals(ids: seq<string>, decisions: map<string, Model>, outcomes: Outcomes, policy: Policy,
                         round: real -> real, n: nat): Totals
    requires Complete(ids, outcomes) && n <= |ids| && Covers(ids, decisions)
  {
    if n == 0 then Totals(0.0, 0.0, 0.0)
    else
      AddEpisode(RoundedTotals(ids, decisions, outcomes, policy, round, n - 1), ids[n - 1], decisions[ids[n - 1]],
                 outcomes, policy, round)
  }

  function Limit(baseline: real, multiplier: real): real {
    baseline * multiplier
  }

  function Quotient(x: real, y: real): real
    requires y != 0.0
  {
    x / y
  }

  /** What is made of the final totals of `n` episodes: the baseline check, the comparison with the limit, the
      warning and the scores. */
  function Verdict(t: Totals, n: nat, multiplier: real, warning: real, round: real -> real): Scored {
    if t.baseline <= 0.0 || n == 0 then BaselineError
    else
      var budgetLimit, ratio := round(Limit(t.baseline, multiplier)), round(Quotient(t.cost, t.baseline));
      var passed, quality := t.cost <= budgetLimit, round(Quotient(t.quality, n as real));
      Scored(Report(t.baseline, t.cost, budgetLimit, ratio, passed, ratio >= round(Limit(multiplier, warning)),
                    t.quality, quality, if passed then t.quality else 0.0, if passed then quality else 0.0))
  }

  /** The result of the computation as the source does it. */
  function RoundedResult(ids: seq<string>, decisions: map<string, Model>, outcomes: Outcomes, policy: Policy,
                         multiplier: real, round: real -> real): Scored
    requires Complete(ids, outcomes)
  {
    if decisions.Keys != set id | id in ids then DecisionRangeError
    else
      Verdict(RoundedTotals(ids, decisions, outcomes, policy, round, |ids|), |ids|, multiplier, policy.warningRatio,
              round)
  }

  /** `_score_tier`: the range check, the three running totals, the baseline check, the verdict and the
      scores. On bounded inputs everything but the two reported quotients is exact, and those are the
      rounded quotients of the exact totals, whatever the rounding mode. */
  method ScoreTier(ids: seq<string>, decisions: map<string, Model>, outcomes: Outcomes, policy: Policy,
                   multiplier: real, round: real -> real)
    returns (result: Scored)
    requires Complete(ids, outcomes)
    ensures result == RoundedResult(ids, decisions, outcomes, policy, multiplier, round)
    ensures result.DecisionRangeError? <==> !Covers(ids, decisions)
    ensures Bounded(ids, outcomes, policy, multiplier, round) && !result.DecisionRangeError? ==>
              result == ExactResult(ids, decisions, outcomes, policy, multiplier, round)
    ensures Bounded(ids, outcomes, policy, multiplier, round) && Covers(ids, decisions) ==>
              && (result.BaselineError? <==> LightMillionths(ids, outcomes, policy) <= 0.0)
              && (!result.BaselineError? ==>
                    result.Scored? && Accounts(result.report, ids, decisions, outcomes, policy, multiplier, round))
  {
    if decisions.Keys != set id | id in ids {
      return DecisionRangeError;
    }
    hide AddEpisode, Bounded, ExactResult, Accounts, LightMillionths;
    var t := Totals(0.0, 0.0, 0.0);
    for i := 0 to |ids|
      invariant t == RoundedTotals(ids, decisions, outcomes, policy, round, i)
    {
      t := AddEpisode(t, ids[i], decisions[ids[i]], outcomes, policy, round);
    }
    result := Verdict(t, |ids|, multiplier, policy.warningRatio, round);
    if Bounded(ids, outcomes, policy, multiplier, round) {
      RoundedIsExact(ids, decisions, outcomes, policy, multiplier, round);
      ResultAccounts(ids, decisions, outcomes, policy, multiplier, round);
    }
  }

  /** No running total rounds. */
  lemma {:induction false} TotalsExact(ids: seq<string>, decisions: map<string, Model>, outcomes: Outcomes,
                                       policy: Policy,
                                       multiplier: real, round: real -> real, n: nat)
    requires Complete(ids, outcomes) && Covers(ids, decisions) && n <= |ids|
    requires Bounded(ids, outcomes, policy, multiplier, round)
    ensures RoundedTotals(ids, decisions, outcomes, policy, round, n)
              == PrefixTotals(ids, decisions, outcomes, policy, n)
    ensures Fits(PrefixTotals(ids, decisions, outcomes, policy, n), n)
  {
    hide PrefixTotals, AddEpisode, Fits, Bounded;
    PrefixEnds(ids, decisions, outcomes, policy);
    if n > 0 {
      TotalsExact(ids, decisions, outcomes, policy, multiplier, round, n - 1);
      TurnExact(ids, decisions, outcomes, policy, multiplier, round, n - 1);
    }
  }

  /** On bounded inputs the source's computation returns the exact result. */
  lemma RoundedIsExact(ids: seq<string>, decisions: map<string, Model>, outcomes: Outcomes, policy: Policy,
                       multiplier: real, round: real -> real)
    requires Complete(ids, outcomes) && Covers(ids, decisions)
    requires Bounded(ids, outcomes, policy, multiplier, round)
    ensures RoundedResult(ids, decisions, outcomes, policy, multiplier, round)
         == ExactResult(ids, decisions, outcomes, policy, multiplier, round)
  {
    hide RoundedTotals, PrefixTotals, Fits, ExactContext, AcceptedPolicy, AcceptedOutcomes, Accepted, SelectedCosts,
         BaselineCosts, SelectedScores, Sum, Limit, Quotient;
    TotalsExact(ids, decisions, outcomes, policy, multiplier, round, |ids|);
    PrefixEnds(ids, decisions, outcomes, policy);
    FinalLimitExact(PrefixTotals(ids, decisions, outcomes, policy, |ids|), multiplier, |ids|, round);
    WarningAccepted(policy);
    ThresholdExact(multiplier, policy.warningRatio, round);
  }

  lemma WarningAccepted(policy: Policy)
    requires AcceptedPolicy(policy)
    ensures Accepted(policy.warningRatio)
  {
  }

  lemma FinalLimitExact(t: Totals, multiplier: real, n: nat, round: real -> real)
    requires ExactContext(round) && Accepted(multiplier) && n <= E15 && Fits(t, n)
    ensures round(Limit(t.baseline, multiplier)) == Limit(t.baseline, multiplier)
  {
    hide Multiple, ExactContext, Accepted, Limit;
    LimitExact(t.baseline, multiplier, n, round);
  }

  /** The tier's result from exact totals: pass when the selected total is at most the all-light total times
      the multiplier, equality included. */
  function ExactResult(ids: seq<string>, decisions: map<string, Model>, outcomes: Outcomes, policy: Policy,
                       multiplier: real, round: real -> real): Scored
    requires Complete(ids, outcomes)
    requires Covers(ids, decisions)
  {
    var baseline := Sum(BaselineCosts(ids, outcomes, policy));
    var total := Sum(SelectedCosts(ids, decisions, outcomes, policy));
    var quality := Sum(SelectedScores(ids, decisions, outcomes));
    if baseline <= 0.0 || |ids| == 0 then BaselineError
    else
      var ratio, score := round(Quotient(total, baseline)), round(Quotient(quality, |ids| as real));
      var passed := total <= Limit(baseline, multiplier);
      Scored(Report(baseline, total, Limit(baseline, multiplier), ratio, passed,
                    ratio >= Limit(multiplier, policy.warningRatio),
                    quality, score, if passed then quality else 0.0, if passed then score else 0.0))
  }

  /** The verdict in one line: equality with the limit passes. */
  lemma PassesExactly(ids: seq<string>, decisions: map<string, Model>, outcomes: Outcomes, policy: Policy,
                      multiplier: real, round: real -> real)
    requires Complete(ids, outcomes) && Covers(ids, decisions)
    ensures var baseline := Sum(BaselineCosts(ids, outcomes, policy));
            var total := Sum(SelectedCosts(ids, decisions, outcomes, policy));
            var result := ExactResult(ids, decisions, outcomes, policy, multiplier, round);
            (result.Scored? && result.report.budgetPassed) <==> (0.0 < baseline && total <= baseline * multiplier)
  {
    hide BaselineCosts, SelectedCosts, SelectedScores;
    if |ids| == 0 {
      assert |BaselineCosts(ids, outcomes, policy)| == 0;
    }
  }

  // ---- the report from the inputs ---------------------------------------------------------------------

  /** A cost in millionths of its unit. */
  function Millionths(o: Outcome, r: Rates): real {
    1000000.0 * r.fixedCost + (o.inputTokens as real * r.inputTokenRate + o.outputTokens as real * r.outputTokenRate)
  }

  function SelectedMillionths(ids: seq<string>, decisions: map<string, Model>, outcomes: Outcomes, policy: Policy): real
    requires Complete(ids, outcomes) && Covers(ids, decisions)
  {
    Sum(seq(|ids|, i requires 0 <= i < |ids| =>
      Millionths(outcomes[(ids[i], decisions[ids[i]])], policy.rates.At(decisions[ids[i]]))))
  }

  function LightMillionths(ids: seq<string>, outcomes: Outcomes, policy: Policy): real
    requires Complete(ids, outcomes)
  {
    Sum(seq(|ids|, i requires 0 <= i < |ids| =>
      Millionths(outcomes[(ids[i], policy.lightModel)], policy.rates.At(policy.lightModel))))
  }

  /** Every figure of a report, from the episodes' scores, token counts and rates. */
  ghost predicate Accounts(report: Report, ids: seq<string>, decisions: map<string, Model>, outcomes: Outcomes,
                           policy: Policy, multiplier: real, round: real -> real)
    requires Complete(ids, outcomes) && Covers(ids, decisions)
  {
    var n := |ids|;
    && n > 0 && report.lightBaselineCost > 0.0
    && 1000000.0 * report.totalCost == SelectedMillionths(ids, decisions, outcomes, policy)
    && 1000000.0 * report.lightBaselineCost == LightMillionths(ids, outcomes, policy)
    && report.budgetLimit == report.lightBaselineCost * multiplier
    && (report.budgetPassed <==> report.totalCost <= report.lightBaselineCost * multiplier)
    && report.budgetRatio == round(report.totalCost / report.lightBaselineCost)
    && (report.nearBudget <==> multiplier * policy.warningRatio <= report.budgetRatio)
    && report.qualityPointsTotal
         == Sum(seq(n, i requires 0 <= i < n => outcomes[(ids[i], decisions[ids[i]])].score))
    && report.qualityScore == round(report.qualityPointsTotal / n as real)
    && (report.budgetPassed ==>
          report.tierPointsTotal == report.qualityPointsTotal && report.tierScore == report.qualityScore)
    && (!report.budgetPassed ==> report.tierPointsTotal == 0.0 && report.tierScore == 0.0)
  }

  lemma InMillionths(o: Outcome, r: Rates)
    ensures Millionths(o, r) == 1000000.0 * ExactCost(o, r)
  {
    var inputs := TokenProduct(o.inputTokens, r.inputTokenRate);
    var outputs := TokenProduct(o.outputTokens, r.outputTokenRate);
    assert Millionths(o, r) == 1000000.0 * r.fixedCost + (inputs + outputs);
  }

  lemma SumsInMillionths(ids: seq<string>, decisions: map<string, Model>, outcomes: Outcomes, policy: Policy)
    requires Complete(ids, outcomes) && Covers(ids, decisions)
    ensures SelectedMillionths(ids, decisions, outcomes, policy)
         == 1000000.0 * Sum(SelectedCosts(ids, decisions, outcomes, policy))
    ensures LightMillionths(ids, outcomes, policy) == 1000000.0 * Sum(BaselineCosts(ids, outcomes, policy))
  {
    hide Sum, Millionths, ExactCost;
    var n := |ids|;
    var selected := seq(n, i requires 0 <= i < n =>
      Millionths(outcomes[(ids[i], decisions[ids[i]])], policy.rates.At(decisions[ids[i]])));
    var light := seq(n, i requires 0 <= i < n =>
      Millionths(outcomes[(ids[i], policy.lightModel)], policy.rates.At(policy.lightModel)));
    forall i | 0 <= i < n
      ensures selected[i] == 1000000.0 * SelectedCosts(ids, decisions, outcomes, policy)[i]
      ensures light[i] == 1000000.0 * BaselineCosts(ids, outcomes, policy)[i]
    {
      InMillionths(outcomes[(ids[i], decisions[ids[i]])], policy.rates.At(decisions[ids[i]]));
      InMillionths(outcomes[(ids[i], policy.lightModel)], policy.rates.At(policy.lightModel));
    }
    SumScale(1000000.0, SelectedCosts(ids, decisions, outcomes, policy), selected);
    SumScale(1000000.0, BaselineCosts(ids, outcomes, policy), light);
  }

  /** The exact result accounts for itself, and is missing only if the light model costs nothing. */
  lemma ResultAccounts(ids: seq<string>, decisions: map<string, Model>, outcomes: Outcomes, policy: Policy,
                       multiplier: real, round: real -> real)
    requires Complete(ids, outcomes) && Covers(ids, decisions)
    ensures var result := ExactResult(ids, decisions, outcomes, policy, multiplier, round);
            && (result.BaselineError? <==> LightMillionths(ids, outcomes, policy) <= 0.0)
            && (!result.BaselineError? ==>
                  result.Scored? && Accounts(result.report, ids, decisions, outcomes, policy, multiplier, round))
  {
    hide Sum, SelectedCosts, BaselineCosts, SelectedMillionths, LightMillionths;
    SumsInMillionths(ids, decisions, outcomes, policy);
    var n := |ids|;
    assert seq(n, i requires 0 <= i < n => outcomes[(ids[i], decisions[ids[i]])].score)
        == SelectedScores(ids, decisions, outcomes);
    if n == 0 {
      NoEpisodes(BaselineCosts(ids, outcomes, policy));
    }
  }

  lemma NoEpisodes(costs: seq<real>)
    requires |costs| == 0
    ensures Sum(costs) == 0.0
  {
  }

  /** An outcome with a million more input or output tokens. */
  function MillionMore(o: Outcome, inputs: bool): Outcome {
    if inputs then o.(inputTokens := o.inputTokens + 1_000_000) else o.(outputTokens := o.outputTokens + 1_000_000)
  }

  function RateOf(r: Rates, inputs: bool): real {
    if inputs then r.inputTokenRate else r.outputTokenRate
  }

  /** A million more tokens for the chosen model of one episode raise the selected total by that model's rate
      for such tokens, and the light total by as much exactly if the chosen model is the light one. */
  lemma MillionMoreTokens(ids: seq<string>, decisions: map<string, Model>, outcomes: Outcomes, policy: Policy, k: nat,
                          inputs: bool)
    requires Complete(ids, outcomes) && Covers(ids, decisions) && k < |ids|
    requires forall i :: 0 <= i < |ids| && i != k ==> ids[i] != ids[k]
    ensures var m := decisions[ids[k]];
            var more := outcomes[(ids[k], m) := MillionMore(outcomes[(ids[k], m)], inputs)];
            && Complete(ids, more)
            && Sum(SelectedCosts(ids, decisions, more, policy))
                 == Sum(SelectedCosts(ids, decisions, outcomes, policy)) + RateOf(policy.rates.At(m), inputs)
            && Sum(BaselineCosts(ids, more, policy)) == Sum(BaselineCosts(ids, outcomes, policy))
                 + if m == policy.lightModel then RateOf(policy.rates.At(m), inputs) else 0.0
  {
    hide Sum, ExactCost;
    var m := decisions[ids[k]];
    var o := outcomes[(ids[k], m)];
    var more := outcomes[(ids[k], m) := MillionMore(o, inputs)];
    var rate := RateOf(policy.rates.At(m), inputs);
    CostLaws(o, policy.rates.At(m), if inputs then o.inputTokens else o.outputTokens, 0);
    assert o.(inputTokens := o.inputTokens) == o && o.(outputTokens := o.outputTokens) == o;
    SumChange(SelectedCosts(ids, decisions, outcomes, policy), SelectedCosts(ids, decisions, more, policy), k, rate);
    SumChange(BaselineCosts(ids, outcomes, policy), BaselineCosts(ids, more, policy), k,
              if m == policy.lightModel then rate else 0.0);
  }

  lemma SumChange(xs: seq<real>, ys: seq<real>, k: nat, d: real)
    requires |xs| == |ys| && k < |xs| && ys[k] == xs[k] + d
    requires forall i :: 0 <= i < |xs| && i != k ==> ys[i] == xs[i]
    ensures Sum(ys) == Sum(xs) + d
  {
    hide Sum;
    assert xs[..k] == ys[..k] && xs[k + 1..] == ys[k + 1..];
    SumRemove(xs, k);
    SumRemove(ys, k);
  }

  lemma Extend(xs: seq<real>, i: nat)
    requires i < |xs|
    ensures Sum(xs[..i + 1]) == Sum(xs[..i]) + xs[i]
  {
    assert xs[..i + 1] == xs[..i] + [xs[i]];
    SumAppend(xs[..i], xs[i]);
  }

  lemma Whole(xs: seq<real>)
    ensures xs[..|xs|] == xs
  {
  }
}
