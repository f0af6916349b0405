/** What the baseline's two passes return, said in the batch's own numbers and without their searches. */
module HashRegexAnswers {
  import opened RealSums
  import opened Models
  import opened PenaltyBisection
  import opened HashRegex
  import Team = TeamAllocator
  import Answers = AllocatorAnswers

  function LightCost(rows: seq<Row>): real {
    Sum(seq(|rows|, i requires 0 <= i < |rows| => rows[i].costs.light))
  }

  function Cost(rows: seq<Row>, sel: seq<Model>): real
    requires |sel| == |rows|
  {
    Sum(seq(|rows|, i requires 0 <= i < |rows| => rows[i].costs.At(sel[i])))
  }

  lemma CostsAreTotals(rows: seq<Row>, sel: seq<Model>)
    requires |sel| == |rows|
    ensures LightCost(rows) == LightTotal(rows) && Cost(rows, sel) == Total(rows, sel)
  {
    hide Sum;
    assert seq(|rows|, i requires 0 <= i < |rows| => rows[i].costs.light) == LightCosts(rows);
    assert seq(|rows|, i requires 0 <= i < |rows| => rows[i].costs.At(sel[i])) == ChosenCosts(rows, sel);
  }

  /** The reported ratio times the light cost is the selection's cost. */
  lemma RatioExactly(rows: seq<Row>, sel: seq<Model>)
    requires Priced(rows) && |sel| == |rows|
    ensures LightCost(rows) > 0.0 && Ratio(rows, sel) * LightCost(rows) == Cost(rows, sel)
  {
    hide Sum;
    CostsAreTotals(rows, sel);
    LightTotalPositive(rows);
  }

  // ---- first pass -----------------------------------------------------------------------------------------

  /** Score less the penalty's price, both scaled by the batch's light cost. */
  function Worth(row: Row, lightCost: real, p: real, m: Model): real {
    row.scores.At(m) * lightCost - p * row.costs.At(m)
  }

  ghost predicate BestOf(row: Row, lightCost: real, p: real, m: Model) {
    forall other: Model ::
      var mine, theirs := Worth(row, lightCost, p, m), Worth(row, lightCost, p, other);
      theirs < mine || (theirs == mine && m.Index() <= other.Index())
  }

  /** Every row has its model of greatest worth at a penalty, the cheapest of them. */
  ghost predicate Best(rows: seq<Row>, p: real, sel: seq<Model>) {
    |sel| == |rows| && forall i :: 0 <= i < |rows| ==> BestOf(rows[i], LightCost(rows), p, sel[i])
  }

  /** The first pass may spend the light cost times the safe part of the multiplier, and at least that cost. */
  predicate Affordable(rows: seq<Row>, multiplier: real, safety: real, sel: seq<Model>)
    requires |sel| == |rows|
  {
    Cost(rows, sel) <= LightCost(rows) * Max(1.0, multiplier * safety)
  }

  lemma WorthIsTeamWorth(row: Row, lightCost: real, p: real, m: Model, s: Team.Settings)
    requires s.risk == PerModel(1.0, 1.0, 1.0)
    ensures Worth(row, lightCost, p, m)
         == Answers.Worth(Team.Row(row.scores, row.costs, row.costs), s, lightCost, p, m)
  {
    assert s.risk.At(m) == 1.0;
  }

  lemma BestOfExactly(row: Row, lightCost: real, p: real, m: Model)
    requires lightCost > 0.0
    ensures BestOf(row, lightCost, p, m) <==> m == Pick(row, lightCost, p)
  {
    hide Worth, Answers.Worth, Pick, Team.Pick;
    var unit := Team.Settings(1.0, 1.0, PerModel(1.0, 1.0, 1.0), 1.0, 1.0);
    PickIsUnitRisk(row, lightCost, p, unit);
    Answers.BestOfExactly(Team.Row(row.scores, row.costs, row.costs), unit, lightCost, p, m);
    forall other: Model
      ensures Worth(row, lightCost, p, other)
           == Answers.Worth(Team.Row(row.scores, row.costs, row.costs), unit, lightCost, p, other)
    {
      WorthIsTeamWorth(row, lightCost, p, other, unit);
    }
  }

  lemma BestExactly(rows: seq<Row>, p: real, sel: seq<Model>)
    requires Priced(rows)
    ensures Best(rows, p, sel) <==> sel == Choice(rows, p)
  {
    hide BestOf, Pick, Sum;
    LightTotalPositive(rows);
    CostsAreTotals(rows, Choice(rows, p));
    if |sel| == |rows| {
      forall i | 0 <= i < |rows|
        ensures BestOf(rows[i], LightCost(rows), p, sel[i]) <==> sel[i] == Choice(rows, p)[i]
      {
        BestOfExactly(rows[i], LightCost(rows), p, sel[i]);
      }
    }
  }

  lemma AffordableExactly(rows: seq<Row>, multiplier: real, safety: real, sel: seq<Model>)
    requires |sel| == |rows|
    ensures Affordable(rows, multiplier, safety, sel) <==> !Exceeds(rows, sel, FirstCap(rows, multiplier, safety))
  {
    hide Max;
    CostsAreTotals(rows, sel);
  }

  /** Best at an affordable penalty, while one barely below it is not affordable; or all light, because even
      the largest penalty is not. */
  ghost predicate PricedJustEnough(rows: seq<Row>, multiplier: real, safety: real, result: seq<Model>)
  {
    || (exists low: real, p: real, below: seq<Model> ::
          && Best(rows, low, below) && Best(rows, p, result)
          && 0.0 <= low < p && (p - low) * TWO_TO_80 <= Max(1.0, p)
          && !Affordable(rows, multiplier, safety, below) && Affordable(rows, multiplier, safety, result))
    || (exists top: seq<Model> ::
          && Best(rows, TWO_TO_60, top) && !Affordable(rows, multiplier, safety, top)
          && result == Team.AllLight(|rows|))
  }

  /** The first pass returns the unpenalised best selection if it is affordable, and is otherwise priced just
      enough; what it returns is affordable. */
  lemma FirstPassExactly(rows: seq<Row>, multiplier: real, safety: real, free: seq<Model>)
    requires Priced(rows) && Best(rows, 0.0, free)
    ensures var result := FirstPass(rows, multiplier, safety);
            && Affordable(rows, multiplier, safety, result)
            && if Affordable(rows, multiplier, safety, free) then result == free
               else PricedJustEnough(rows, multiplier, safety, result)
  {
    hide Best, Affordable, Choice, Exceeds, FirstCap, Pow2, Widen, Halve, LightCost, Cost;
    var result := FirstPass(rows, multiplier, safety);
    var v := FirstViolates(rows, FirstCap(rows, multiplier, safety));
    var p := FinalPenalty(v, LIMIT, 80);
    BestExactly(rows, 0.0, free);
    AffordableExactly(rows, multiplier, safety, free);
    FirstPassAffordable(rows, multiplier, safety);
    if v(0.0) {
      FinalBracketFacts(v, LIMIT, 80);
      var low := FinalBracket(v, LIMIT, 80).low;
      var below, at := Choice(rows, low), Choice(rows, p);
      BestExactly(rows, low, below);
      BestExactly(rows, p, at);
      AffordableExactly(rows, multiplier, safety, below);
      AffordableExactly(rows, multiplier, safety, at);
      Pow2Values();
    }
  }

  lemma FirstPassAffordable(rows: seq<Row>, multiplier: real, safety: real)
    requires Priced(rows)
    ensures Affordable(rows, multiplier, safety, FirstPass(rows, multiplier, safety))
  {
    hide Total, FirstPass, FirstCap, Affordable;
    FirstPassFits(rows, multiplier, safety);
    AffordableExactly(rows, multiplier, safety, FirstPass(rows, multiplier, safety));
  }

  /** No selection of no greater cost has a higher score than the first pass, the fallback included. */
  lemma FirstPassOptimal(rows: seq<Row>, multiplier: real, safety: real, other: seq<Model>)
    requires Priced(rows) && |other| == |rows|
    requires Cost(rows, other) <= Cost(rows, FirstPass(rows, multiplier, safety))
    ensures Score(rows, other) <= Score(rows, FirstPass(rows, multiplier, safety))
  {
    hide Best, Exceeds, FirstCap, Pow2, Widen, Halve, Choice, Cost, Score;
    var v := FirstViolates(rows, FirstCap(rows, multiplier, safety));
    var p := FinalPenalty(v, LIMIT, 80);
    if v(p) {
      OnlyLightIsAsCheap(rows, other);
    } else {
      if v(0.0) {
        FinalBracketFacts(v, LIMIT, 80);
      }
      BestExactly(rows, p, Choice(rows, p));
      BestMaximises(rows, p, Choice(rows, p), other);
      NoGreaterPrice(p, Cost(rows, other), Cost(rows, Choice(rows, p)));
      RatioExactly(rows, other);
      Answers.ScaledOrder(Score(rows, Choice(rows, p)), Score(rows, other), LightCost(rows));
    }
  }

  lemma NoGreaterPrice(p: real, x: real, y: real)
    requires p >= 0.0 && x <= y
    ensures p * x <= p * y
  {
  }

  lemma BestMaximises(rows: seq<Row>, p: real, sel: seq<Model>, other: seq<Model>)
    requires Priced(rows) && |other| == |rows| && Best(rows, p, sel)
    ensures Score(rows, other) * LightCost(rows) - p * Cost(rows, other)
         <= Score(rows, sel) * LightCost(rows) - p * Cost(rows, sel)
  {
    hide Sum;
    var n, l := |rows|, LightCost(rows);
    var mine := seq(n, i requires 0 <= i < n => Worth(rows[i], l, p, sel[i]));
    var theirs := seq(n, i requires 0 <= i < n => Worth(rows[i], l, p, other[i]));
    forall i | 0 <= i < n
      ensures theirs[i] <= mine[i]
    {
      assert BestOf(rows[i], l, p, sel[i]);
    }
    SumLe(theirs, mine);
    WorthsSum(rows, p, sel, mine);
    WorthsSum(rows, p, other, theirs);
  }

  lemma WorthsSum(rows: seq<Row>, p: real, sel: seq<Model>, worths: seq<real>)
    requires |sel| == |worths| == |rows|
    requires forall i :: 0 <= i < |rows| ==> worths[i] == Worth(rows[i], LightCost(rows), p, sel[i])
    ensures Sum(worths) == Score(rows, sel) * LightCost(rows) - p * Cost(rows, sel)
  {
    hide Sum, LightCost;
    var l := LightCost(rows);
    var costs := seq(|rows|, i requires 0 <= i < |rows| => rows[i].costs.At(sel[i]));
    forall i | 0 <= i < |rows|
      ensures worths[i] == l * ChosenScores(rows, sel)[i] + (0.0 - p) * costs[i]
    {
      Price(rows[i].scores.At(sel[i]), l, p, costs[i]);
    }
    SumLinear(l, ChosenScores(rows, sel), 0.0 - p, costs, worths);
    Price(Score(rows, sel), l, p, Cost(rows, sel));
  }

  lemma Price(score: real, l: real, p: real, cost: real)
    ensures score * l - p * cost == l * score + (0.0 - p) * cost
  {
  }

  /** The light model being strictly cheapest, nothing but all light costs as little. */
  lemma OnlyLightIsAsCheap(rows: seq<Row>, other: seq<Model>)
    requires Priced(rows) && |other| == |rows|
    requires Cost(rows, other) <= Cost(rows, Team.AllLight(|rows|))
    ensures other == Team.AllLight(|rows|)
  {
    hide Sum;
    var n := |rows|;
    var light := Team.AllLight(n);
    var more := seq(n, i requires 0 <= i < n => rows[i].costs.At(other[i]) - rows[i].costs.light);
    var theirs := seq(n, i requires 0 <= i < n => rows[i].costs.At(other[i]));
    var ours := seq(n, i requires 0 <= i < n => rows[i].costs.At(light[i]));
    SumLinear(1.0, theirs, -1.0, ours, more);
    forall i | 0 <= i < n
      ensures other[i] == Ax31Light
    {
      SumDominates(more, i);
    }
  }

  // ---- fill pass ------------------------------------------------------------------------------------------

  /** The middle model is worth its extra cost at a penalty. */
  predicate WorthUpgrading(row: Row, lightCost: real, p: real) {
    (row.scores.mid - row.scores.light) * lightCost > p * (row.costs.mid - row.costs.light)
  }

  /** Light rows are upgraded exactly where that is worth it, and no other row is touched. */
  ghost predicate UpgradedAt(selected: seq<Model>, rows: seq<Row>, p: real, filled: seq<Model>)
    requires |selected| == |rows|
  {
    && |filled| == |rows|
    && forall i :: 0 <= i < |rows| ==>
         filled[i] == if selected[i] == Ax31Light && WorthUpgrading(rows[i], LightCost(rows), p) then Ax31
                      else selected[i]
  }

  predicate FillAffordable(selected: seq<Model>, rows: seq<Row>, multiplier: real, safety: real, filled: seq<Model>)
    requires |selected| == |filled| == |rows|
  {
    Cost(rows, filled) <= Max(Cost(rows, selected), LightCost(rows) * Max(1.0, multiplier * safety))
  }

  lemma UpgradesExactly(row: Row, lightCost: real, p: real)
    requires lightCost > 0.0
    ensures WorthUpgrading(row, lightCost, p) <==> Upgrades(row, lightCost, p)
  {
    var gain, price := row.scores.mid - row.scores.light, p * (row.costs.mid - row.costs.light);
    assert price / lightCost * lightCost == price;
    Answers.ScaledOrder(price / lightCost, gain, lightCost);
  }

  lemma UpgradedExactly(selected: seq<Model>, rows: seq<Row>, p: real, filled: seq<Model>)
    requires Priced(rows) && |selected| == |rows|
    ensures UpgradedAt(selected, rows, p, filled) <==> filled == FillChoice(selected, rows, p)
  {
    hide WorthUpgrading, Upgrades, Sum;
    LightTotalPositive(rows);
    CostsAreTotals(rows, selected);
    if |filled| == |rows| {
      forall i | 0 <= i < |rows|
        ensures (filled[i] == if selected[i] == Ax31Light && WorthUpgrading(rows[i], LightCost(rows), p) then Ax31
                              else selected[i]) <==> filled[i] == FillChoice(selected, rows, p)[i]
      {
        UpgradesExactly(rows[i], LightCost(rows), p);
      }
    }
  }

  lemma FillAffordableExactly(selected: seq<Model>, rows: seq<Row>, multiplier: real, safety: real, filled: seq<Model>)
    requires |selected| == |filled| == |rows|
    ensures FillAffordable(selected, rows, multiplier, safety, filled)
       <==> !Exceeds(rows, filled, FillCap(selected, rows, multiplier, safety))
  {
    hide Max, Cost, LightCost, Total, LightTotal;
    CostsAreTotals(rows, selected);
    CostsAreTotals(rows, filled);
    assert LightCost(rows) * Max(1.0, multiplier * safety) == FirstCap(rows, multiplier, safety);
    assert FillCap(selected, rows, multiplier, safety)
        == Max(Cost(rows, selected), LightCost(rows) * Max(1.0, multiplier * safety));
  }

  /** Upgraded at an affordable penalty, while one barely below it is not affordable; or left as it was,
      because even the largest penalty is not. */
  ghost predicate FilledJustEnough(selected: seq<Model>, rows: seq<Row>, multiplier: real, safety: real,
                                   result: seq<Model>)
    requires |selected| == |rows|
  {
    || (exists low: real, p: real, below: seq<Model> ::
          && UpgradedAt(selected, rows, low, below) && UpgradedAt(selected, rows, p, result)
          && 0.0 <= low < p && (p - low) * TWO_TO_80 <= Max(1.0, p)
          && !FillAffordable(selected, rows, multiplier, safety, below)
          && FillAffordable(selected, rows, multiplier, safety, result))
    || (exists top: seq<Model> ::
          && UpgradedAt(selected, rows, TWO_TO_60, top) && !FillAffordable(selected, rows, multiplier, safety, top)
          && result == selected)
  }

  /** The fill pass makes every upgrade with a higher score if all of them are affordable, and otherwise
      prices them just enough. */
  lemma FillPassExactly(selected: seq<Model>, rows: seq<Row>, multiplier: real, safety: real, all: seq<Model>)
    requires Priced(rows) && |selected| == |rows| && UpgradedAt(selected, rows, 0.0, all)
    ensures var result := FillPass(selected, rows, multiplier, safety);
            && FillAffordable(selected, rows, multiplier, safety, result)
            && if FillAffordable(selected, rows, multiplier, safety, all) then result == all
               else FilledJustEnough(selected, rows, multiplier, safety, result)
  {
    hide UpgradedAt, FillAffordable, FillChoice, Exceeds, FillCap, Pow2, Widen, Halve, LightCost, Cost;
    var result := FillPass(selected, rows, multiplier, safety);
    var v := FillViolates(selected, rows, FillCap(selected, rows, multiplier, safety));
    var p := FinalPenalty(v, LIMIT, 80);
    UpgradedExactly(selected, rows, 0.0, all);
    FillAffordableExactly(selected, rows, multiplier, safety, all);
    FillPassAffordable(selected, rows, multiplier, safety);
    if v(0.0) {
      FinalBracketFacts(v, LIMIT, 80);
      var low := FinalBracket(v, LIMIT, 80).low;
      var below, at := FillChoice(selected, rows, low), FillChoice(selected, rows, p);
      UpgradedExactly(selected, rows, low, below);
      UpgradedExactly(selected, rows, p, at);
      FillAffordableExactly(selected, rows, multiplier, safety, below);
      FillAffordableExactly(selected, rows, multiplier, safety, at);
      Pow2Values();
    }
  }

  lemma FillPassAffordable(selected: seq<Model>, rows: seq<Row>, multiplier: real, safety: real)
    requires Priced(rows) && |selected| == |rows|
    ensures FillAffordable(selected, rows, multiplier, safety, FillPass(selected, rows, multiplier, safety))
  {
    hide Total, FillPass, FillCap, FillAffordable;
    FillFits(selected, rows, multiplier, safety);
    FillAffordableExactly(selected, rows, multiplier, safety, FillPass(selected, rows, multiplier, safety));
  }
}
