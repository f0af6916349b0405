/** Which assignment the shipped search returns, said in the batch's own numbers: scores, costs and the
    settings of the tier, without the search. */
module AllocatorAnswers {
  import opened RealSums
  import opened Models
  import opened PenaltyBisection
  import opened TeamAllocator
  import opened AllocatorTheorems

  /** Predicted score less the penalty's price, both scaled by the batch's light ranking cost. */
  function Worth(row: Row, s: Settings, rankTotal: real, p: real, m: Model): real {
    row.scores.At(m) * rankTotal - p * (s.risk.At(m) * row.rankCosts.At(m))
  }

  /** `m` is the model of greatest worth, and the cheapest of them. */
  ghost predicate BestOf(row: Row, s: Settings, rankTotal: real, p: real, m: Model) {
    forall other: Model ::
      var mine, theirs := Worth(row, s, rankTotal, p, m), Worth(row, s, rankTotal, p, other);
      theirs < mine || (theirs == mine && m.Index() <= other.Index())
  }

  /** Every row of the batch has its best model at a penalty. */
  ghost predicate Best(rows: seq<Row>, s: Settings, p: real, sel: seq<Model>) {
    var rankTotal := Sum(seq(|rows|, i requires 0 <= i < |rows| => rows[i].rankCosts.light));
    |sel| == |rows| && forall i :: 0 <= i < |rows| ==> BestOf(rows[i], s, rankTotal, p, sel[i])
  }

  /** The tier's three constraints: what the batch may cost beyond its light cost, what the high model may
      cost, and what the promoted rows' light costs may be if their models cost 3 and 33 times as much. */
  ghost predicate WithinTier(rows: seq<Row>, s: Settings, sel: seq<Model>)
    requires |sel| == |rows|
  {
    var n := |rows|;
    var light := Sum(seq(n, i requires 0 <= i < n => rows[i].costs.light));
    var chosen := Sum(seq(n, i requires 0 <= i < n => rows[i].costs.At(sel[i])));
    var high := Sum(seq(n, i requires 0 <= i < n => if sel[i] == Axk1Think then rows[i].costs.high else 0.0));
    var midLight := Sum(seq(n, i requires 0 <= i < n => if sel[i] == Ax31 then rows[i].costs.light else 0.0));
    var highLight := Sum(seq(n, i requires 0 <= i < n => if sel[i] == Axk1Think then rows[i].costs.light else 0.0));
    var excess := s.budgetMultiplier - 1.0;
    && chosen - light <= excess * s.safetyRatio * light
    && high <= s.highCapRatio * ((1.0 + excess * s.safetyRatio) * light)
    && 2.0 * midLight + 32.0 * highLight <= excess * s.shareRatio * light
  }

  // ---- the rule -----------------------------------------------------------------------------------------

  lemma WorthIsValue(row: Row, s: Settings, rankTotal: real, p: real, m: Model)
    requires rankTotal > 0.0
    ensures Worth(row, s, rankTotal, p, m) == Value(row, s, rankTotal, p, m) * rankTotal
  {
    hide Value;
    ValueIsPenalised(row, s, rankTotal, p, m);
    var w, c := Weight(row, s, rankTotal, m), s.risk.At(m) * row.rankCosts.At(m);
    assert w * rankTotal == c;
    assert (row.scores.At(m) - p * w) * rankTotal == row.scores.At(m) * rankTotal - p * (w * rankTotal);
  }

  lemma ScaledOrder(x: real, y: real, d: real)
    requires d > 0.0
    ensures x < y <==> x * d < y * d
    ensures x == y <==> x * d == y * d
  {
    if x < y {
      assert (y - x) * d > 0.0;
    } else if y < x {
      assert (x - y) * d > 0.0;
    }
  }

  lemma BestOfExactly(row: Row, s: Settings, rankTotal: real, p: real, m: Model)
    requires rankTotal > 0.0
    ensures BestOf(row, s, rankTotal, p, m) <==> m == Pick(row, s, rankTotal, p)
  {
    hide Value, Worth, Pick;
    var pick := Pick(row, s, rankTotal, p);
    assert IsArgmax(row, s, rankTotal, p, pick);
    forall other: Model
      ensures var mine, theirs := Worth(row, s, rankTotal, p, pick), Worth(row, s, rankTotal, p, other);
              theirs < mine || (theirs == mine && pick.Index() <= other.Index())
    {
      WorthIsValue(row, s, rankTotal, p, pick);
      WorthIsValue(row, s, rankTotal, p, other);
      ScaledOrder(Value(row, s, rankTotal, p, other), Value(row, s, rankTotal, p, pick), rankTotal);
    }
    assert BestOf(row, s, rankTotal, p, pick);
  }

  lemma BestExactly(rows: seq<Row>, s: Settings, p: real, sel: seq<Model>)
    requires Priced(rows)
    ensures Best(rows, s, p, sel) <==> sel == Choice(rows, s, p)
  {
    hide BestOf, Pick, Sum;
    TotalsPositive(rows);
    var rankTotal := RankLightTotal(rows);
    assert seq(|rows|, i requires 0 <= i < |rows| => rows[i].rankCosts.light) == RankLightCosts(rows);
    if |sel| == |rows| {
      forall i | 0 <= i < |rows|
        ensures BestOf(rows[i], s, rankTotal, p, sel[i]) <==> sel[i] == Choice(rows, s, p)[i]
      {
        BestOfExactly(rows[i], s, rankTotal, p, sel[i]);
      }
    }
  }

  // ---- the constraints ------------------------------------------------------------------------------------

  lemma ExcessInCosts(rows: seq<Row>, sel: seq<Model>)
    requires Priced(rows) && |rows| > 0 && |sel| == |rows|
    ensures var n := |rows|;
            var mid := seq(n, i requires 0 <= i < n => if sel[i] == Ax31 then rows[i].costs.light else 0.0);
            var high := seq(n, i requires 0 <= i < n => if sel[i] == Axk1Think then rows[i].costs.light else 0.0);
            LightTotal(rows) * BoundExcess(rows, sel) == 2.0 * Sum(mid) + 32.0 * Sum(high)
  {
    hide Sum;
    TotalsPositive(rows);
    var n, total := |rows|, LightTotal(rows);
    var mid := seq(n, i requires 0 <= i < n => if sel[i] == Ax31 then rows[i].costs.light else 0.0);
    var high := seq(n, i requires 0 <= i < n => if sel[i] == Axk1Think then rows[i].costs.light else 0.0);
    var scaled := seq(n, i requires 0 <= i < n => total * BoundTerms(rows, sel)[i]);
    SumScale(total, BoundTerms(rows, sel), scaled);
    forall i | 0 <= i < n
      ensures scaled[i] == 2.0 * mid[i] + 32.0 * high[i]
    {
      ShareTimesTotal(rows[i].costs.light, total, MultipleBound(sel[i]) - 1.0);
    }
    SumLinear(2.0, mid, 32.0, high, scaled);
  }

  lemma ShareTimesTotal(x: real, total: real, b: real)
    requires total > 0.0
    ensures total * (b * (x / total)) == b * x
  {
    var q := x / total;
    assert q * total == x;
    assert total * (b * q) == b * (q * total);
  }

  lemma CapInCosts(light: real, total: real, high: real, room: real, ratio: real)
    ensures total > light * (1.0 + room) <==> !(total - light <= room * light)
    ensures high > light * (1.0 + room) * ratio <==> !(high <= ratio * ((1.0 + room) * light))
  {
    assert light * (1.0 + room) == light + room * light;
    assert light * (1.0 + room) * ratio == ratio * ((1.0 + room) * light);
  }

  lemma WithinExactly(rows: seq<Row>, s: Settings, sel: seq<Model>)
    requires Priced(rows) && |rows| > 0 && |sel| == |rows|
    ensures WithinTier(rows, s, sel) <==> !Violates(rows, s, sel)
  {
    hide Sum;
    TotalsPositive(rows);
    ExcessInCosts(rows, sel);
    var n := |rows|;
    assert seq(n, i requires 0 <= i < n => rows[i].costs.light) == LightCosts(rows);
    assert seq(n, i requires 0 <= i < n => rows[i].costs.At(sel[i])) == ChosenCosts(rows, sel);
    assert seq(n, i requires 0 <= i < n => if sel[i] == Axk1Think then rows[i].costs.high else 0.0)
        == HighCosts(rows, sel);
    var light, room := LightTotal(rows), (s.budgetMultiplier - 1.0) * s.safetyRatio;
    CapInCosts(light, Total(rows, sel), HighTotal(rows, sel), room, s.highCapRatio);
    ScaledOrder((s.budgetMultiplier - 1.0) * s.shareRatio, BoundExcess(rows, sel), light);
  }

  // ---- the answer -----------------------------------------------------------------------------------------

  ghost predicate IsAllLight(rows: seq<Row>, sel: seq<Model>) {
    |sel| == |rows| && forall i :: 0 <= i < |sel| ==> sel[i] == Ax31Light
  }

  /** Best at a penalty that keeps the constraints, while one barely below it breaks them; or all light,
      because even the largest penalty breaks them. */
  ghost predicate PricedJustEnough(rows: seq<Row>, s: Settings, result: seq<Model>) {
    || (exists low: real, p: real, below: seq<Model> ::
          && Best(rows, s, low, below) && Best(rows, s, p, result)
          && 0.0 <= low < p && (p - low) * TWO_TO_40 <= Max(1.0, p)
          && !WithinTier(rows, s, below) && WithinTier(rows, s, result))
    || (exists top: seq<Model> ::
          Best(rows, s, TWO_TO_40, top) && !WithinTier(rows, s, top) && IsAllLight(rows, result))
  }

  /** The router's assignment. It keeps the three constraints exactly if the tier leaves room for any; it is
      the unpenalised best assignment if that keeps them, and is otherwise priced just enough. */
  lemma AllocationExactly(rows: seq<Row>, s: Settings, free: seq<Model>)
    requires Priced(rows) && |rows| > 0 && Best(rows, s, 0.0, free)
    ensures var result := Allocation(rows, s, 40);
            && (WithinTier(rows, s, result) <==> LeavesRoom(s))
            && if WithinTier(rows, s, free) then result == free else PricedJustEnough(rows, s, result)
  {
    hide Best, WithinTier, Violates, Choice, Pow2, Widen, Halve;
    var result, v, p := Allocation(rows, s, 40), ViolatesAt(rows, s), Penalty(rows, s, 40);
    BestExactly(rows, s, 0.0, free);
    ResultFeasibleExactly(rows, s, 40, free);
    WithinExactly(rows, s, result);
    WithinExactly(rows, s, free);
    if v(0.0) {
      FinalBracketFacts(v, LIMIT, 40);
      var low := FinalBracket(v, LIMIT, 40).low;
      var below, at := Choice(rows, s, low), Choice(rows, s, p);
      BestExactly(rows, s, low, below);
      BestExactly(rows, s, p, at);
      WithinExactly(rows, s, below);
      WithinExactly(rows, s, at);
      Pow2Values();
    }
  }
}
