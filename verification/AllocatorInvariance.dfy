/** What the shipped allocator's answer does not depend on: row order and the level of predicted cost. */
module AllocatorInvariance {
  import opened RealSums
  import opened Permutations
  import opened Models
  import opened PenaltyBisection
  import opened TeamAllocator

  /** Two batches whose choices and verdicts correspond at every penalty are allocated alike. */
  lemma SamePenalty(rows: seq<Row>, rows': seq<Row>, s: Settings, iterations: nat)
    requires Priced(rows) && Priced(rows')
    requires forall p :: p >= 0.0 ==> ViolatesAt(rows, s)(p) == ViolatesAt(rows', s)(p)
    ensures Penalty(rows, s, iterations) == Penalty(rows', s, iterations) >= 0.0
    ensures FallsBack(rows, s, iterations) == FallsBack(rows', s, iterations)
  {
    hide Violates, Choice, Pow2, Widen, Halve;
    var v := ViolatesAt(rows, s);
    SearchExtensional(v, ViolatesAt(rows', s), LIMIT, iterations);
    if v(0.0) {
      FinalBracketFacts(v, LIMIT, iterations);
    }
  }

  // ---- row order ----------------------------------------------------------------------------------

  lemma TotalsPermute(rows: seq<Row>, s: Settings, sel: seq<Model>, p: seq<nat>)
    requires Priced(rows) && |sel| == |rows| && IsPermutation(p, |rows|)
    ensures Priced(Permute(rows, p))
    ensures LightTotal(Permute(rows, p)) == LightTotal(rows)
    ensures RankLightTotal(Permute(rows, p)) == RankLightTotal(rows)
    ensures Violates(Permute(rows, p), s, Permute(sel, p)) == Violates(rows, s, sel)
  {
    hide Sum;
    var rows', sel' := Permute(rows, p), Permute(sel, p);
    TotalsPositive(rows);
    SumPermute(LightCosts(rows), p);
    assert LightCosts(rows') == Permute(LightCosts(rows), p);
    SumPermute(RankLightCosts(rows), p);
    assert RankLightCosts(rows') == Permute(RankLightCosts(rows), p);
    SumPermute(ChosenCosts(rows, sel), p);
    assert ChosenCosts(rows', sel') == Permute(ChosenCosts(rows, sel), p);
    SumPermute(HighCosts(rows, sel), p);
    assert HighCosts(rows', sel') == Permute(HighCosts(rows, sel), p);
    SumPermute(BoundTerms(rows, sel), p);
    assert BoundTerms(rows', sel') == Permute(BoundTerms(rows, sel), p);
  }

  lemma ChoicePermutes(rows: seq<Row>, s: Settings, penalty: real, p: seq<nat>)
    requires Priced(rows) && IsPermutation(p, |rows|)
    ensures Priced(Permute(rows, p))
    ensures Choice(Permute(rows, p), s, penalty) == Permute(Choice(rows, s, penalty), p)
  {
    hide Pick, Violates;
    TotalsPermute(rows, s, Choice(rows, s, penalty), p);
  }

  /** Rearranging the rows rearranges the allocation in the same way. */
  lemma AllocationPermutes(rows: seq<Row>, s: Settings, iterations: nat, p: seq<nat>)
    requires Priced(rows) && IsPermutation(p, |rows|)
    ensures Priced(Permute(rows, p))
    ensures Allocation(Permute(rows, p), s, iterations) == Permute(Allocation(rows, s, iterations), p)
  {
    hide Violates, Choice;
    var rows' := Permute(rows, p);
    TotalsPermute(rows, s, AllLight(|rows|), p);
    forall q | q >= 0.0
      ensures ViolatesAt(rows, s)(q) == ViolatesAt(rows', s)(q)
    {
      ChoicePermutes(rows, s, q, p);
      TotalsPermute(rows, s, Choice(rows, s, q), p);
    }
    SamePenalty(rows, rows', s, iterations);
    ChoicePermutes(rows, s, Penalty(rows, s, iterations), p);
    assert AllLight(|rows|) == Permute(AllLight(|rows|), p);
  }

  // ---- cost level ---------------------------------------------------------------------------------

  function ScaledCosts(k: real, c: PerModel<real>): PerModel<real> {
    PerModel(k * c.light, k * c.mid, k * c.high)
  }

  /** Every budget cost multiplied by `k`, every ranking cost by `r`. */
  function Rescale(rows: seq<Row>, k: real, r: real): seq<Row> {
    seq(|rows|, i requires 0 <= i < |rows| =>
      Row(rows[i].scores, ScaledCosts(k, rows[i].costs), ScaledCosts(r, rows[i].rankCosts)))
  }

  lemma ScaledCostsIncrease(k: real, c: PerModel<real>)
    requires k > 0.0 && StrictlyIncreasing(c)
    ensures StrictlyIncreasing(ScaledCosts(k, c))
  {
    assert 0.0 < k * c.light;
    assert k * c.light < k * c.mid;
    assert k * c.mid < k * c.high;
  }

  lemma RescalePriced(rows: seq<Row>, k: real, r: real)
    requires Priced(rows) && k > 0.0 && r > 0.0
    ensures Priced(Rescale(rows, k, r))
  {
    forall i | 0 <= i < |rows|
      ensures StrictlyIncreasing(Rescale(rows, k, r)[i].costs) && StrictlyIncreasing(Rescale(rows, k, r)[i].rankCosts)
    {
      ScaledCostsIncrease(k, rows[i].costs);
      ScaledCostsIncrease(r, rows[i].rankCosts);
    }
  }

  lemma ScaledLightCosts(rows: seq<Row>, k: real, r: real)
    ensures forall i :: 0 <= i < |rows| ==> LightCosts(Rescale(rows, k, r))[i] == k * LightCosts(rows)[i]
    ensures forall i :: 0 <= i < |rows| ==> RankLightCosts(Rescale(rows, k, r))[i] == r * RankLightCosts(rows)[i]
  {
  }

  lemma QuotientCancels(k: real, x: real, y: real)
    requires k > 0.0 && y > 0.0
    ensures k * y > 0.0 && (k * x) / (k * y) == x / y
  {
    var q := x / y;
    assert q * y == x;
    assert q * (k * y) == k * (q * y);
  }

  lemma ValueRescales(row: Row, s: Settings, total: real, penalty: real, m: Model, k: real, r: real)
    requires total > 0.0 && r > 0.0
    ensures r * total > 0.0
    ensures Value(Row(row.scores, ScaledCosts(k, row.costs), ScaledCosts(r, row.rankCosts)), s, r * total, penalty, m)
         == Value(row, s, total, penalty, m)
  {
    var a := penalty * s.risk.At(m);
    var c := row.rankCosts.At(m);
    QuotientCancels(r, a * c, total);
    assert a * (r * c) == r * (a * c);
  }

  lemma PickRescales(row: Row, row': Row, s: Settings, total: real, total': real, penalty: real)
    requires total > 0.0 && total' > 0.0
    requires forall m: Model :: Value(row', s, total', penalty, m) == Value(row, s, total, penalty, m)
    ensures Pick(row', s, total', penalty) == Pick(row, s, total, penalty)
  {
    hide Value;
  }

  lemma ChoiceRescales(rows: seq<Row>, s: Settings, penalty: real, k: real, r: real)
    requires Priced(rows) && k > 0.0 && r > 0.0
    ensures Priced(Rescale(rows, k, r))
    ensures Choice(Rescale(rows, k, r), s, penalty) == Choice(rows, s, penalty)
  {
    hide Sum, Value, Pick, ScaledCosts;
    var rows' := Rescale(rows, k, r);
    RescalePriced(rows, k, r);
    TotalsPositive(rows);
    ScaledLightCosts(rows, k, r);
    SumScale(r, RankLightCosts(rows), RankLightCosts(rows'));
    var total := RankLightTotal(rows);
    assert RankLightTotal(rows') == r * total;
    forall i | 0 <= i < |rows|
      ensures Pick(rows'[i], s, RankLightTotal(rows'), penalty) == Pick(rows[i], s, total, penalty)
    {
      forall m: Model
        ensures Value(rows'[i], s, r * total, penalty, m) == Value(rows[i], s, total, penalty, m)
      {
        ValueRescales(rows[i], s, total, penalty, m, k, r);
      }
      assert r * total > 0.0;
      PickRescales(rows[i], rows'[i], s, total, r * total, penalty);
    }
  }

  lemma ScaledComparison(k: real, x: real, y: real)
    requires k > 0.0
    ensures k * x > k * y <==> x > y
  {
    if x > y {
      assert k * (x - y) > 0.0;
    } else {
      assert k * (y - x) >= 0.0;
    }
  }

  lemma CapRescales(k: real, light: real, room: real, share: real)
    ensures (k * light) * room == k * (light * room)
    ensures (k * light) * room * share == k * (light * room * share)
  {
    var cap := light * room;
    assert (k * light) * room == k * cap;
    assert (k * cap) * share == k * (cap * share);
  }

  lemma SumsRescale(rows: seq<Row>, sel: seq<Model>, k: real, r: real)
    requires Priced(rows) && |sel| == |rows| && k > 0.0 && r > 0.0
    ensures Priced(Rescale(rows, k, r))
    ensures LightTotal(Rescale(rows, k, r)) == k * LightTotal(rows)
    ensures Total(Rescale(rows, k, r), sel) == k * Total(rows, sel)
    ensures HighTotal(Rescale(rows, k, r), sel) == k * HighTotal(rows, sel)
  {
    hide Sum, Priced;
    var rows' := Rescale(rows, k, r);
    RescalePriced(rows, k, r);
    SumScale(k, LightCosts(rows), LightCosts(rows'));
    SumScale(k, ChosenCosts(rows, sel), ChosenCosts(rows', sel));
    SumScale(k, HighCosts(rows, sel), HighCosts(rows', sel));
  }

  lemma ExcessRescales(rows: seq<Row>, sel: seq<Model>, k: real, r: real)
    requires Priced(rows) && |sel| == |rows| && k > 0.0 && r > 0.0
    ensures Priced(Rescale(rows, k, r))
    ensures BoundExcess(Rescale(rows, k, r), sel) == BoundExcess(rows, sel)
  {
    hide Sum, Total, HighTotal, LightTotal, Priced;
    var rows' := Rescale(rows, k, r);
    SumsRescale(rows, sel, k, r);
    TotalsPositive(rows);
    forall i | 0 <= i < |rows|
      ensures BoundTerms(rows', sel)[i] == BoundTerms(rows, sel)[i]
    {
      QuotientCancels(k, rows[i].costs.light, LightTotal(rows));
    }
    assert BoundTerms(rows', sel) == BoundTerms(rows, sel);
  }

  lemma VerdictRescales(rows: seq<Row>, s: Settings, sel: seq<Model>, k: real, r: real)
    requires Priced(rows) && |sel| == |rows| && k > 0.0 && r > 0.0
    ensures Priced(Rescale(rows, k, r))
    ensures Violates(Rescale(rows, k, r), s, sel) == Violates(rows, s, sel)
  {
    hide Sum, Total, HighTotal, LightTotal, BoundExcess, Rescale;
    SumsRescale(rows, sel, k, r);
    ExcessRescales(rows, sel, k, r);
    CapRescales(k, LightTotal(rows), 1.0 + (s.budgetMultiplier - 1.0) * s.safetyRatio, s.highCapRatio);
    ScaledComparison(k, Total(rows, sel), Cap(rows, s));
    ScaledComparison(k, HighTotal(rows, sel), Cap(rows, s) * s.highCapRatio);
  }

  /** The global level of either cost prediction cancels: rescaling all budget costs and all ranking
      costs by positive factors changes no selection. */
  lemma AllocationIgnoresCostLevel(rows: seq<Row>, s: Settings, iterations: nat, k: real, r: real)
    requires Priced(rows) && k > 0.0 && r > 0.0
    ensures Priced(Rescale(rows, k, r))
    ensures Allocation(Rescale(rows, k, r), s, iterations) == Allocation(rows, s, iterations)
  {
    hide Violates, Choice, Rescale;
    var rows' := Rescale(rows, k, r);
    RescalePriced(rows, k, r);
    ChoiceRescales(rows, s, 0.0, k, r);
    forall q | q >= 0.0
      ensures ViolatesAt(rows, s)(q) == ViolatesAt(rows', s)(q)
    {
      ChoiceRescales(rows, s, q, k, r);
      VerdictRescales(rows, s, Choice(rows, s, q), k, r);
    }
    SamePenalty(rows, rows', s, iterations);
    ChoiceRescales(rows, s, Penalty(rows, s, iterations), k, r);
  }
}
