/** Ranking of submissions with equal scores by their latency: rounding to timer ticks, the median, the ranks,
    and the rotation that decides who is measured when. */
module Tiebreak {
  import opened Options
  import opened KeySort
  import opened Permutations

  // ---- rounding -----------------------------------------------------------------------------------------

  /** `_comparison_time_ns`, which refuses negative times and resolutions below one nanosecond. */
  function ComparisonTime(elapsed: int, resolution: int): Option<nat> {
    if elapsed < 0 || resolution < 1 then None
    else Some(Tick(elapsed, resolution))
  }

  function Tick(elapsed: nat, resolution: nat): nat
    requires resolution >= 1
  {
    (elapsed + resolution / 2) / resolution * resolution
  }

  function Distance(a: int, b: int): nat {
    if a < b then b - a else a - b
  }

  lemma TickQuotient(elapsed: nat, resolution: nat) returns (k: nat)
    requires resolution >= 1
    ensures Tick(elapsed, resolution) == k * resolution
    ensures k * resolution <= elapsed + resolution / 2 < k * resolution + resolution
  {
    k := (elapsed + resolution / 2) / resolution;
  }

  lemma {:induction false} MultiplesApart(j: nat, k: nat, resolution: nat)
    requires j < k
    ensures j * resolution + resolution <= k * resolution
  {
    if k > j + 1 {
      MultiplesApart(j, k - 1, resolution);
    }
    assert k * resolution == (k - 1) * resolution + resolution;
  }

  /** The comparison time is a whole number of ticks, at most half a tick away and never half a tick below,
      and no number of ticks is nearer. */
  lemma TickIsNearest(elapsed: nat, resolution: nat, other: nat) returns (ticks: nat)
    requires resolution >= 1
    ensures Tick(elapsed, resolution) == ticks * resolution
    ensures 2 * Distance(Tick(elapsed, resolution), elapsed) <= resolution
    ensures Distance(Tick(elapsed, resolution), elapsed) <= Distance(other * resolution, elapsed)
    ensures 2 * (elapsed - Tick(elapsed, resolution)) < resolution
  {
    ticks := TickQuotient(elapsed, resolution);
    if other < ticks {
      MultiplesApart(other, ticks, resolution);
    } else if ticks < other {
      MultiplesApart(ticks, other, resolution);
    }
  }

  /** Rounding keeps the order, ties only what is less than a tick apart, and separates the rest. */
  lemma TickOrder(a: nat, b: nat, resolution: nat)
    requires resolution >= 1 && a <= b
    ensures Tick(a, resolution) <= Tick(b, resolution)
    ensures b - a >= resolution ==> Tick(a, resolution) < Tick(b, resolution)
  {
    var j := TickQuotient(a, resolution);
    var k := TickQuotient(b, resolution);
    if k < j {
      MultiplesApart(k, j, resolution);
    } else if j < k {
      MultiplesApart(j, k, resolution);
    }
  }

  // ---- median -------------------------------------------------------------------------------------------

  const MEASURED_RUNS: nat := 5

  /** `_median_of_five`. */
  function MedianOfFive(values: seq<int>): Option<nat> {
    if |values| != MEASURED_RUNS || exists i :: 0 <= i < |values| && values[i] < 0 then None
    else
      var keys: seq<nat> := seq(MEASURED_RUNS, i requires 0 <= i < |values| => values[i]);
      Some(keys[SortedRange(keys, MEASURED_RUNS)[MEASURED_RUNS / 2]])
  }

  function Below(values: seq<int>, x: int): set<nat> {
    set i: nat | i < |values| && values[i] < x
  }

  function Above(values: seq<int>, x: int): set<nat> {
    set i: nat | i < |values| && values[i] > x
  }

  lemma {:induction false} SubsetSize(a: set<nat>, b: set<nat>)
    requires a <= b
    ensures |a| <= |b|
    decreases a
  {
    if a != {} {
      var x :| x in a;
      SubsetSize(a - {x}, b - {x});
    }
  }

  /** The median is one of the five values, with at most two below it and at most two above it. */
  lemma MedianSplits(values: seq<int>)
    requires MedianOfFive(values).Some?
    ensures MedianOfFive(values).value in values
    ensures |Below(values, MedianOfFive(values).value)| <= 2
    ensures |Above(values, MedianOfFive(values).value)| <= 2
  {
    hide SortedRange;
    var keys: seq<nat> := seq(MEASURED_RUNS, i requires 0 <= i < |values| => values[i]);
    var order := SortedRange(keys, MEASURED_RUNS);
    var m := MedianOfFive(values).value;
    assert m == keys[order[2]] == values[order[2]];
    forall i: nat | i < |values|
      ensures values[i] < m ==> i in {order[0], order[1]}
      ensures values[i] > m ==> i in {order[3], order[4]}
    {
      assert i in order;
      var q :| 0 <= q < 5 && order[q] == i;
      assert keys[i] == values[i];
    }
    SubsetSize(Below(values, m), {order[0], order[1]});
    SubsetSize(Above(values, m), {order[3], order[4]});
  }

  // ---- ranks --------------------------------------------------------------------------------------------

  /** The candidates with a strictly smaller comparison time. */
  function Faster(times: seq<nat>, candidate: nat): set<nat>
    requires candidate < |times|
  {
    set i: nat | i < |times| && times[i] < times[candidate]
  }

  function Entries(order: seq<nat>): set<nat> {
    set k | k in order
  }

  ghost predicate Distinct(order: seq<nat>) {
    forall i, j :: 0 <= i < j < |order| ==> order[i] != order[j]
  }

  lemma {:induction false} EntriesSize(order: seq<nat>)
    requires Distinct(order)
    ensures |Entries(order)| == |order|
  {
    if order != [] {
      var init, last := order[..|order| - 1], order[|order| - 1];
      EntriesSize(init);
      assert order == init + [last];
      assert Entries(order) == Entries(init) + {last};
    }
  }

  lemma PrefixOfPermutation(order: seq<nat>, n: nat, p: nat)
    requires IsPermutation(order, n) && p < n
    ensures Distinct(order[..p])
    ensures forall k: nat :: k in order[..p] ==> k < n
  {
  }

  /** Where a new time begins in the sorted order, everyone before is faster and no one else. */
  lemma FasterIsPrefix(times: seq<nat>, order: seq<nat>, p: nat, k: nat)
    requires IsPermutation(order, |times|) && KeyOrdered(times, order) && p < |order| && k < |times|
    requires p == 0 || times[order[p - 1]] != times[order[p]]
    ensures times[k] < times[order[p]] <==> k in order[..p]
  {
    assert k in order;
    var q :| 0 <= q < |order| && order[q] == k;
    if q < p {
      assert order[..p][q] == k;
      assert times[order[q]] <= times[order[p - 1]];
    }
  }

  lemma FirstOfItsTime(times: seq<nat>, order: seq<nat>, p: nat)
    requires IsPermutation(order, |times|) && KeyOrdered(times, order) && p < |order|
    requires p == 0 || times[order[p - 1]] != times[order[p]]
    ensures |Faster(times, order[p])| == p
  {
    hide IsPermutation, KeyOrdered, Distinct;
    PermutationRange(order, |times|, p);
    PrefixOfPermutation(order, |times|, p);
    EntriesSize(order[..p]);
    forall k: nat | k < |times|
      ensures times[k] < times[order[p]] <==> k in order[..p]
    {
      FasterIsPrefix(times, order, p, k);
    }
    assert Faster(times, order[p]) == Entries(order[..p]);
  }

  lemma PermutationRange(order: seq<nat>, n: nat, p: nat)
    requires IsPermutation(order, n) && p < |order|
    ensures |order| == n && order[p] < n
  {
  }

  lemma SameTimeSameFaster(times: seq<nat>, a: nat, b: nat)
    requires a < |times| && b < |times| && times[a] == times[b]
    ensures Faster(times, a) == Faster(times, b)
  {
  }

  /** Every total has a comparison time. */
  predicate Comparable(totals: seq<int>, resolution: int) {
    forall i :: 0 <= i < |totals| ==> ComparisonTime(totals[i], resolution).Some?
  }

  function Times(totals: seq<int>, resolution: int): (times: seq<nat>)
    requires Comparable(totals, resolution)
    ensures |times| == |totals|
    ensures forall i :: 0 <= i < |totals| ==> times[i] == ComparisonTime(totals[i], resolution).value
  {
    seq(|totals|, i requires 0 <= i < |totals| => ComparisonTime(totals[i], resolution).value)
  }

  lemma ComparableExactly(totals: seq<int>, resolution: int)
    ensures Comparable(totals, resolution)
       <==> |totals| == 0 || (resolution >= 1 && forall i :: 0 <= i < |totals| ==> totals[i] >= 0)
    ensures Comparable(totals, resolution) ==>
              forall i :: 0 <= i < |totals| ==> Times(totals, resolution)[i] == Tick(totals[i], resolution)
  {
    forall i | 0 <= i < |totals|
      ensures ComparisonTime(totals[i], resolution).Some? <==> totals[i] >= 0 && resolution >= 1
    {
    }
    if Comparable(totals, resolution) && |totals| > 0 {
      assert ComparisonTime(totals[0], resolution).Some?;
    }
  }

  /** The candidates as the rows list them, and the rank of each candidate. */
  datatype Ranking = Ranking(order: seq<nat>, ranks: seq<nat>)

  /** `_rank_candidates`, with the candidates numbered in the order of their submission ids. It refuses
      exactly what `_comparison_time_ns` refuses. The rows come by comparison time and then by id, and a rank
      is one more than the number of faster candidates. */
  method RankCandidates(totals: seq<int>, resolution: int) returns (ranking: Option<Ranking>)
    ensures ranking.Some? <==> |totals| == 0 || (resolution >= 1 && forall i :: 0 <= i < |totals| ==> totals[i] >= 0)
    ensures ranking.Some? ==>
              var times := Times(totals, resolution);
              var Ranking(order, ranks) := ranking.value;
              && (forall i :: 0 <= i < |totals| ==> times[i] == Tick(totals[i], resolution))
              && IsPermutation(order, |totals|) && KeyOrdered(times, order)
              && |ranks| == |totals|
              && forall i :: 0 <= i < |totals| ==> ranks[i] == 1 + |Faster(times, i)|
  {
    hide SortedRange, Faster, ComparisonTime, Tick;
    ComparableExactly(totals, resolution);
    var times: seq<nat> := [];
    for i := 0 to |totals|
      invariant |times| == i
      invariant forall k :: 0 <= k < i ==> ComparisonTime(totals[k], resolution) == Some(times[k])
    {
      var time := ComparisonTime(totals[i], resolution);
      if time.None? {
        assert !Comparable(totals, resolution);
        return None;
      }
      times := times + [time.value];
    }
    assert Comparable(totals, resolution);
    assert times == Times(totals, resolution);
    var order := SortedRange(times, |times|);
    var ranks := AssignRanks(times, order);
    ranking := Some(Ranking(order, ranks));
  }

  /** The loop over the sorted rows. */
  method AssignRanks(times: seq<nat>, order: seq<nat>) returns (ranks: seq<nat>)
    requires IsPermutation(order, |times|) && KeyOrdered(times, order)
    ensures |ranks| == |times|
    ensures forall i :: 0 <= i < |times| ==> ranks[i] == 1 + |Faster(times, i)|
  {
    hide Faster;
    ranks := seq(|times|, i => 0);
    var previous: Option<nat> := None;
    var currentRank := 0;
    var p := 0;
    while p < |order|
      invariant 0 <= p <= |order| && |ranks| == |times|
      invariant p == 0 ==> previous.None?
      invariant p > 0 ==> previous == Some(times[order[p - 1]]) && currentRank == 1 + |Faster(times, order[p - 1])|
      invariant forall q :: 0 <= q < p ==> ranks[order[q]] == 1 + |Faster(times, order[q])|
    {
      if previous != Some(times[order[p]]) {
        FirstOfItsTime(times, order, p);
        currentRank := p + 1;
        previous := Some(times[order[p]]);
      } else {
        SameTimeSameFaster(times, order[p], order[p - 1]);
      }
      ranks := ranks[order[p] := currentRank];
      p := p + 1;
    }
    forall i | 0 <= i < |times|
      ensures ranks[i] == 1 + |Faster(times, i)|
    {
      assert i in order;
      var q :| 0 <= q < |order| && order[q] == i;
    }
  }

  /** A candidate a full tick slower than another is ranked below it; one that is no slower is not. */
  lemma RanksFollowTotals(totals: seq<int>, resolution: int, a: nat, b: nat)
    requires Comparable(totals, resolution) && a < |totals| && b < |totals|
    ensures var times := Times(totals, resolution);
            && (totals[a] <= totals[b] ==> |Faster(times, a)| <= |Faster(times, b)|)
            && (totals[a] + resolution <= totals[b] ==> |Faster(times, a)| < |Faster(times, b)|)
  {
    var times := Times(totals, resolution);
    if totals[a] <= totals[b] {
      TickOrder(totals[a], totals[b], resolution);
      SubsetSize(Faster(times, a), Faster(times, b));
      if totals[a] + resolution <= totals[b] {
        SubsetSize(Faster(times, a) + {a}, Faster(times, b));
      }
    }
  }

  // ---- rotation -----------------------------------------------------------------------------------------

  /** The order of one round: the list rotated by the round's number. */
  function Rotation<T>(candidates: seq<T>, offset: nat): seq<T>
    requires offset <= |candidates|
  {
    candidates[offset..] + candidates[..offset]
  }

  /** Where candidate `c` comes in a list of `n` rotated by `offset`. */
  function Turn(c: nat, offset: nat, n: nat): nat
    requires c < n && offset < n
  {
    if offset <= c then c - offset else c + n - offset
  }

  function Place(c: nat, r: nat, n: nat): nat
    requires c < n
  {
    Turn(c, r % n, n)
  }

  /** The measuring loops of one tier: in which position of each round every candidate was measured. */
  method MeasureRounds(n: nat, rounds: nat) returns (positions: seq<seq<nat>>)
    requires n >= 1
    ensures |positions| == n
    ensures forall c :: 0 <= c < n ==> |positions[c]| == rounds
    ensures forall c, r :: 0 <= c < n && 0 <= r < rounds ==> positions[c][r] == Place(c, r, n) + 1
    ensures forall c, r :: 0 <= c < n && 0 <= r < rounds ==>
              1 <= positions[c][r] <= n && (positions[c][r] - 1 + r) % n == c
  {
    positions := seq(n, i => []);
    var prepared := seq(n, i => i);
    var r := 0;
    while r < rounds
      invariant 0 <= r <= rounds && |positions| == n
      invariant forall c :: 0 <= c < n ==> |positions[c]| == r
      invariant forall c, q :: 0 <= c < n && 0 <= q < r ==> positions[c][q] == Place(c, q, n) + 1
    {
      var offset := r % n;
      var alternating := Rotation(prepared, offset);
      var p := 0;
      while p < n
        invariant 0 <= p <= n && |positions| == n
        invariant forall c :: 0 <= c < n ==> |positions[c]| == if Place(c, r, n) < p then r + 1 else r
        invariant forall c, q :: 0 <= c < n && 0 <= q < |positions[c]| ==> positions[c][q] == Place(c, q, n) + 1
      {
        var c := alternating[p];
        assert Place(c, r, n) == p;
        positions := positions[c := positions[c] + [p + 1]];
        p := p + 1;
      }
      r := r + 1;
    }
    forall c, r | 0 <= c < n && 0 <= r < rounds
      ensures 1 <= positions[c][r] <= n && (positions[c][r] - 1 + r) % n == c
    {
      PlaceIsRotated(c, r, n);
    }
  }

  /** The candidate in a place of a round is the one that many positions further on. */
  lemma PlaceIsRotated(c: nat, r: nat, n: nat)
    requires c < n
    ensures Place(c, r, n) < n && (Place(c, r, n) + r) % n == c
  {
    var k, m := r / n, r % n;
    assert r == k * n + m;
    if m <= c {
      Divides(Place(c, r, n) + r, k, c, n);
    } else {
      assert Place(c, r, n) + r == (k + 1) * n + c;
      Divides(Place(c, r, n) + r, k + 1, c, n);
    }
  }

  /** How often `x` occurs. */
  function Count(xs: seq<nat>, x: nat): nat {
    if |xs| == 0 then 0 else Count(xs[..|xs| - 1], x) + if xs[|xs| - 1] == x then 1 else 0
  }

  /** The positions of one candidate. */
  ghost predicate Rotates(positions: seq<nat>, c: nat, n: nat)
    requires c < n
  {
    forall r :: 0 <= r < |positions| ==> positions[r] == Place(c, r, n) + 1
  }

  lemma TurnSymmetric(c: nat, offset: nat, n: nat, p: nat)
    requires c < n && offset < n && p < n
    ensures Turn(c, offset, n) < n
    ensures Turn(c, offset, n) == p <==> offset == Turn(c, p, n)
  {
  }

  /** One more number divided by `n`. */
  lemma NextQuotient(r: nat, n: nat)
    requires n >= 1
    ensures r % n + 1 < n ==> (r + 1) / n == r / n && (r + 1) % n == r % n + 1
    ensures r % n + 1 == n ==> (r + 1) / n == r / n + 1 && (r + 1) % n == 0
  {
    var k, m := r / n, r % n;
    assert r == k * n + m;
    if m + 1 < n {
      Divides(r + 1, k, m + 1, n);
    } else {
      assert r + 1 == (k + 1) * n;
      Divides(r + 1, k + 1, 0, n);
    }
  }

  lemma Divides(x: nat, k: nat, m: nat, n: nat)
    requires n >= 1 && m < n && x == k * n + m
    ensures x / n == k && x % n == m
  {
    var j := x / n;
    assert x == j * n + x % n;
    if j < k {
      MultiplesApart(j, k, n);
    } else if k < j {
      MultiplesApart(k, j, n);
    }
  }

  /** Over any number of rounds a candidate is measured in every position equally often, give or take one. */
  lemma {:induction false} PositionsEven(positions: seq<nat>, c: nat, n: nat, p: nat)
    requires c < n && p < n && Rotates(positions, c, n)
    ensures Count(positions, p + 1) == |positions| / n + if Turn(c, p, n) < |positions| % n then 1 else 0
  {
    if |positions| == 0 {
      Divides(0, 0, 0, n);
    } else {
      var r := |positions| - 1;
      PositionsEven(positions[..r], c, n, p);
      TurnSymmetric(c, r % n, n, p);
      NextQuotient(r, n);
    }
  }
}
