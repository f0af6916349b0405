/** The secret audit: episodes keep their content, identifiers and order are scrambled, and a router
    that reads content alone must repeat every choice. */
module IdOrderAudit {
  import opened Models
  import opened Options
  import opened KeySort
  import opened Permutations
  import opened Attempts
  import Team = TeamAllocator
  import Invariance = AllocatorInvariance
  import opened StructuralBudget

  datatype Message = Message(role: string, content: string)

  datatype Content = Prompt(text: string) | Messages(messages: seq<Message>)

  datatype Episode = Episode(id: string, content: Content)

  datatype Domain = IdCycle | Order

  /** The keyed digest of (secret, domain, position, identifier), read as a number; nothing is assumed of it. */
  type Digest = (seq<nat>, Domain, nat, string) -> nat

  datatype Variant = Variant(episodes: seq<Episode>, mapping: seq<(string, string)>)

  datatype VariantResult = Made(variant: Variant) | SecretTooShort

  function Ids(inputs: seq<Episode>): (ids: seq<string>)
    ensures |ids| == |inputs|
  {
    seq(|inputs|, i requires 0 <= i < |inputs| => inputs[i].id)
  }

  // ---- the variant ----------------------------------------------------------------------------------------

  /** The next position around a cycle of `n`. */
  function Succ(k: nat, n: nat): nat {
    if k + 1 < n then k + 1 else 0
  }

  lemma SuccIsMod(k: nat, n: nat)
    requires k < n
    ensures (k + 1) % n == Succ(k, n) < n
  {
  }

  /** `variant` scrambles `inputs`: along `cycle` every episode takes its successor's identifier, and
      `order` lists the positions the rearranged batch takes its contents from. */
  ghost predicate Scrambles(inputs: seq<Episode>, variant: Variant, cycle: seq<nat>, order: seq<nat>) {
    var n := |inputs|;
    && IsPermutation(cycle, n) && IsPermutation(order, n)
    && |variant.mapping| == n && |variant.episodes| == n
    && (forall i :: 0 <= i < n ==> variant.mapping[i].0 == inputs[i].id)
    && (forall k :: 0 <= k < n ==> variant.mapping[cycle[k]].1 == inputs[cycle[Succ(k, n)]].id)
    && (forall k :: 0 <= k < n ==>
          variant.episodes[k] == Episode(variant.mapping[order[k]].1, inputs[order[k]].content))
    && (n > 1 ==> exists k :: 0 <= k < n && order[k] != k)
  }

  /** `order` lists the positions by their digests in one domain, the earlier position first among equals. */
  ghost predicate ByDigest(inputs: seq<Episode>, secret: seq<nat>, digest: Digest, domain: Domain, order: seq<nat>) {
    && IsPermutation(order, |inputs|)
    && forall i, j :: 0 <= i < j < |order| ==>
         var x := digest(secret, domain, order[i], inputs[order[i]].id);
         var y := digest(secret, domain, order[j], inputs[order[j]].id);
         x < y || (x == y && order[i] < order[j])
  }

  function InPlace(n: nat): (order: seq<nat>)
    ensures |order| == n && forall i :: 0 <= i < n ==> order[i] == i
  {
    seq(n, i requires 0 <= i < n => i)
  }

  /** Cycle and order are those of the secret: each sorted by its own digests, the order one position on
      exactly if sorting would leave everything in place. */
  ghost predicate Keyed(inputs: seq<Episode>, secret: seq<nat>, digest: Digest, cycle: seq<nat>, order: seq<nat>) {
    var n := |inputs|;
    && ByDigest(inputs, secret, digest, IdCycle, cycle)
    && (if n > 1 && ByDigest(inputs, secret, digest, Order, InPlace(n))
        then |order| == n && forall k :: 0 <= k < n ==> order[k] == Succ(k, n)
        else ByDigest(inputs, secret, digest, Order, order))
  }

  /** The digests of one domain, by position. */
  function Digests(inputs: seq<Episode>, secret: seq<nat>, digest: Digest, domain: Domain): (keys: seq<nat>)
    ensures |keys| == |inputs|
  {
    seq<nat>(|inputs|, i requires 0 <= i < |inputs| => digest(secret, domain, i, inputs[i].id))
  }

  lemma ByDigestIsSorted(inputs: seq<Episode>, secret: seq<nat>, digest: Digest, domain: Domain, order: seq<nat>)
    ensures ByDigest(inputs, secret, digest, domain, order)
       <==> SortedBy(Digests(inputs, secret, digest, domain), order, |inputs|)
  {
  }

  /** Secret and digest settle cycle and order, hence the variant. */
  lemma KeyedUnique(inputs: seq<Episode>, secret: seq<nat>, digest: Digest, cycle: seq<nat>, order: seq<nat>,
                    cycle': seq<nat>, order': seq<nat>)
    requires Keyed(inputs, secret, digest, cycle, order) && Keyed(inputs, secret, digest, cycle', order')
    ensures cycle == cycle' && order == order'
  {
    hide ByDigest;
    OneByDigest(inputs, secret, digest, IdCycle, cycle, cycle');
    if |inputs| > 1 && ByDigest(inputs, secret, digest, Order, InPlace(|inputs|)) {
      assert order == order';
    } else {
      OneByDigest(inputs, secret, digest, Order, order, order');
    }
  }

  lemma OneByDigest(inputs: seq<Episode>, secret: seq<nat>, digest: Digest, domain: Domain, p: seq<nat>, q: seq<nat>)
    requires ByDigest(inputs, secret, digest, domain, p) && ByDigest(inputs, secret, digest, domain, q)
    ensures p == q
  {
    var n := |inputs|;
    ByDigestIsSorted(inputs, secret, digest, domain, p);
    ByDigestIsSorted(inputs, secret, digest, domain, q);
    SortedUnique(Digests(inputs, secret, digest, domain), p, q, n, n);
    assert p[..n] == p && q[..n] == q;
  }

  /** There is one variant for each batch, secret and digest. */
  lemma VariantDetermined(inputs: seq<Episode>, secret: seq<nat>, digest: Digest, variant: Variant, cycle: seq<nat>,
                          order: seq<nat>, variant': Variant, cycle': seq<nat>, order': seq<nat>)
    requires Keyed(inputs, secret, digest, cycle, order) && Scrambles(inputs, variant, cycle, order)
    requires Keyed(inputs, secret, digest, cycle', order') && Scrambles(inputs, variant', cycle', order')
    ensures variant == variant'
  {
    hide Keyed;
    KeyedUnique(inputs, secret, digest, cycle, order, cycle', order');
    forall i | 0 <= i < |inputs|
      ensures variant.mapping[i] == variant'.mapping[i]
    {
      var k := Comes(cycle, |inputs|, i);
    }
    assert variant.mapping == variant'.mapping;
    assert variant.episodes == variant'.episodes;
  }

  /** The identifiers after the cycle pass. */
  method AssignIds(inputs: seq<Episode>, idCycle: seq<nat>) returns (newIds: seq<string>)
    requires IsPermutation(idCycle, |inputs|)
    ensures |newIds| == |inputs|
    ensures forall k :: 0 <= k < |inputs| ==> newIds[idCycle[k]] == inputs[idCycle[Succ(k, |inputs|)]].id
  {
    newIds := Ids(inputs);
    var n := |inputs|;
    if n > 1 {
      for offset := 0 to n
        invariant |newIds| == n
        invariant forall k :: 0 <= k < offset ==> newIds[idCycle[k]] == inputs[idCycle[Succ(k, n)]].id
      {
        SuccIsMod(offset, n);
        var successor := idCycle[(offset + 1) % n];
        newIds := newIds[idCycle[offset] := inputs[successor].id];
      }
    }
  }

  /** The batch rearranged under its new identifiers, and the mapping from the old ones. */
  function VariantOf(inputs: seq<Episode>, newIds: seq<string>, rows: seq<nat>): Variant
    requires |newIds| == |inputs| && IsPermutation(rows, |inputs|)
  {
    var n := |inputs|;
    Variant(seq(n, k requires 0 <= k < n => Episode(newIds[rows[k]], inputs[rows[k]].content)),
            seq(n, i requires 0 <= i < n => (inputs[i].id, newIds[i])))
  }

  lemma VariantScrambles(inputs: seq<Episode>, newIds: seq<string>, cycle: seq<nat>, rows: seq<nat>)
    requires |newIds| == |inputs| && IsPermutation(cycle, |inputs|) && IsPermutation(rows, |inputs|)
    requires forall k :: 0 <= k < |inputs| ==> newIds[cycle[k]] == inputs[cycle[Succ(k, |inputs|)]].id
    requires |inputs| > 1 ==> exists k :: 0 <= k < |inputs| && rows[k] != k
    ensures Scrambles(inputs, VariantOf(inputs, newIds, rows), cycle, rows)
  {
  }

  lemma IsBatchPermutation(inputs: seq<Episode>, secret: seq<nat>, digest: Digest, domain: Domain, order: seq<nat>)
    requires ByDigest(inputs, secret, digest, domain, order)
    ensures IsPermutation(order, |inputs|)
  {
  }

  lemma RowsAreKeyed(inputs: seq<Episode>, secret: seq<nat>, digest: Digest, cycle: seq<nat>, sorted: seq<nat>)
    requires ByDigest(inputs, secret, digest, IdCycle, cycle) && ByDigest(inputs, secret, digest, Order, sorted)
    requires IsPermutation(sorted, |inputs|)
    ensures Keyed(inputs, secret, digest, cycle, AvoidIdentity(sorted, |inputs|))
  {
    hide ByDigest, AvoidIdentity;
    SortedInPlace(inputs, secret, digest, sorted);
  }

  /** Sorting leaves everything in place exactly if the positions are in the order of their digests. */
  lemma SortedInPlace(inputs: seq<Episode>, secret: seq<nat>, digest: Digest, sorted: seq<nat>)
    requires ByDigest(inputs, secret, digest, Order, sorted)
    ensures sorted == InPlace(|inputs|) <==> ByDigest(inputs, secret, digest, Order, InPlace(|inputs|))
  {
    hide ByDigest;
    if ByDigest(inputs, secret, digest, Order, InPlace(|inputs|)) {
      OneByDigest(inputs, secret, digest, Order, sorted, InPlace(|inputs|));
    }
  }

  /** An order that happens to leave every row in place is rotated by one. */
  function AvoidIdentity(rows: seq<nat>, n: nat): (r: seq<nat>)
    requires IsPermutation(rows, n)
    ensures IsPermutation(r, n)
    ensures n > 1 ==> exists k :: 0 <= k < n && r[k] != k
    ensures if n > 1 && rows == InPlace(n) then forall k :: 0 <= k < n ==> r[k] == Succ(k, n) else r == rows
  {
    if n > 1 && rows == InPlace(n) then
      Rotation(rows, n);
      rows[1..] + rows[..1]
    else rows
  }

  /** Rotating the identity by one leaves a permutation with no position in place. */
  lemma Rotation(rows: seq<nat>, n: nat)
    requires n > 1 && rows == InPlace(n)
    ensures IsPermutation(rows[1..] + rows[..1], n)
    ensures (rows[1..] + rows[..1])[0] != 0
  {
    var rotated := rows[1..] + rows[..1];
    forall k | 0 <= k < n
      ensures k in rotated
    {
      assert rotated[if k == 0 then n - 1 else k - 1] == k;
    }
  }

  /** `make_id_order_audit_variant`, for any keyed digest whatsoever. */
  method MakeVariant(inputs: seq<Episode>, secret: seq<nat>, digest: Digest)
    returns (result: VariantResult, ghost cycle: seq<nat>, ghost order: seq<nat>)
    ensures result.SecretTooShort? <==> |secret| < 16
    ensures result.Made? ==> Scrambles(inputs, result.variant, cycle, order)
    ensures result.Made? ==> Keyed(inputs, secret, digest, cycle, order)
  {
    var n := |inputs|;
    if |secret| < 16 {
      return SecretTooShort, [], [];
    }
    hide *;
    var idCycle := SortedRange(Digests(inputs, secret, digest, IdCycle), n);
    ByDigestIsSorted(inputs, secret, digest, IdCycle, idCycle);
    IsBatchPermutation(inputs, secret, digest, IdCycle, idCycle);
    var newIds := AssignIds(inputs, idCycle);
    var sorted := SortedRange(Digests(inputs, secret, digest, Order), n);
    ByDigestIsSorted(inputs, secret, digest, Order, sorted);
    IsBatchPermutation(inputs, secret, digest, Order, sorted);
    var rows := AvoidIdentity(sorted, n);
    RowsAreKeyed(inputs, secret, digest, idCycle, sorted);
    var variant := VariantOf(inputs, newIds, rows);
    VariantScrambles(inputs, newIds, idCycle, rows);
    return Made(variant), idCycle, rows;
  }

  // ---- how thorough the scramble is ---------------------------------------------------------------------

  /** The cycle position reached from `a` in `k` steps. */
  function After(a: nat, k: nat, n: nat): nat {
    if k == 0 then a else Succ(After(a, k - 1, n), n)
  }

  lemma {:induction false} AfterWraps(a: nat, k: nat, n: nat)
    requires a < n && k <= n
    ensures After(a, k, n) == (if a + k < n then a + k else a + k - n) < n
  {
    if k > 0 {
      AfterWraps(a, k - 1, n);
    }
  }

  lemma HandsOn(inputs: seq<Episode>, variant: Variant, cycle: seq<nat>, order: seq<nat>, b: nat)
    requires Scrambles(inputs, variant, cycle, order) && b < |inputs|
    ensures IsPermutation(cycle, |inputs|) && |cycle| == |variant.mapping| == |inputs|
    ensures Succ(b, |inputs|) < |inputs| && cycle[b] < |inputs| && cycle[Succ(b, |inputs|)] < |inputs|
    ensures variant.mapping[cycle[b]].1 == inputs[cycle[Succ(b, |inputs|)]].id
  {
  }

  lemma MetOnce(cycle: seq<nat>, n: nat, a: nat, b: nat)
    requires IsPermutation(cycle, n) && a < n && b < n
    ensures |cycle| == n && (cycle[a] == cycle[b] <==> a == b)
  {
  }

  /** The identifier map is one n-cycle: followed from any position it hands each identifier on to the
      next, meets no position twice before the n-th step, and is back at the start after exactly n. */
  lemma OneCycle(inputs: seq<Episode>, variant: Variant, cycle: seq<nat>, order: seq<nat>, a: nat, k: nat)
    requires Scrambles(inputs, variant, cycle, order) && a < |inputs| && k <= |inputs|
    ensures var n, here := |inputs|, After(a, k, |inputs|);
            && here < n && Succ(here, n) < n
            && variant.mapping[cycle[here]].1 == inputs[cycle[After(a, k + 1, n)]].id
            && (cycle[here] == cycle[a] <==> k == 0 || k == n)
  {
    hide Scrambles, IsPermutation;
    AfterWraps(a, k, |inputs|);
    HandsOn(inputs, variant, cycle, order, After(a, k, |inputs|));
    HandsOn(inputs, variant, cycle, order, a);
    MetOnce(cycle, |inputs|, a, After(a, k, |inputs|));
  }

  /** Within those n steps the walk meets every position of the batch. */
  lemma CycleReachesAll(cycle: seq<nat>, n: nat, a: nat, i: nat) returns (k: nat)
    requires IsPermutation(cycle, n) && a < n && i < n
    ensures k < n && After(a, k, n) < n && cycle[After(a, k, n)] == i
  {
    assert i in cycle;
    var b :| 0 <= b < n && cycle[b] == i;
    k := if a <= b then b - a else b + n - a;
    AfterWraps(a, k, n);
  }

  lemma Images(inputs: seq<Episode>, variant: Variant, cycle: seq<nat>, order: seq<nat>, i: nat) returns (a: nat)
    requires Scrambles(inputs, variant, cycle, order) && i < |inputs|
    ensures IsPermutation(cycle, |inputs|) && a < |inputs| && cycle[a] == i
    ensures variant.mapping[i].1 == inputs[cycle[Succ(a, |inputs|)]].id
  {
    assert i in cycle;
    a :| 0 <= a < |inputs| && cycle[a] == i;
  }

  lemma DifferentPositions(inputs: seq<Episode>, cycle: seq<nat>, x: nat, y: nat)
    requires IsPermutation(cycle, |inputs|) && Distinct(Ids(inputs))
    requires x < |inputs| && y < |inputs| && x != y
    ensures inputs[cycle[x]].id != inputs[cycle[y]].id
  {
    var ids := Ids(inputs);
    assert cycle[x] != cycle[y];
    assert ids[cycle[x]] != ids[cycle[y]];
  }

  /** No identifier is kept by its episode, and the new identifiers are distinct, so each old one is
      handed out exactly once. */
  lemma NoFixedPoint(inputs: seq<Episode>, variant: Variant, cycle: seq<nat>, order: seq<nat>)
    requires Scrambles(inputs, variant, cycle, order) && Distinct(Ids(inputs)) && |inputs| > 1
    ensures forall i :: 0 <= i < |inputs| ==> variant.mapping[i].1 != inputs[i].id
    ensures forall i, j :: 0 <= i < j < |inputs| ==> variant.mapping[i].1 != variant.mapping[j].1
  {
    forall i | 0 <= i < |inputs|
      ensures variant.mapping[i].1 != inputs[i].id
    {
      var a := Images(inputs, variant, cycle, order, i);
      DifferentPositions(inputs, cycle, a, Succ(a, |inputs|));
    }
    forall i, j | 0 <= i < j < |inputs|
      ensures variant.mapping[i].1 != variant.mapping[j].1
    {
      DistinctImages(inputs, variant, cycle, order, i, j);
    }
  }

  lemma DistinctImages(inputs: seq<Episode>, variant: Variant, cycle: seq<nat>, order: seq<nat>, i: nat, j: nat)
    requires Scrambles(inputs, variant, cycle, order) && Distinct(Ids(inputs)) && i < j < |inputs|
    ensures variant.mapping[i].1 != variant.mapping[j].1
  {
    hide Scrambles, IsPermutation;
    var a := Images(inputs, variant, cycle, order, i);
    var b := Images(inputs, variant, cycle, order, j);
    DifferentPositions(inputs, cycle, Succ(a, |inputs|), Succ(b, |inputs|));
  }

  // ---- the comparison -----------------------------------------------------------------------------------

  datatype Mismatch = Mismatch(originalId: string, auditId: string, officialModel: Model, auditModel: Model)

  datatype AuditStatus = Passed | ReviewRequired | InconclusiveInfrastructure

  datatype AuditOutcome = AuditOutcome(
    status: AuditStatus,
    history: seq<AttemptResult>,
    infrastructureFailures: nat,
    mismatches: seq<Mismatch>)

  ghost predicate CoversMapping(variant: Variant, official: Submission, audit: Submission) {
    forall i :: 0 <= i < |variant.mapping| ==> variant.mapping[i].0 in official && variant.mapping[i].1 in audit
  }

  /** The pairs of the mapping on which the two submissions differ, in order. */
  function Differences(mapping: seq<(string, string)>, official: Submission, audit: Submission): (r: seq<Mismatch>)
    requires forall i :: 0 <= i < |mapping| ==> mapping[i].0 in official && mapping[i].1 in audit
    ensures r == [] <==> forall i :: 0 <= i < |mapping| ==> official[mapping[i].0] == audit[mapping[i].1]
    ensures forall x :: x in r ==> (x.originalId, x.auditId) in mapping && x.officialModel != x.auditModel
    ensures forall x :: x in r ==>
              && x.originalId in official && x.officialModel == official[x.originalId]
              && x.auditId in audit && x.auditModel == audit[x.auditId]
  {
    if |mapping| == 0 then []
    else
      var n := |mapping| - 1;
      var (original, other) := mapping[n];
      var earlier := Differences(mapping[..n], official, audit);
      if official[original] != audit[other]
      then earlier + [Mismatch(original, other, official[original], audit[other])]
      else earlier
  }

  /** `r` lists the pairs at the places `at`, which are those on which the submissions differ, in order. */
  ghost predicate ListsAt(mapping: seq<(string, string)>, official: Submission, audit: Submission, r: seq<Mismatch>,
                          at: seq<nat>)
    requires forall i :: 0 <= i < |mapping| ==> mapping[i].0 in official && mapping[i].1 in audit
  {
    && |at| == |r|
    && (forall k :: 0 <= k < |at| ==> at[k] < |mapping| && (r[k].originalId, r[k].auditId) == mapping[at[k]])
    && (forall k, l :: 0 <= k < l < |at| ==> at[k] < at[l])
    && (forall i :: 0 <= i < |mapping| ==> (i in at <==> official[mapping[i].0] != audit[mapping[i].1]))
  }

  lemma ListsOneMore(mapping: seq<(string, string)>, official: Submission, audit: Submission, r: seq<Mismatch>,
                     at: seq<nat>, x: Mismatch)
    requires |mapping| > 0
    requires forall i :: 0 <= i < |mapping| ==> mapping[i].0 in official && mapping[i].1 in audit
    requires ListsAt(mapping[..|mapping| - 1], official, audit, r, at)
    requires (x.originalId, x.auditId) == mapping[|mapping| - 1]
    ensures var last := mapping[|mapping| - 1];
            if official[last.0] != audit[last.1]
            then ListsAt(mapping, official, audit, r + [x], at + [|mapping| - 1])
            else ListsAt(mapping, official, audit, r, at)
  {
    var n := |mapping| - 1;
    forall i | 0 <= i < n
      ensures mapping[..n][i] == mapping[i]
    {
    }
    assert forall k :: 0 <= k < |at| ==> mapping[..n][at[k]] == mapping[at[k]];
    if official[mapping[n].0] != audit[mapping[n].1] {
      var more := at + [n];
      assert forall i :: i in more <==> i in at || i == n;
    }
  }

  /** Every differing pair is listed once, in the order of the mapping. */
  lemma {:induction false} DifferencesInOrder(mapping: seq<(string, string)>, official: Submission, audit: Submission)
      returns (at: seq<nat>)
    requires forall i :: 0 <= i < |mapping| ==> mapping[i].0 in official && mapping[i].1 in audit
    ensures ListsAt(mapping, official, audit, Differences(mapping, official, audit), at)
  {
    at := [];
    if |mapping| > 0 {
      hide ListsAt;
      var n := |mapping| - 1;
      at := DifferencesInOrder(mapping[..n], official, audit);
      var (original, other) := mapping[n];
      var last := Mismatch(original, other, official[original], audit[other]);
      ListsOneMore(mapping, official, audit, Differences(mapping[..n], official, audit), at, last);
      if official[original] != audit[other] {
        at := at + [n];
      }
    }
  }

  /** A valid result was validated against the variant: it decides every audit identifier. */
  ghost predicate Validated(result: AttemptResult, variant: Variant, official: Submission) {
    result.kind.Valid? && result.submission.Some? ==> CoversMapping(variant, official, result.submission.value)
  }

  /** The runs before the last were repeatable operator failures. */
  ghost predicate OnlyInfrastructure(history: seq<AttemptResult>) {
    forall i :: 0 <= i < |history| ==> history[i].kind.InfrastructureFailure? && !history[i].cleanupPending
  }

  /** What the last of `n` runs makes of the audit. */
  ghost predicate Concludes(variant: Variant, official: Submission, last: AttemptResult, n: nat, maxInfrastructure: int,
                            o: AuditOutcome) {
    && Validated(last, variant, official)
    && (o.status.InconclusiveInfrastructure? <==> last.kind.InfrastructureFailure?)
    && (last.kind.InfrastructureFailure? ==> last.cleanupPending || n == maxInfrastructure)
    && (o.status.Passed? <==>
          last.kind.Valid? && last.submission.Some?
          && Differences(variant.mapping, official, last.submission.value) == [])
    && (last.kind.Valid? && last.submission.Some? ==>
          o.mismatches == Differences(variant.mapping, official, last.submission.value))
    && (!last.kind.Valid? ==> o.mismatches == [])
    && o.infrastructureFailures == n - 1 + Truth(last.kind.InfrastructureFailure?)
  }

  /** Everything the audit's outcome must be answerable for. */
  ghost predicate Audited(variant: Variant, official: Submission, attempt: nat -> AttemptResult, maxInfrastructure: int,
                          o: AuditOutcome) {
    && 0 < |o.history| <= maxInfrastructure && OnlyInfrastructure(o.history[..|o.history| - 1])
    && (forall i :: 0 <= i < |o.history| ==> o.history[i] == attempt(i + 1))
    && Concludes(variant, official, attempt(|o.history|), |o.history|, maxInfrastructure, o)
  }

  /** The runs so far were operator failures. */
  ghost predicate Unfinished(attempt: nat -> AttemptResult, history: seq<AttemptResult>) {
    OnlyInfrastructure(history) && forall i :: 0 <= i < |history| ==> history[i] == attempt(i + 1)
  }

  lemma NothingYet(attempt: nat -> AttemptResult)
    ensures Unfinished(attempt, [])
  {
  }

  lemma OneMoreFailure(attempt: nat -> AttemptResult, history: seq<AttemptResult>)
    requires Unfinished(attempt, history)
    requires attempt(|history| + 1).kind.InfrastructureFailure? && !attempt(|history| + 1).cleanupPending
    ensures Unfinished(attempt, history + [attempt(|history| + 1)])
  {
  }

  lemma LastRun(variant: Variant, official: Submission, attempt: nat -> AttemptResult, maxInfrastructure: int,
                earlier: seq<AttemptResult>, o: AuditOutcome)
    requires Unfinished(attempt, earlier) && |earlier| < maxInfrastructure
    requires o.history == earlier + [attempt(|earlier| + 1)]
    requires Concludes(variant, official, attempt(|earlier| + 1), |earlier| + 1, maxInfrastructure, o)
    ensures Audited(variant, official, attempt, maxInfrastructure, o)
  {
    hide Concludes;
    assert o.history[..|o.history| - 1] == earlier;
  }

  /** `run_id_order_audit`'s loop. `attempt` answers the run numbered one above the failures so far. */
  method RunAudit(variant: Variant, official: Submission, attempt: nat -> AttemptResult, maxInfrastructure: int)
    returns (o: AuditOutcome)
    requires maxInfrastructure >= 1
    requires forall n: nat :: Validated(attempt(n), variant, official)
    ensures Audited(variant, official, attempt, maxInfrastructure, o)
  {
    hide Audited, Unfinished, Differences;
    var history: seq<AttemptResult> := [];
    NothingYet(attempt);
    var failures := 0;
    while true
      invariant 0 <= failures < maxInfrastructure && |history| == failures
      invariant Unfinished(attempt, history)
      decreases maxInfrastructure - failures
    {
      var result := attempt(failures + 1);
      ghost var earlier := history;
      history := history + [result];
      if result.kind.InfrastructureFailure? {
        failures := failures + 1;
        if result.cleanupPending || failures >= maxInfrastructure {
          o := AuditOutcome(InconclusiveInfrastructure, history, failures, []);
          LastRun(variant, official, attempt, maxInfrastructure, earlier, o);
          return;
        }
        OneMoreFailure(attempt, earlier);
      } else if !result.kind.Valid? || result.submission.None? {
        o := AuditOutcome(ReviewRequired, history, failures, []);
        LastRun(variant, official, attempt, maxInfrastructure, earlier, o);
        return;
      } else {
        var mismatches := Differences(variant.mapping, official, result.submission.value);
        o := AuditOutcome(if |mismatches| > 0 then ReviewRequired else Passed, history, failures, mismatches);
        LastRun(variant, official, attempt, maxInfrastructure, earlier, o);
        return;
      }
    }
  }

  // ---- the team router under audit -------------------------------------------------------------------------

  /** `_team_predict_episode` on every episode: a function of content, which is all it reads. */
  function Predictions(inputs: seq<Episode>, predict: Content -> Team.Row): (rows: seq<Team.Row>)
    ensures |rows| == |inputs|
  {
    seq(|inputs|, i requires 0 <= i < |inputs| => predict(inputs[i].content))
  }

  ghost predicate Predictor(predict: Content -> Team.Row) {
    forall c :: StrictlyIncreasing(predict(c).costs) && StrictlyIncreasing(predict(c).rankCosts)
  }

  /** `team_router_make_submission`: predict every episode, allocate the batch, pair with identifiers. */
  method TeamRouter(inputs: seq<Episode>, predict: Content -> Team.Row, s: Team.Settings)
      returns (submission: Submission)
    requires Predictor(predict) && Distinct(Ids(inputs))
    ensures submission == RouterSubmission(inputs, predict, s)
  {
    var rows: seq<Team.Row> := [];
    for i := 0 to |inputs|
      invariant rows == Predictions(inputs, predict)[..i]
    {
      rows := rows + [predict(inputs[i].content)];
    }
    assert rows == Predictions(inputs, predict);
    var selected := Team.SelectModels(rows, s);
    submission := Decisions(Ids(inputs), selected);
  }

  function RouterSubmission(inputs: seq<Episode>, predict: Content -> Team.Row, s: Team.Settings): Submission
    requires Predictor(predict) && Distinct(Ids(inputs))
  {
    Decisions(Ids(inputs), Team.Allocation(Predictions(inputs, predict), s, 40))
  }

  lemma VariantDistinct(inputs: seq<Episode>, variant: Variant, cycle: seq<nat>, order: seq<nat>)
    requires Scrambles(inputs, variant, cycle, order) && Distinct(Ids(inputs))
    ensures Distinct(Ids(variant.episodes))
  {
    forall k, l | 0 <= k < l < |inputs|
      ensures variant.episodes[k].id != variant.episodes[l].id
    {
      var i, j := order[k], order[l];
      if i < j {
        DistinctImages(inputs, variant, cycle, order, i, j);
      } else {
        DistinctImages(inputs, variant, cycle, order, j, i);
      }
    }
  }

  /** For every batch of distinct identifiers and every scramble of it, the team router's two
      submissions agree on every pair of the mapping. */
  lemma RouterPassesAudit(inputs: seq<Episode>, variant: Variant, cycle: seq<nat>, order: seq<nat>,
                          predict: Content -> Team.Row, s: Team.Settings)
    requires Scrambles(inputs, variant, cycle, order) && Distinct(Ids(inputs)) && Predictor(predict)
    ensures Distinct(Ids(variant.episodes))
    ensures var official, audit := RouterSubmission(inputs, predict, s), RouterSubmission(variant.episodes, predict, s);
            && CoversMapping(variant, official, audit)
            && Differences(variant.mapping, official, audit) == []
  {
    VariantDistinct(inputs, variant, cycle, order);
    var official, audit := RouterSubmission(inputs, predict, s), RouterSubmission(variant.episodes, predict, s);
    forall i | 0 <= i < |inputs|
      ensures variant.mapping[i].0 in official && variant.mapping[i].1 in audit
      ensures official[variant.mapping[i].0] == audit[variant.mapping[i].1]
    {
      SameChoice(inputs, variant, cycle, order, predict, s, i);
    }
  }

  lemma SameChoice(inputs: seq<Episode>, variant: Variant, cycle: seq<nat>, order: seq<nat>,
                   predict: Content -> Team.Row, s: Team.Settings, i: nat)
    requires Scrambles(inputs, variant, cycle, order) && Distinct(Ids(inputs)) && Predictor(predict)
    requires Distinct(Ids(variant.episodes)) && i < |inputs|
    ensures var official, audit := RouterSubmission(inputs, predict, s), RouterSubmission(variant.episodes, predict, s);
            && variant.mapping[i].0 in official && variant.mapping[i].1 in audit
            && official[variant.mapping[i].0] == audit[variant.mapping[i].1]
  {
    hide Team.Allocation;
    var rows, rows' := Predictions(inputs, predict), Predictions(variant.episodes, predict);
    assert rows' == Permute(rows, order);
    Invariance.AllocationPermutes(rows, s, 40, order);
    assert i in order;
    var k :| 0 <= k < |order| && order[k] == i;
    var ids, ids' := Ids(inputs), Ids(variant.episodes);
    assert ids[i] == variant.mapping[i].0 && ids'[k] == variant.mapping[i].1;
  }
}
