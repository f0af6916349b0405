/** The runs of one official tier in its two output directories: what a finished tier leaves behind. */
module TierDirectories {
  import opened Options
  import opened Attempts
  import opened JournalProtocol
  import opened Evaluator
  import opened IdOrderAudit
  import opened OfficialTier

  /** Nothing of any attempt is left or can still appear. */
  ghost predicate Clear(w: World) {
    w.journal.None? && forall token: nat, role: Role :: Done(w, token, role)
  }

  /** A result that leaves the cleanup to the operator. */
  predicate LeavesCleanup(result: AttemptResult) {
    result.kind.InfrastructureFailure? && result.cleanupPending
  }

  predicate NoneLeaves(history: seq<AttemptResult>) {
    forall i :: 0 <= i < |history| ==> !LeavesCleanup(history[i])
  }

  /** Up to `n` runs, one after the other, in a directory without a journal; an exception ends them. Runs
      that leave no cleanup leave the directory clear, and a valid last one its submission. */
  method RunAll(dir: OutputDirectory, engine: nat, command: nat, n: nat)
    returns (history: seq<AttemptResult>, raised: bool)
    requires dir.Valid() && dir.world.journal.None?
    modifies dir
    ensures dir.Valid() && old(dir.trace) <= dir.trace
    ensures |history| <= n && (raised <==> |history| < n)
    ensures !raised && NoneLeaves(history) ==> Clear(dir.world)
    ensures !raised && n > 0 && history[n - 1].kind.Valid? ==> dir.world.output == history[n - 1].submission
    ensures dir.undisturbed ==> !raised && NoneLeaves(history)
  {
    hide Done, Followed, Recoverable, ExitConfirmed, VanishedWhileStopping, NoCreate, History, Accounted;
    Cleared(dir);
    history := [];
    for i := 0 to n
      invariant dir.Valid() && old(dir.trace) <= dir.trace && |history| == i
      invariant NoneLeaves(history) ==> Clear(dir.world)
      invariant i > 0 && history[i - 1].kind.Valid? ==> dir.world.output == history[i - 1].submission
      invariant dir.undisturbed ==> NoneLeaves(history)
    {
      NoJournalRecoverable(dir.world, engine, command);
      var outcome, locked, verdict, evidence := dir.RunOnce(engine, command);
      if outcome.Raised? {
        return history, true;
      }
      ghost var earlier := history;
      history := history + [outcome.result];
      assert history[i] == outcome.result;
      assert NoneLeaves(history) ==> NoneLeaves(earlier) by {
        assert forall k :: 0 <= k < i ==> history[k] == earlier[k];
      }
    }
    return history, false;
  }

  lemma NoJournalRecoverable(w: World, engine: nat, command: nat)
    ensures w.journal.None? ==> Recoverable(w, engine, command, false)
  {
  }

  lemma Cleared(dir: OutputDirectory)
    requires dir.Valid() && dir.world.journal.None?
    ensures Clear(dir.world)
  {
    AllDone(dir.world);
  }

  /** Neither the runs nor the audit ended in an operator failure. */
  predicate Decided(o: TierOutcome) {
    !TierStatus(o).InfrastructureUnavailable? && !TierStatus(o).AuditInconclusive?
  }

  /** These runs are the histories of a finished tier. */
  ghost predicate FinishedBy(o: TierOutcome, runs: seq<AttemptResult>, auditRuns: seq<AttemptResult>) {
    && runs == o.retry.history && auditRuns == (if o.audit.Some? then o.audit.value.history else [])
    && exists inputs: seq<Episode>, official: (nat, nat) -> AttemptResult,
              audited: (Variant, nat) -> AttemptResult, auditEnabled: bool, secret: seq<nat>, digest: Digest ::
         Follows(inputs, official, audited, auditEnabled, secret, digest, o)
  }

  lemma SelectedIsLast(o: TierOutcome, runs: seq<AttemptResult>, auditRuns: seq<AttemptResult>)
    requires FinishedBy(o, runs, auditRuns)
    ensures |runs| > 0
    ensures o.retry.selectedSubmission.Some? ==>
              runs[|runs| - 1].kind.Valid? && runs[|runs| - 1].submission == o.retry.selectedSubmission
  {
  }

  lemma DecidedLeavesNothing(o: TierOutcome, runs: seq<AttemptResult>, auditRuns: seq<AttemptResult>)
    requires FinishedBy(o, runs, auditRuns) && Decided(o)
    ensures NoneLeaves(runs) && NoneLeaves(auditRuns)
  {
    hide Replays, Executions, InfrastructureFailures, Scrambles, Keyed, Validated, Differences;
    var inputs, official, audited, auditEnabled, secret, digest :|
      Follows(inputs, official, audited, auditEnabled, secret, digest, o);
    forall i | 0 <= i < |runs|
      ensures !LeavesCleanup(runs[i])
    {
      if i < |runs| - 1 {
        assert !Stops(runs[i]);
      }
    }
    if o.audit.Some? {
      AuditLeavesNothing(inputs, secret, digest, o.retry.selectedSubmission.value, audited, o.audit.value);
    }
  }

  lemma AuditLeavesNothing(inputs: seq<Episode>, secret: seq<nat>, digest: Digest, selected: Submission,
                           audited: (Variant, nat) -> AttemptResult, o: AuditOutcome)
    requires AuditedOnScramble(inputs, secret, digest, selected, audited, o) && !o.status.InconclusiveInfrastructure?
    ensures NoneLeaves(o.history)
  {
    hide Scrambles, Keyed, Validated, Differences;
    var variant, cycle, order :| Scrambles(inputs, variant, cycle, order)
                                 && Keyed(inputs, secret, digest, cycle, order)
                                 && Audited(variant, selected, Runs(audited, variant), 3, o);
    var last := |o.history| - 1;
    assert o.history[last] == Runs(audited, variant)(|o.history|);
    forall i | 0 <= i < |o.history|
      ensures !LeavesCleanup(o.history[i])
    {
      if i < last {
        assert o.history[..last][i] == o.history[i];
      }
    }
  }

  /** The runs of a tier in its two directories, the official ones first. Whatever the engine, the disk and
      the participant did: if these runs are what a finished tier followed from, and its status is a decided
      one, then no journal and nothing of any attempt is left in either directory, and a selected submission
      is the official one's file. */
  method RunTierIn(official: OutputDirectory, audit: OutputDirectory, engine: nat, command: nat, o: TierOutcome)
    returns (runs: seq<AttemptResult>, auditRuns: seq<AttemptResult>, raised: bool)
    requires official != audit && official.Valid() && audit.Valid()
    requires official.world.journal.None? && audit.world.journal.None?
    modifies official, audit
    ensures official.Valid() && audit.Valid()
    ensures old(official.trace) <= official.trace && old(audit.trace) <= audit.trace
    ensures !raised ==>
              && |runs| == |o.retry.history|
              && |auditRuns| == if o.audit.Some? then |o.audit.value.history| else 0
    ensures !raised && FinishedBy(o, runs, auditRuns) && Decided(o) ==> Clear(official.world) && Clear(audit.world)
    ensures !raised && FinishedBy(o, runs, auditRuns) && o.retry.selectedSubmission.Some? ==>
              official.world.output == o.retry.selectedSubmission
    ensures official.undisturbed && audit.undisturbed ==>
              !raised && Clear(official.world) && Clear(audit.world)
  {
    hide NoneLeaves, Clear, Done, History, Accounted;
    Cleared(audit);
    auditRuns := [];
    runs, raised := RunAll(official, engine, command, |o.retry.history|);
    if !raised && o.audit.Some? {
      auditRuns, raised := RunAll(audit, engine, command, |o.audit.value.history|);
    }
    if FinishedBy(o, runs, auditRuns) {
      SelectedIsLast(o, runs, auditRuns);
      if Decided(o) {
        DecidedLeavesNothing(o, runs, auditRuns);
      }
    }
  }
}
