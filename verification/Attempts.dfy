/** The outcome of one isolated run, and the two bounded loops that repeat runs: the official retry
    machine and the numbering its record rebuilds. */
module Attempts {
  import opened Models
  import opened Options

  datatype AttemptKind = Valid | ExecutionFailure | InfrastructureFailure | FairnessViolation

  /** One decision for each episode. */
  type Submission = map<string, Model>

  datatype AttemptResult = AttemptResult(
    kind: AttemptKind,
    submission: Option<Submission>,
    returnCode: Option<int>,
    operatorTerminated: bool,
    cleanupPending: bool,
    cleanupAttemptId: Option<nat>)

  datatype RetryOutcome = RetryOutcome(
    selectedSubmission: Option<Submission>,
    officialAttempts: nat,
    infrastructureFailures: nat,
    history: seq<AttemptResult>,
    tierScoreZero: bool,
    disqualified: bool,
    infrastructureUnavailable: bool)

  datatype Retried = Retried(outcome: RetryOutcome) | InvalidLimits | MissingSubmission

  function Truth(b: bool): nat {
    if b then 1 else 0
  }

  /** How many runs of a history the participant answers for. */
  function Executions(history: seq<AttemptResult>): nat {
    if |history| == 0 then 0
    else Executions(history[..|history| - 1]) + Truth(history[|history| - 1].kind.ExecutionFailure?)
  }

  function InfrastructureFailures(history: seq<AttemptResult>): nat {
    if |history| == 0 then 0
    else InfrastructureFailures(history[..|history| - 1])
         + Truth(history[|history| - 1].kind.InfrastructureFailure?)
  }

  /** A run after which the machine must not start another one. */
  predicate Stops(result: AttemptResult) {
    || result.kind.Valid?
    || result.kind.FairnessViolation?
    || (result.kind.InfrastructureFailure? && result.cleanupPending)
  }

  /** `history` is what consecutive calls of `attempt` returned, each called with one more than the
      number of execution failures before it. */
  ghost predicate Replays(attempt: (nat, nat) -> AttemptResult, history: seq<AttemptResult>) {
    |history| > 0 ==>
      var earlier := history[..|history| - 1];
      Replays(attempt, earlier) && history[|history| - 1] == attempt(|earlier|, Executions(earlier) + 1)
  }

  ghost predicate NoStopBefore(history: seq<AttemptResult>, n: nat) {
    n <= |history| && forall i :: 0 <= i < n ==> !Stops(history[i])
  }

  lemma CountsStep(history: seq<AttemptResult>, result: AttemptResult)
    ensures Executions(history + [result]) == Executions(history) + Truth(result.kind.ExecutionFailure?)
    ensures InfrastructureFailures(history + [result])
         == InfrastructureFailures(history) + Truth(result.kind.InfrastructureFailure?)
  {
    assert (history + [result])[..|history|] == history;
  }

  /** A history with no final run splits into the two counted kinds. */
  lemma {:induction false} CountsAddUp(history: seq<AttemptResult>)
    requires NoStopBefore(history, |history|)
    ensures |history| == Executions(history) + InfrastructureFailures(history)
  {
    if |history| > 0 {
      var n := |history| - 1;
      CountsAddUp(history[..n]);
      assert !Stops(history[n]);
    }
  }

  lemma {:induction false} ReplaysAt(attempt: (nat, nat) -> AttemptResult, history: seq<AttemptResult>, i: nat)
    requires Replays(attempt, history) && i < |history|
    ensures history[i] == attempt(i, Executions(history[..i]) + 1)
  {
    if i < |history| - 1 {
      ReplaysAt(attempt, history[..|history| - 1], i);
      assert history[..|history| - 1][..i] == history[..i];
    }
  }

  /** A history after which another run may start. */
  ghost predicate Running(attempt: (nat, nat) -> AttemptResult, history: seq<AttemptResult>) {
    Replays(attempt, history) && NoStopBefore(history, |history|)
  }

  lemma OneMore(attempt: (nat, nat) -> AttemptResult, history: seq<AttemptResult>)
    requires Running(attempt, history)
    ensures var result := attempt(|history|, Executions(history) + 1);
            var next := history + [result];
            && Replays(attempt, next) && NoStopBefore(next, |history|)
            && (!Stops(result) ==> Running(attempt, next))
            && Executions(next) == Executions(history) + Truth(result.kind.ExecutionFailure?)
            && InfrastructureFailures(next) == InfrastructureFailures(history)
                + Truth(result.kind.InfrastructureFailure?)
            && |next| == Executions(history) + InfrastructureFailures(history) + 1
  {
    var result := attempt(|history|, Executions(history) + 1);
    CountsStep(history, result);
    CountsAddUp(history);
    assert (history + [result])[..|history|] == history;
  }

  /** Each way the loop can end leaves a justified outcome. */
  lemma Endings(attempt: (nat, nat) -> AttemptResult, history: seq<AttemptResult>, maxParticipant: int,
                maxInfrastructure: int)
    requires Running(attempt, history)
    requires Executions(history) < maxParticipant && InfrastructureFailures(history) < maxInfrastructure
    ensures var official, infrastructure := Executions(history), InfrastructureFailures(history);
            var result := attempt(|history|, official + 1);
            var next := history + [result];
            var justified := o => Justified(attempt, o, maxParticipant, maxInfrastructure);
            && (result.kind.Valid? && result.submission.Some? ==>
                  justified(RetryOutcome(result.submission, official + 1, infrastructure, next, false, false, false)))
            && (result.kind.FairnessViolation? ==>
                  justified(RetryOutcome(None, official, infrastructure, next, false, true, false)))
            && (result.kind.InfrastructureFailure? &&
                (result.cleanupPending || infrastructure + 1 >= maxInfrastructure) ==>
                  justified(RetryOutcome(None, official, infrastructure + 1, next, false, false, true)))
            && (result.kind.ExecutionFailure? && official + 1 == maxParticipant ==>
                  justified(RetryOutcome(None, official + 1, infrastructure, next, true, false, false)))
  {
    hide Replays, NoStopBefore, Executions, InfrastructureFailures;
    OneMore(attempt, history);
    var result := attempt(|history|, Executions(history) + 1);
    assert (history + [result])[|history|] == result;
  }

  /** `run_with_retry`. `attempt` answers the n-th call for a given official attempt number; its
      answers are unconstrained. */
  method RunWithRetry(attempt: (nat, nat) -> AttemptResult, maxParticipant: int, maxInfrastructure: int)
    returns (r: Retried)
    ensures r.InvalidLimits? <==> maxParticipant < 1 || maxInfrastructure < 1
    ensures r.Retried? ==> Justified(attempt, r.outcome, maxParticipant, maxInfrastructure)
    ensures r.MissingSubmission? ==>
              exists history: seq<AttemptResult> :: Running(attempt, history)
                && attempt(|history|, Executions(history) + 1).kind.Valid?
                && attempt(|history|, Executions(history) + 1).submission.None?
  {
    hide Replays, NoStopBefore, Executions, InfrastructureFailures, Justified, Running;
    if maxParticipant < 1 || maxInfrastructure < 1 {
      return InvalidLimits;
    }
    var official, infrastructure := 0, 0;
    var history: seq<AttemptResult> := [];
    Empty(attempt);
    while official < maxParticipant
      invariant 0 <= official <= maxParticipant && 0 <= infrastructure < maxInfrastructure
      invariant Running(attempt, history)
      invariant official == Executions(history) && infrastructure == InfrastructureFailures(history)
      invariant official == maxParticipant ==>
                  Justified(attempt, RetryOutcome(None, official, infrastructure, history, true, false, false),
                            maxParticipant, maxInfrastructure)
      decreases maxParticipant - official + maxInfrastructure - infrastructure
    {
      OneMore(attempt, history);
      Endings(attempt, history, maxParticipant, maxInfrastructure);
      var result := attempt(|history|, official + 1);
      if result.kind.Valid? && result.submission.None? {
        return MissingSubmission;
      }
      history := history + [result];
      match result.kind
      case Valid =>
        return Retried(RetryOutcome(result.submission, official + 1, infrastructure, history, false, false, false));
      case FairnessViolation =>
        return Retried(RetryOutcome(None, official, infrastructure, history, false, true, false));
      case InfrastructureFailure =>
        infrastructure := infrastructure + 1;
        if result.cleanupPending || infrastructure >= maxInfrastructure {
          return Retried(RetryOutcome(None, official, infrastructure, history, false, false, true));
        }
      case ExecutionFailure =>
        official := official + 1;
    }
    return Retried(RetryOutcome(None, official, infrastructure, history, true, false, false));
  }

  lemma Empty(attempt: (nat, nat) -> AttemptResult)
    ensures Running(attempt, []) && Executions([]) == 0 && InfrastructureFailures([]) == 0
  {
  }

  /** Everything the outcome must be answerable for. */
  ghost predicate Justified(attempt: (nat, nat) -> AttemptResult, o: RetryOutcome, maxParticipant: int,
                            maxInfrastructure: int) {
    && Replays(attempt, o.history)
    && 0 < |o.history| <= maxParticipant + maxInfrastructure - 1
    && NoStopBefore(o.history, |o.history| - 1)
    && o.infrastructureFailures == InfrastructureFailures(o.history) <= maxInfrastructure
    && var last := o.history[|o.history| - 1];
       && o.officialAttempts == Executions(o.history) + Truth(last.kind.Valid?)
       && (o.selectedSubmission.Some? <==> last.kind.Valid?)
       && (o.selectedSubmission.Some? ==> o.selectedSubmission == last.submission)
       && (o.disqualified <==> last.kind.FairnessViolation?)
       && (o.infrastructureUnavailable <==>
             last.kind.InfrastructureFailure? && (last.cleanupPending || o.infrastructureFailures == maxInfrastructure))
       && (o.tierScoreZero <==> last.kind.ExecutionFailure? && Executions(o.history) == maxParticipant)
       && (last.kind.ExecutionFailure? ==> o.tierScoreZero)
       && (last.kind.InfrastructureFailure? ==> o.infrastructureUnavailable)
       && (!last.kind.ExecutionFailure? ==> Executions(o.history) < maxParticipant)
       && (!last.kind.InfrastructureFailure? ==> o.infrastructureFailures < maxInfrastructure)
  }

  /** Exactly one of the four verdicts holds; no run follows a valid one, a fairness violation or a
      pending cleanup; and the participant is charged at most `maxParticipant` attempts. */
  lemma ExactlyOneVerdict(attempt: (nat, nat) -> AttemptResult, o: RetryOutcome, maxParticipant: int,
                          maxInfrastructure: int)
    requires Justified(attempt, o, maxParticipant, maxInfrastructure)
    ensures Truth(o.selectedSubmission.Some?) + Truth(o.tierScoreZero) + Truth(o.disqualified)
          + Truth(o.infrastructureUnavailable) == 1
    ensures forall i :: 0 <= i < |o.history| - 1 ==> !Stops(o.history[i])
  {
    var last := o.history[|o.history| - 1];
    assert last.kind.Valid? || last.kind.ExecutionFailure? || last.kind.InfrastructureFailure? ||
        last.kind.FairnessViolation?;
  }

  // ---- the record -------------------------------------------------------------------------------------

  /** The attempt numbers `official_tier_outcome_to_dict` writes next to the history. */
  method RecordNumbers(history: seq<AttemptResult>) returns (numbers: seq<nat>)
    ensures |numbers| == |history|
    ensures forall i :: 0 <= i < |history| ==> numbers[i] == Recorded(history[..i])
  {
    var attemptNumber := 1;
    numbers := [];
    for i := 0 to |history|
      invariant attemptNumber == Recorded(history[..i])
      invariant |numbers| == i && forall k :: 0 <= k < i ==> numbers[k] == Recorded(history[..k])
    {
      numbers := numbers + [attemptNumber];
      assert history[..i + 1][..i] == history[..i];
      if history[i].kind.ExecutionFailure? || history[i].kind.Valid? {
        attemptNumber := attemptNumber + 1;
      }
    }
  }

  function Recorded(before: seq<AttemptResult>): nat {
    if |before| == 0 then 1
    else
      var last := before[|before| - 1].kind;
      Recorded(before[..|before| - 1]) + if last.ExecutionFailure? || last.Valid? then 1 else 0
  }

  lemma {:induction false} RecordedIsExecutions(before: seq<AttemptResult>)
    requires NoStopBefore(before, |before|)
    ensures Recorded(before) == Executions(before) + 1
  {
    if |before| > 0 {
      assert !Stops(before[|before| - 1]);
      RecordedIsExecutions(before[..|before| - 1]);
    }
  }

  /** The record's numbers are the very ones the attempts were called with. */
  lemma RecordMatchesCalls(attempt: (nat, nat) -> AttemptResult, o: RetryOutcome, maxParticipant: int,
                           maxInfrastructure: int, i: nat)
    requires Justified(attempt, o, maxParticipant, maxInfrastructure) && i < |o.history|
    ensures o.history[i] == attempt(i, Recorded(o.history[..i]))
  {
    RecordedIsExecutions(o.history[..i]);
    ReplaysAt(attempt, o.history, i);
  }
}
