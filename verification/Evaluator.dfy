/** One evaluator at work in one output directory: the isolated run, its cleanup, and the recovery of a
    journal an earlier evaluator left behind. Every method extends the directory's history by legal
    protocol steps only, with the container engine interfering between any two of them. */
module Evaluator {
  import opened Models
  import opened Options
  import opened Attempts
  import opened JournalProtocol

  /** What an inspection of a name reports. */
  datatype Label = Absent | Own | Foreign | Unreadable

  /** What a removal command reports. */
  datatype Removal = Removed | NoSuchResource | RemovalFailed

  /** How the participant's client process ended. */
  datatype ClientEnd = NotStarted | ExitedAlone | TerminatedByOperator | Escaped(unavailable: bool)

  datatype ContainerStatus = Running | Restarting | Paused | Exited | OtherStatus

  datatype Snapshot = Snapshot(
    status: ContainerStatus,
    exitCode: int,
    runtimeError: bool,
    oomKilled: bool,
    neverStarted: bool)

  datatype Seen = SeenNothing | SeenError | SeenForeign | SeenOwn(snapshot: Snapshot)

  /** What came of asking a container that still seemed to run to stop. */
  datatype Stop = NotNeeded | StopFailed | Stopped(again: Seen)

  /** All that one reconciliation of the participant's container learnt about it. */
  datatype Evidence =
    | NotLooked
    | NoOwnContainer(seen: Seen)
    | Container(first: Snapshot, recorded: bool, stop: Stop, removal: Option<Removal>)

  datatype Outcome = Returned(result: AttemptResult) | Raised(unavailable: bool)

  datatype Recovery = Clean | Blocked | Unavailable

  function Infrastructure(result: AttemptResult): AttemptResult {
    result.(kind := InfrastructureFailure, submission := None)
  }

  function Pending(result: AttemptResult): AttemptResult {
    Infrastructure(result).(cleanupPending := true)
  }

  function Failure(pending: bool): AttemptResult {
    AttemptResult(InfrastructureFailure, None, None, false, pending, None)
  }

  /** What every result of a run satisfies before an attempt id is bound to it. */
  predicate WellFormed(result: AttemptResult) {
    && (result.cleanupPending ==> result.kind.InfrastructureFailure?)
    && (result.kind.Valid? <==> result.submission.Some?)
    && !result.kind.FairnessViolation?
    && result.cleanupAttemptId.None?
  }

  /** A verdict of the client alone, before the engine was asked about the container. */
  predicate ClientVerdict(result: AttemptResult) {
    && WellFormed(result) && !result.cleanupPending
    && (result.kind.Valid? ==> result.returnCode == Some(0) && !result.operatorTerminated)
  }

  /** The names under which our label was the last one read, after one more reading. Without an answer
      nothing was read. */
  function AfterReading(before: set<Key>, tag: Label, k: Key): set<Key> {
    match tag
    case Own => before + {k}
    case Unreadable => before
    case Absent => before - {k}
    case Foreign => before - {k}
  }

  predicate StillRunning(status: ContainerStatus) {
    status.Running? || status.Restarting? || status.Paused?
  }

  /** `_reconcile_and_remove_participant_container`'s classification: what the engine's record of the
      container makes of the client's verdict. */
  function Classify(result: AttemptResult, statusAfterClient: ContainerStatus, snapshot: Snapshot): AttemptResult {
    if result.returnCode == Some(126) || result.returnCode == Some(127) then result
    else if snapshot.neverStarted || snapshot.runtimeError then Infrastructure(result)
    else if snapshot.oomKilled then result.(kind := ExecutionFailure, submission := None)
    else if result.operatorTerminated then
      if snapshot.status.Exited? then result else Infrastructure(result)
    else if !statusAfterClient.Exited? then Infrastructure(result)
    else if result.returnCode != Some(snapshot.exitCode) then Infrastructure(result)
    else result
  }

  /** What stopping the container makes of the verdict before it is classified. */
  function AfterStop(result: AttemptResult, stop: Stop): AttemptResult {
    if stop.StopFailed? then Infrastructure(result)
    else if stop == Stopped(SeenError) || stop == Stopped(SeenForeign) then Pending(result)
    else result
  }

  function LastSnapshot(first: Snapshot, stop: Stop): Snapshot {
    if stop.Stopped? && stop.again.SeenOwn? then stop.again.snapshot else first
  }

  /** The verdict on a container of ours, before its removal. */
  function Judged(input: AttemptResult, first: Snapshot, recorded: bool, stop: Stop): AttemptResult {
    var observed := if recorded then input else Pending(input);
    var stopped := AfterStop(observed, stop);
    if stop == Stopped(SeenNothing) || stopped.kind.InfrastructureFailure? then stopped
    else Classify(stopped, first.status, LastSnapshot(first, stop))
  }

  lemma JudgedExactly(input: AttemptResult, first: Snapshot, recorded: bool, stop: Stop)
    requires ClientVerdict(input) && (stop.NotNeeded? <==> !StillRunning(first.status))
    ensures WellFormed(Judged(input, first, recorded, stop))
    ensures recorded && (stop.Stopped? ==> stop.again.SeenOwn?) ==> !Judged(input, first, recorded, stop).cleanupPending
    ensures stop == Stopped(SeenForeign) ==> Judged(input, first, recorded, stop).cleanupPending
    ensures Judged(input, first, recorded, stop).kind.Valid? ==> Judged(input, first, recorded, stop) == input
    ensures input.kind.Valid? && ExitConfirmed(Container(first, recorded, stop, Some(Removed))) ==>
              Judged(input, first, recorded, stop) == input
    ensures input.kind.Valid? && VanishedWhileStopping(Container(first, recorded, stop, None)) ==>
              Judged(input, first, recorded, stop) == input
    ensures Judged(input, first, recorded, stop).kind.Valid? ==>
              if stop == Stopped(SeenNothing) then VanishedWhileStopping(Container(first, recorded, stop, None))
              else ExitConfirmed(Container(first, recorded, stop, Some(Removed)))
  {
  }

  /** The engine recorded a clean exit that the client then reported, and the container was removed. */
  predicate ExitConfirmed(e: Evidence) {
    && e.Container? && e.first.status.Exited? && e.first.exitCode == 0
    && !e.first.neverStarted && !e.first.runtimeError && !e.first.oomKilled
    && e.recorded && e.removal == Some(Removed)
  }

  /** The container still ran after its client had exited, was asked to stop, and was then not there any
      more: nothing about its exit was ever read. */
  predicate VanishedWhileStopping(e: Evidence) {
    e.Container? && StillRunning(e.first.status) && e.recorded && e.stop == Stopped(SeenNothing)
  }

  // ---- whose failure it is, from the evidence alone -------------------------------------------------------

  /** The container was seen, recorded and removed, and was seen again if it was asked to stop. */
  predicate StateKnown(e: Evidence) {
    && e.Container? && e.recorded && e.removal == Some(Removed)
    && (e.stop.NotNeeded? || (e.stop.Stopped? && e.stop.again.SeenOwn?))
  }

  function FinalState(e: Evidence): Snapshot
    requires StateKnown(e)
  {
    if e.stop.NotNeeded? then e.first else e.stop.again.snapshot
  }

  /** The engine could not invoke or find the image's command. */
  predicate NotInvocable(verdict: AttemptResult) {
    verdict.returnCode == Some(126) || verdict.returnCode == Some(127)
  }

  predicate OutOfMemory(verdict: AttemptResult, e: Evidence)
    requires StateKnown(e)
  {
    var final := FinalState(e);
    !NotInvocable(verdict) && !final.neverStarted && !final.runtimeError && final.oomKilled
  }

  /** A client that ended on its own says what the engine's record says. */
  predicate ExitAgrees(verdict: AttemptResult, e: Evidence)
    requires StateKnown(e)
  {
    e.first.status.Exited? && verdict.returnCode == Some(FinalState(e).exitCode)
  }

  /** The record does not bear the client's verdict out, for a reason that lies with the operator. */
  predicate Contradicted(verdict: AttemptResult, e: Evidence)
    requires StateKnown(e)
  {
    var final := FinalState(e);
    && !NotInvocable(verdict)
    && (|| final.neverStarted
        || final.runtimeError
        || (!final.oomKilled && verdict.operatorTerminated && !final.status.Exited?)
        || (!final.oomKilled && !verdict.operatorTerminated && !ExitAgrees(verdict, e)))
  }

  /** The attempt failed for a reason that lies with the operator; it is repeated at no charge. */
  predicate OperatorFailed(verdict: AttemptResult, e: Evidence) {
    || verdict.kind.InfrastructureFailure?
    || (!StateKnown(e) && !VanishedWhileStopping(e))
    || (StateKnown(e) && Contradicted(verdict, e))
  }

  /** The attempt failed and the participant is charged for it. */
  predicate ParticipantFailed(verdict: AttemptResult, e: Evidence) {
    || (VanishedWhileStopping(e) && verdict.kind.ExecutionFailure?)
    || (StateKnown(e) && !verdict.kind.InfrastructureFailure? && !Contradicted(verdict, e)
        && (verdict.kind.ExecutionFailure? || OutOfMemory(verdict, e)))
  }

  /** Somebody has to look again before the attempt's journal may go. */
  predicate Unsettled(verdict: AttemptResult, e: Evidence) {
    || (e.NoOwnContainer? && (verdict.operatorTerminated || !e.seen.SeenNothing?))
    || (e.Container?
        && (|| !e.recorded
            || e.stop == Stopped(SeenError)
            || e.stop == Stopped(SeenForeign)
            || (e.removal.Some? && e.removal != Some(Removed))))
  }

  /** The result is the one that verdict and evidence call for; a result is never a fairness violation, so
      the two failures settle its kind. */
  predicate CalledFor(verdict: AttemptResult, e: Evidence, result: AttemptResult) {
    && (result.kind.InfrastructureFailure? <==> OperatorFailed(verdict, e))
    && (result.kind.ExecutionFailure? <==> ParticipantFailed(verdict, e))
    && !result.kind.FairnessViolation?
    && (result.cleanupPending <==> Unsettled(verdict, e))
    && result.returnCode == verdict.returnCode && result.operatorTerminated == verdict.operatorTerminated
    && result.submission == if result.kind.Valid? then verdict.submission else None
  }

  lemma KindExactly(input: AttemptResult, first: Snapshot, recorded: bool, stop: Stop, removal: Removal)
    requires ClientVerdict(input) && (stop.NotNeeded? <==> !StillRunning(first.status))
    ensures var judged := Judged(input, first, recorded, stop);
            if stop == Stopped(SeenNothing) || stop == Stopped(SeenForeign) then
              CalledFor(input, Container(first, recorded, stop, None), judged)
            else
              CalledFor(input, Container(first, recorded, stop, Some(removal)),
                        if removal.Removed? then judged else Pending(judged))
  {
  }

  /** Without a container of ours the operator failed. */
  lemma NothingOfOurs(input: AttemptResult, seen: Seen)
    requires ClientVerdict(input) && !seen.SeenOwn?
    ensures CalledFor(input, NoOwnContainer(seen),
                      if input.operatorTerminated || !seen.SeenNothing? then Pending(input) else Infrastructure(input))
  {
  }

  /** The engine's word on the container decided, and the container is gone. */
  predicate Followed(outcome: Outcome, verdict: AttemptResult, e: Evidence) {
    && ClientVerdict(verdict) && StateKnown(e)
    && (e.stop.NotNeeded? <==> !StillRunning(e.first.status))
    && outcome == Returned(Judged(verdict, e.first, true, e.stop))
  }

  // ---- what stays true of one role ----------------------------------------------------------------------

  /** No create was requested; files may have changed. */
  ghost predicate NoCreate(w: World, w': World) {
    && w'.life.Keys == w.life.Keys
    && forall k :: k in w.life ==> LifeEvent(w.life[k], w'.life[k])
  }

  /** No create is outstanding. */
  ghost predicate Quiet(w: World, token: nat, role: Role) {
    !LifeOf(w, token, role).InFlight?
  }

  /** The resource came into being, so its create is no longer outstanding. */
  ghost predicate Arrived(w: World, token: nat, role: Role) {
    Quiet(w, token, role) && !LifeOf(w, token, role).NeverRequested?
  }

  ghost predicate Done(w: World, token: nat, role: Role) {
    Settled(LifeOf(w, token, role))
  }

  ghost predicate Untouched(w: World, token: nat, role: Role) {
    LifeOf(w, token, role).NeverRequested?
  }

  ghost predicate Exists(w: World, token: nat, role: Role) {
    LifeOf(w, token, role).Present?
  }

  /** The journal of this attempt on this engine is on disk. */
  ghost predicate Journalled(w: World, engine: nat, token: nat) {
    w.journal.Some? && w.journal.value.engine == engine && w.journal.value.token == token
  }

  /** The other roles' resources exist as before. */
  ghost predicate SameOthers(w: World, w': World, token: nat, role: Role) {
    forall other: Role :: other != role ==> (Exists(w', token, other) <==> Exists(w, token, other))
  }

  /** What a recovery needs of one role: it was observed, it can be seen, or it can no longer appear. */
  ghost predicate Resolvable(w: World, token: nat, observed: set<Role>, confirmRestarted: bool, role: Role) {
    role in observed || confirmRestarted || Exists(w, token, role)
  }

  /** What a recovery needs in all: the journal's own command and engine, and every role resolvable. */
  ghost predicate Recoverable(w: World, engine: nat, command: nat, confirmRestarted: bool) {
    w.journal.Some? ==>
      var j := w.journal.value;
      && command == j.command && engine == j.engine
      && forall role: Role :: Resolvable(w, j.token, j.observed, confirmRestarted, role)
  }

  /** `Quiet`, `Arrived`, `Done` and `Untouched` survive. */
  ghost predicate Keeps(w: World, w': World, token: nat, role: Role) {
    && (Quiet(w, token, role) ==> Quiet(w', token, role))
    && (Arrived(w, token, role) ==> Arrived(w', token, role))
    && (Done(w, token, role) ==> Done(w', token, role))
    && (Untouched(w, token, role) ==> Untouched(w', token, role))
  }

  lemma DoneIsGone(w: World, token: nat, role: Role)
    ensures Done(w, token, role) ==> !Exists(w, token, role)
  {
  }

  lemma SameResolvable(w: World, w': World, token: nat, observed: set<Role>, observed': set<Role>,
                       confirmed: bool, role: Role)
    ensures (role in observed <==> role in observed') && (Exists(w', token, role) <==> Exists(w, token, role)) ==>
              (Resolvable(w, token, observed, confirmed, role) <==> Resolvable(w', token, observed', confirmed, role))
  {
  }

  lemma FollowedIsCalledFor(outcome: Outcome, verdict: AttemptResult, e: Evidence)
    requires Followed(outcome, verdict, e) && outcome.Returned? && !outcome.result.cleanupPending
    ensures CalledFor(verdict, e, outcome.result)
  {
    hide Judged, CalledFor;
    KindExactly(verdict, e.first, e.recorded, e.stop, Removed);
  }

  lemma FollowedReturns(outcome: Outcome, verdict: AttemptResult, e: Evidence)
    ensures Followed(outcome, verdict, e) ==> outcome.Returned?
  {
  }

  lemma SameExists(w: World, w': World, token: nat, role: Role)
    requires w'.life == w.life
    ensures Exists(w, token, role) <==> Exists(w', token, role)
  {
  }

  lemma EngineNoCreate(w: World, w': World)
    requires EngineStep(w, w')
    ensures NoCreate(w, w') && w' == w.(life := w'.life, strangers := w'.strangers)
  {
  }

  /** A create is answered. */
  lemma Landed(w: World, w': World, k: Key)
    requires Accounted(w) && k in w.life && w.life[k].InFlight?
    requires w' == w.(life := w.life[k := Gone]) || (w' == w.(life := w.life[k := Present]) && k !in w.strangers)
    ensures EngineStep(w, w') && NoCreate(w, w')
  {
  }

  lemma RemovalIsEvent(w: World, w': World, k: Key)
    requires RemoveStep(w, w', k)
    ensures NoCreate(w, w')
  {
  }

  lemma SameLife(w: World, w': World)
    requires w'.life == w.life
    ensures NoCreate(w, w')
  {
  }

  lemma NoCreateTransitive(a: World, b: World, c: World)
    requires NoCreate(a, b) && NoCreate(b, c)
    ensures NoCreate(a, c)
  {
  }

  lemma NoCreateKeeps(w: World, w': World, token: nat, role: Role)
    requires NoCreate(w, w')
    ensures Keeps(w, w', token, role)
    ensures Quiet(w, token, role) ==> Quiet(w', token, role)
    ensures Arrived(w, token, role) ==> Arrived(w', token, role)
    ensures Done(w, token, role) ==> Done(w', token, role)
    ensures Untouched(w, token, role) ==> Untouched(w', token, role)
  {
  }

  lemma KeepsFacts(w: World, w': World, token: nat, role: Role)
    requires Keeps(w, w', token, role)
    ensures Quiet(w, token, role) ==> Quiet(w', token, role)
    ensures Arrived(w, token, role) ==> Arrived(w', token, role)
    ensures Done(w, token, role) ==> Done(w', token, role)
    ensures Untouched(w, token, role) ==> Untouched(w', token, role)
  {
  }

  lemma KeepsTransitive(a: World, b: World, c: World, token: nat, role: Role)
    requires Keeps(a, b, token, role) && Keeps(b, c, token, role)
    ensures Keeps(a, c, token, role)
  {
  }

  lemma RoleFacts(w: World, token: nat, role: Role)
    ensures Arrived(w, token, role) ==> Quiet(w, token, role)
    ensures Done(w, token, role) ==> Quiet(w, token, role)
    ensures Untouched(w, token, role) ==> Done(w, token, role)
  {
  }

  lemma UntouchedSurvives(w: World, w': World, token: nat)
    requires NoCreate(w, w')
    requires Untouched(w, token, Participant) && Untouched(w, token, Helper) && Untouched(w, token, Volume)
    ensures Untouched(w', token, Participant) && Untouched(w', token, Helper) && Untouched(w', token, Volume)
    ensures Done(w', token, Participant) && Done(w', token, Helper) && Done(w', token, Volume)
    ensures Quiet(w', token, Helper) && Quiet(w', token, Volume)
  {
  }

  lemma RecoverySoFar(w: World, w': World, token: nat, roles: seq<Role>)
    requires NoCreate(w, w')
    ensures forall role :: role in roles && Done(w, token, role) ==> Done(w', token, role)
    ensures forall role: Role :: Quiet(w, token, role) ==> Quiet(w', token, role)
  {
  }

  /** A label never drawn has nothing to its name. */
  lemma FreshUntouched(w: World, role: Role)
    requires Accounted(w)
    ensures Untouched(w, w.issued, role)
  {
  }

  lemma ObservedQuiet(w: World, role: Role)
    requires Accounted(w) && w.journal.Some? && role in w.journal.value.observed
    ensures Quiet(w, w.journal.value.token, role)
  {
  }

  /** Without a journal nothing of any attempt is left, nor can it still appear. */
  lemma AllDone(w: World)
    requires Accounted(w) && w.journal.None?
    ensures forall token: nat, role: Role :: Done(w, token, role)
  {
  }

  lemma ResultFacts(w: World)
    requires Accounted(w) && w.journal.Some?
    ensures w.output.None?
  {
  }

  /** The earlier journal's token is not handed out again. */
  lemma TokenIssued(w: World)
    requires Accounted(w) && w.journal.Some?
    ensures w.journal.value.token < w.issued
  {
  }

  class OutputDirectory {
    var world: World
    ghost var trace: seq<World>

    /** Whether engine and disk do all they are asked, at once and nothing else. Every claim below holds
        either way; those under this hypothesis say what then comes of a run. */
    const undisturbed: bool

    /** The names under which our label was read and may still license a removal. It is assumed of the
        environment that nobody takes such a name for a resource of his own between that reading and the
        removal. No reading outlives the operation that made it. */
    var confirmed: set<Key>

    ghost predicate Valid()
      reads this
    {
      && History(trace) && trace[|trace| - 1] == world && Accounted(world)
      && world.harmed == {} && confirmed !! world.strangers
      && (undisturbed ==> world.strangers == {})
    }

    /** A new directory on an engine where others may hold any name. */
    constructor (strangers: set<Key>, undisturbed: bool)
      requires undisturbed ==> strangers == {}
      ensures Valid() && world == World(None, None, map[], 0, strangers, {}) && trace == [world]
      ensures this.undisturbed == undisturbed && confirmed == {}
    {
      this.undisturbed := undisturbed;
      world := World(None, None, map[], 0, strangers, {});
      trace := [World(None, None, map[], 0, strangers, {})];
      confirmed := {};
    }

    /** The next evaluator after a crash, which has read no label yet. */
    constructor AfterCrash(left: World, ghost past: seq<World>, undisturbed: bool)
      requires History(past) && past[|past| - 1] == left && left.harmed == {}
      requires undisturbed ==> left.strangers == {}
      ensures Valid() && world == left && trace == past && confirmed == {} && this.undisturbed == undisturbed
    {
      this.undisturbed := undisturbed;
      world := left;
      trace := past;
      confirmed := {};
      new;
      HistoryAccounted(past, |past| - 1);
    }

    lemma IsAccounted()
      requires Valid()
      ensures Accounted(world) && world.harmed == {} && (undisturbed ==> world.strangers == {})
      ensures forall k :: k in confirmed ==> k !in world.strangers
    {
    }

    /** At no instant of the directory's history was a resource of somebody else stopped or removed. */
    lemma NoStrangerHarmed()
      requires Valid()
      ensures forall i :: 0 <= i < |trace| ==> trace[i].harmed == {}
    {
      forall i | 0 <= i < |trace|
        ensures trace[i].harmed == {}
      {
        HarmIsForever(trace, i, |trace| - 1);
      }
    }

    /** Take one protocol step that brings in no stranger and harms none. */
    method Take(w: World)
      requires Valid() && Step(world, w) && w.strangers <= world.strangers && w.harmed == world.harmed
      modifies this`world, this`trace
      ensures Valid() && trace == old(trace) + [w] && world == w
    {
      StepKeepsAccounted(world, w);
      HistoryExtends(trace, w);
      trace := trace + [w];
      world := w;
    }

    /** The engine runs for a while. */
    method Interfere()
      requires Valid()
      modifies this`world, this`trace
      ensures Valid() && old(trace) <= trace
      ensures NoCreate(old(world), world) && world == old(world).(life := world.life, strangers := world.strangers)
      ensures undisturbed ==> world == old(world)
    {
      hide History, Accounted;
      var w: World := *;
      if undisturbed || !EngineStep(world, w) || !(confirmed !! w.strangers) {
        w := world;
      }
      StepsOn(world, w);
      StepKeepsAccounted(world, w);
      HistoryExtends(trace, w);
      trace := trace + [w];
      world := w;
      EngineNoCreate(old(world), world);
    }

    lemma StepsOn(w: World, w': World)
      requires Valid() && w == world
      requires w' == w || EngineStep(w, w')
      ensures EngineStep(w, w') && Step(w, w')
    {
    }

    // ---- commands to the engine ---------------------------------------------------------------------

    /** Note what was last read under a name. */
    method Note(tag: Label, k: Key)
      requires Valid() && (tag.Own? ==> k !in world.strangers)
      modifies this`confirmed
      ensures Valid() && confirmed == AfterReading(old(confirmed), tag, k)
    {
      hide History, Accounted;
      confirmed := AfterReading(confirmed, tag, k);
    }

    /** Give up what was read under a name: nothing will be removed on the strength of it. */
    method Forget(k: Key)
      requires Valid()
      modifies this`confirmed
      ensures Valid() && confirmed == old(confirmed) - {k}
    {
      hide History, Accounted;
      confirmed := confirmed - {k};
    }

    /** Read the attempt label under the name of one role. Only the engine the attempt was started on can
        show its resources; a foreign resource may hold the name while ours does not exist. */
    method Inspect(engine: nat, role: Role) returns (tag: Label)
      requires Valid() && world.journal.Some?
      modifies this
      ensures Valid() && old(trace) <= trace
      ensures NoCreate(old(world), world) && world == old(world).(life := world.life, strangers := world.strangers)
      ensures confirmed == AfterReading(old(confirmed), tag, Key(world.journal.value.token, role))
      ensures confirmed <= old(confirmed) + {Key(world.journal.value.token, role)}
      ensures tag.Own? ==> Key(world.journal.value.token, role) in confirmed
      ensures tag.Absent? || tag.Foreign? ==> Key(world.journal.value.token, role) !in confirmed
      ensures tag.Unreadable? ==> confirmed == old(confirmed)
      ensures tag.Own? ==> engine == world.journal.value.engine && Arrived(world, world.journal.value.token, role)
      ensures tag.Absent? && engine == world.journal.value.engine ==>
                (Quiet(old(world), world.journal.value.token, role) ==> Done(world, world.journal.value.token, role))
      ensures undisturbed && engine == world.journal.value.engine ==>
                world == old(world) && tag == if Exists(world, world.journal.value.token, role) then Own else Absent
    {
      hide Valid, NoCreate;
      ghost var token := world.journal.value.token;
      Interfere();
      ghost var seen := world;
      NoCreateKeeps(old(world), seen, token, role);
      tag := *;
      var k := Key(world.journal.value.token, role);
      var present := engine == world.journal.value.engine && LifeOf(world, world.journal.value.token, role).Present?;
      if tag.Own? {
        tag := Unreadable;
      }
      if undisturbed || !tag.Unreadable? {
        tag := if present then Own
               else if engine != world.journal.value.engine then tag
               else if k in world.strangers then Foreign else Absent;
      }
      IsAccounted();
      Note(tag, k);
      Interfere();
      NoCreateTransitive(old(world), seen, world);
      NoCreateKeeps(seen, world, token, role);
    }

    /** The participant's full state, read like `Inspect`. */
    method InspectParticipant(engine: nat) returns (seen: Seen)
      requires Valid() && world.journal.Some?
      modifies this
      ensures Valid() && old(trace) <= trace
      ensures NoCreate(old(world), world) && world == old(world).(life := world.life, strangers := world.strangers)
      ensures seen.SeenOwn? ==> Key(world.journal.value.token, Participant) in confirmed
      ensures confirmed <= old(confirmed) + {Key(world.journal.value.token, Participant)}
      ensures seen.SeenError? ==> confirmed == old(confirmed)
      ensures seen.SeenNothing? || seen.SeenForeign? ==> Key(world.journal.value.token, Participant) !in confirmed
      ensures seen.SeenOwn? ==>
                engine == world.journal.value.engine && Arrived(world, world.journal.value.token, Participant)
      ensures seen.SeenNothing? && engine == world.journal.value.engine ==>
                (Quiet(old(world), world.journal.value.token, Participant) ==>
                    Done(world, world.journal.value.token, Participant))
      ensures undisturbed && engine == world.journal.value.engine ==>
                && world == old(world)
                && if Exists(world, world.journal.value.token, Participant) then seen.SeenOwn? else seen.SeenNothing?
    {
      hide Valid, NoCreate, Arrived, Quiet, Done, Exists;
      var tag := Inspect(engine, Participant);
      match tag
      case Absent => seen := SeenNothing;
      case Unreadable => seen := SeenError;
      case Foreign => seen := SeenForeign;
      case Own =>
        var snapshot: Snapshot := *;
        seen := SeenOwn(snapshot);
    }

    /** `docker rm`: delete whatever holds the role's name. The label read there last must be ours, and the
        command uses that reading up. */
    method Remove(engine: nat, role: Role) returns (removal: Removal)
      requires Valid() && world.journal.Some? && engine == world.journal.value.engine
      requires Arrived(world, world.journal.value.token, role) && Key(world.journal.value.token, role) in confirmed
      modifies this
      ensures Valid() && old(trace) <= trace
      ensures NoCreate(old(world), world) && world == old(world).(life := world.life, strangers := world.strangers)
      ensures confirmed == old(confirmed) - {Key(world.journal.value.token, role)}
      ensures !removal.RemovalFailed? ==> Done(world, world.journal.value.token, role)
      ensures undisturbed ==>
                var token := world.journal.value.token;
                && removal == (if Exists(old(world), token, role) then Removed else NoSuchResource)
                && SameOthers(old(world), world, token, role)
    {
      hide Valid, NoCreate, Accounted, History;
      var k := Key(world.journal.value.token, role);
      Interfere();
      NoCreateKeeps(old(world), world, k.token, role);
      IsAccounted();
      removal := *;
      var goneAnyway: bool := *;
      if world.life[k].Present? && removal.NoSuchResource? {
        removal := RemovalFailed;
      }
      if undisturbed {
        removal := if world.life[k].Present? then Removed else NoSuchResource;
      }
      if goneAnyway || !removal.RemovalFailed? {
        ghost var before := world;
        var w := world.(life := if k in world.life && world.life[k].Present? then world.life[k := Gone] else world.life,
                        strangers := world.strangers - {k},
                        harmed := world.harmed + world.strangers * {k});
        assert RemoveStep(world, w, k);
        assert world.strangers * {k} == {};
        Take(w);
        RemovalIsEvent(before, world, k);
        NoCreateTransitive(old(world), before, world);
      }
      Note(Absent, k);
    }

    /** `docker stop`: end whatever runs under the participant's name. The label read there last must be
        ours. */
    method StopContainer(engine: nat) returns (ok: bool)
      requires Valid() && world.journal.Some? && engine == world.journal.value.engine
      requires Key(world.journal.value.token, Participant) in confirmed
      modifies this`world, this`trace
      ensures Valid() && old(trace) <= trace
      ensures NoCreate(old(world), world) && world == old(world).(life := world.life, strangers := world.strangers)
      ensures undisturbed ==> ok && world == old(world)
    {
      hide Valid, NoCreate, Accounted, History;
      var k := Key(world.journal.value.token, Participant);
      Interfere();
      ghost var before := world;
      IsAccounted();
      ok := *;
      ok := ok || undisturbed;
      var w := world.(harmed := world.harmed + world.strangers * {k});
      assert StopStep(world, w, k);
      assert world.strangers * {k} == {};
      Take(w);
      SameLife(before, world);
      NoCreateTransitive(old(world), before, world);
      before := world;
      Interfere();
      NoCreateTransitive(old(world), before, world);
    }

    /** Ask the engine to create one role's resource. Whether or not the client reports success, and even
        if it dies, the engine may already have done so or may still. */
    method RequestCreate(role: Role)
      requires Valid() && world.journal.Some? && role !in world.journal.value.observed
      requires Untouched(world, world.journal.value.token, role)
      modifies this`world, this`trace
      ensures Valid() && old(trace) <= trace
      ensures world == old(world).(life := world.life, strangers := world.strangers)
      ensures forall other: Role :: other != role ==> Keeps(old(world), world, world.journal.value.token, other)
      ensures undisturbed ==>
                && Exists(world, world.journal.value.token, role)
                && SameOthers(old(world), world, world.journal.value.token, role)
    {
      hide Valid, NoCreate, Accounted, History;
      ghost var token := world.journal.value.token;
      var sent: bool := *;
      if sent || undisturbed {
        var w := world.(life := world.life[Key(world.journal.value.token, role) := InFlight]);
        assert RequestStep(world, w, role);
        Take(w);
      }
      if undisturbed {
        ghost var before := world;
        IsAccounted();
        var w := world.(life := world.life[Key(world.journal.value.token, role) := Present]);
        Landed(world, w, Key(world.journal.value.token, role));
        Take(w);
      }
      ghost var requested := world;
      Interfere();
      forall other: Role | other != role
        ensures Keeps(old(world), world, token, other)
      {
        assert LifeOf(requested, token, other) == LifeOf(old(world), token, other);
        NoCreateKeeps(requested, world, token, other);
      }
    }

    // ---- files of the directory -----------------------------------------------------------------------

    /** Write a new attempt's journal. A failure may leave it on disk all the same. */
    method WriteJournal(j: Journal) returns (ok: bool)
      requires Valid() && world.journal.None? && world.output.None? && j.token == world.issued && j.observed == {}
      modifies this`world, this`trace
      ensures Valid() && old(trace) <= trace
      ensures NoCreate(old(world), world) && world.output == old(world).output
      ensures (world.journal.None? && world.issued == old(world).issued)
              || (world.journal == Some(j) && world.issued == j.token + 1)
      ensures ok ==> world.journal.Some?
      ensures undisturbed ==> ok && world == old(world).(journal := Some(j), issued := world.issued)
    {
      hide Valid, NoCreate, Accounted, History;
      Interfere();
      ok := *;
      var written: bool := *;
      ok := ok || undisturbed;
      if ok || written {
        ghost var before := world;
        var w := world.(journal := Some(j), issued := world.issued + 1);
        assert WriteStep(world, w);
        Take(w);
        SameLife(before, world);
        NoCreateTransitive(old(world), before, world);
      }
    }

    /** Rewrite the journal with more observed roles. A failure may have replaced it all the same. */
    method Observe(roles: set<Role>) returns (ok: bool)
      requires Valid() && world.journal.Some? && world.journal.value.observed <= roles
      requires forall role :: role in roles ==> Quiet(world, world.journal.value.token, role)
      modifies this`world, this`trace
      ensures Valid() && old(trace) <= trace
      ensures NoCreate(old(world), world) && world.output == old(world).output && world.issued == old(world).issued
      ensures world.journal == old(world).journal || world.journal == Some(old(world).journal.value.(observed := roles))
      ensures ok ==> world.journal == Some(old(world).journal.value.(observed := roles))
      ensures undisturbed ==> ok && world == old(world).(journal := world.journal)
    {
      hide Valid, NoCreate, Accounted, History;
      ghost var token := world.journal.value.token;
      Interfere();
      ok := *;
      var written: bool := *;
      ok := ok || undisturbed;
      if ok || written {
        ghost var before := world;
        var w := world.(journal := Some(world.journal.value.(observed := roles)));
        forall role | role in roles
          ensures !LifeOf(world, token, role).InFlight?
        {
          NoCreateKeeps(old(world), world, token, role);
        }
        assert ObserveStep(world, w);
        Take(w);
        SameLife(before, world);
        NoCreateTransitive(old(world), before, world);
      }
    }

    /** Unlink the journal. A failure of the directory sync comes after the unlink. */
    method DropJournal() returns (ok: bool)
      requires Valid() && world.journal.Some?
      requires forall role: Role :: Done(world, world.journal.value.token, role)
      modifies this`world, this`trace
      ensures Valid() && old(trace) <= trace
      ensures NoCreate(old(world), world) && world.output == old(world).output && world.issued == old(world).issued
      ensures world.journal == old(world).journal || world.journal.None?
      ensures ok ==> world.journal.None?
      ensures undisturbed ==> ok
    {
      hide Valid, NoCreate, Accounted, History;
      ghost var token := world.journal.value.token;
      Interfere();
      ok := *;
      var unlinked: bool := *;
      ok := ok || undisturbed;
      if ok || unlinked {
        ghost var before := world;
        var w := world.(journal := None);
        forall role: Role
          ensures Settled(LifeOf(world, token, role))
        {
          assert Done(old(world), token, role);
          NoCreateKeeps(old(world), world, token, role);
        }
        assert DropStep(world, w);
        Take(w);
        SameLife(before, world);
        NoCreateTransitive(old(world), before, world);
      }
    }

    /** Replace or unlink the submission file; a failure changes nothing. */
    method SetOutput(submission: Option<Submission>) returns (ok: bool)
      requires Valid() && world.journal.None?
      modifies this`world, this`trace
      ensures Valid() && old(trace) <= trace
      ensures NoCreate(old(world), world) && world.journal == old(world).journal && world.issued == old(world).issued
      ensures world.output == if ok then submission else old(world).output
      ensures undisturbed ==> ok
    {
      hide Valid, NoCreate, Accounted, History;
      Interfere();
      ok := *;
      ok := ok || undisturbed;
      if ok {
        ghost var before := world;
        var w := world.(output := submission);
        assert OutputStep(world, w);
        Take(w);
        SameLife(before, world);
        NoCreateTransitive(old(world), before, world);
      }
    }

    // ---- the isolated run -----------------------------------------------------------------------------

    /** `_create_output_volume` and `_start_output_helper`: request, then insist on reading our label. The
        reading says that the create was answered; no later removal rests on it. */
    method CreateAndConfirm(engine: nat, role: Role) returns (ok: bool)
      requires Valid() && world.journal.Some? && role !in world.journal.value.observed
      requires Untouched(world, world.journal.value.token, role)
      modifies this
      ensures Valid() && old(trace) <= trace
      ensures confirmed <= old(confirmed)
      ensures world == old(world).(life := world.life, strangers := world.strangers)
      ensures forall other: Role :: other != role ==> Keeps(old(world), world, world.journal.value.token, other)
      ensures ok ==> Arrived(world, world.journal.value.token, role)
      ensures undisturbed && engine == world.journal.value.engine ==> ok
    {
      hide *;
      ghost var token := world.journal.value.token;
      RequestCreate(role);
      ok := *;
      ok := ok || undisturbed;
      if ok {
        ghost var requested := world;
        var tag := Inspect(engine, role);
        ok := tag.Own?;
        forall other: Role | other != role
          ensures Keeps(old(world), world, token, other)
        {
          NoCreateKeeps(requested, world, token, other);
          KeepsTransitive(old(world), requested, world, token, other);
        }
      }
      Forget(Key(world.journal.value.token, role));
    }

    /** `_remove_output_workspace` for one role: remove it only if the label read there is ours. */
    method RemoveIfOwn(engine: nat, role: Role) returns (error: bool)
      requires Valid() && world.journal.Some? && engine == world.journal.value.engine
      modifies this
      ensures Valid() && old(trace) <= trace
      ensures confirmed <= old(confirmed)
      ensures NoCreate(old(world), world) && world == old(world).(life := world.life, strangers := world.strangers)
      ensures !error ==>
                (Quiet(old(world), world.journal.value.token, role) ==> Done(world, world.journal.value.token, role))
      ensures undisturbed ==> !error
    {
      hide *;
      var tag := Inspect(engine, role);
      error := tag.Unreadable? || tag.Foreign?;
      if tag.Own? {
        ghost var seen := world;
        var removal := Remove(engine, role);
        error := removal.RemovalFailed?;
        NoCreateTransitive(old(world), seen, world);
      }
    }

    /** `_managed_output_cleanup`'s final part: nothing to do if no create was attempted, nothing done if
        the engine's identity cannot be confirmed, and both roles tried otherwise. */
    method CleanUp(engine: nat, sameEngine: bool, helperStarted: bool, volumeCreated: bool) returns (errors: bool)
      requires Valid()
      requires helperStarted || volumeCreated ==> world.journal.Some? && engine == world.journal.value.engine
      modifies this
      ensures Valid() && old(trace) <= trace
      ensures confirmed <= old(confirmed)
      ensures NoCreate(old(world), world) && world == old(world).(life := world.life, strangers := world.strangers)
      ensures !errors && helperStarted ==>
                (Quiet(old(world), world.journal.value.token, Helper) ==>
                    Done(world, world.journal.value.token, Helper))
      ensures !errors && volumeCreated ==>
                (Quiet(old(world), world.journal.value.token, Volume) ==>
                    Done(world, world.journal.value.token, Volume))
      ensures !sameEngine || !(helperStarted || volumeCreated) ==> world == old(world) && trace == old(trace)
      ensures !sameEngine && (helperStarted || volumeCreated) ==> errors
      ensures undisturbed && sameEngine ==> !errors
    {
      hide *;
      errors := false;
      SameLife(world, world);
      if helperStarted || volumeCreated {
        ghost var token := world.journal.value.token;
        if !sameEngine {
          return true;
        }
        if helperStarted {
          var error := RemoveIfOwn(engine, Helper);
          errors := errors || error;
        }
        if volumeCreated {
          ghost var before := world;
          NoCreateKeeps(old(world), before, token, Volume);
          var error := RemoveIfOwn(engine, Volume);
          errors := errors || error;
          NoCreateTransitive(old(world), before, world);
          NoCreateKeeps(before, world, token, Helper);
        }
      }
    }

    /** `docker run` of the participant with the extraction and validation that follow, as outcomes. A
        client that exits on its own has no create outstanding; that is assumed. */
    method RunParticipant(engine: nat) returns (end: ClientEnd, result: AttemptResult)
      requires Valid() && world.journal.Some? && Participant !in world.journal.value.observed
      requires Untouched(world, world.journal.value.token, Participant)
      modifies this`world, this`trace
      ensures Valid() && old(trace) <= trace
      ensures world == old(world).(life := world.life, strangers := world.strangers)
      ensures forall other: Role :: other != Participant ==> Keeps(old(world), world, world.journal.value.token, other)
      ensures end.NotStarted? || end.ExitedAlone? ==> Quiet(world, world.journal.value.token, Participant)
      ensures ClientVerdict(result)
      ensures result.operatorTerminated <==> end.TerminatedByOperator?
      ensures undisturbed ==> !end.NotStarted? && !end.Escaped? && Exists(world, world.journal.value.token, Participant)
    {
      hide Valid, NoCreate, Accounted, History, EngineStep, Keeps, Quiet, Untouched, Done, Arrived;
      ghost var token := world.journal.value.token;
      end := *;
      if undisturbed && (end.NotStarted? || end.Escaped?) {
        end := ExitedAlone;
      }
      var kind: AttemptKind := *;
      var submission: Submission := *;
      var code: Option<int> := *;
      if kind.FairnessViolation? || end.NotStarted? || (kind.Valid? && !end.ExitedAlone?) {
        kind := InfrastructureFailure;
      }
      if kind.Valid? {
        code := Some(0);
      }
      result := AttemptResult(kind, if kind.Valid? then Some(submission) else None, code,
                              end.TerminatedByOperator?, false, None);
      if end.NotStarted? {
        Interfere();
        forall role: Role
          ensures Keeps(old(world), world, token, role)
        {
          NoCreateKeeps(old(world), world, token, role);
        }
        KeepsFacts(old(world), world, token, Participant);
        RoleFacts(world, token, Participant);
      } else {
        RequestCreate(Participant);
        if end.ExitedAlone? {
          SettleCreate(Participant, old(world));
        }
      }
    }

    /** The environment assumption itself: the engine answers an outstanding create before its client
        exits on its own. */
    method SettleCreate(role: Role, ghost start: World)
      requires Valid() && world.journal.Some?
      requires forall other: Role :: other != role ==> Keeps(start, world, world.journal.value.token, other)
      modifies this`world, this`trace
      ensures Valid() && old(trace) <= trace
      ensures world == old(world).(life := world.life, strangers := world.strangers)
      ensures forall other: Role :: other != role ==> Keeps(start, world, world.journal.value.token, other)
      ensures Quiet(world, world.journal.value.token, role)
      ensures undisturbed && Exists(old(world), world.journal.value.token, role) ==>
                Exists(world, world.journal.value.token, role)
    {
      hide Valid, NoCreate, Accounted, History, Keeps;
      ghost var token := world.journal.value.token;
      if LifeOf(world, world.journal.value.token, role).InFlight? {
        var landed: bool := *;
        var k := Key(world.journal.value.token, role);
        var w := world.(life := world.life[k := if landed && k !in world.strangers then Present else Gone]);
        IsAccounted();
        Landed(world, w, k);
        Take(w);
        forall other: Role | other != role
          ensures Keeps(start, world, token, other)
        {
          NoCreateKeeps(old(world), world, token, other);
          KeepsTransitive(start, old(world), world, token, other);
        }
      }
    }

    /** Stop a participant that still seems to run, and look again. */
    method StopIfRunning(engine: nat, first: Snapshot) returns (stop: Stop)
      requires Valid() && world.journal.Some? && engine == world.journal.value.engine
      requires Arrived(world, world.journal.value.token, Participant)
      requires Key(world.journal.value.token, Participant) in confirmed
      modifies this
      ensures Valid() && old(trace) <= trace
      ensures confirmed <= old(confirmed)
      ensures NoCreate(old(world), world) && world == old(world).(life := world.life, strangers := world.strangers)
      ensures stop != Stopped(SeenNothing) && stop != Stopped(SeenForeign) ==>
                Key(world.journal.value.token, Participant) in confirmed
      ensures stop == Stopped(SeenNothing) || stop == Stopped(SeenForeign) ==>
                Key(world.journal.value.token, Participant) !in confirmed
      ensures stop.NotNeeded? <==> !StillRunning(first.status)
      ensures stop == Stopped(SeenNothing) ==> Done(world, world.journal.value.token, Participant)
      ensures undisturbed && Exists(old(world), world.journal.value.token, Participant) ==>
                (stop.NotNeeded? || (stop.Stopped? && stop.again.SeenOwn?)) &&
                    Exists(world, world.journal.value.token, Participant)
    {
      hide *;
      SameLife(world, world);
      stop := NotNeeded;
      if StillRunning(first.status) {
        var stopped := StopContainer(engine);
        stop := StopFailed;
        if stopped {
          ghost var before := world;
          ghost var token := world.journal.value.token;
          NoCreateKeeps(old(world), before, token, Participant);
          RoleFacts(before, token, Participant);
          var again := InspectParticipant(engine);
          NoCreateTransitive(old(world), before, world);
          stop := Stopped(again);
        }
      }
    }

    /** `observe_participant`: all three creates are answered once the participant was seen. */
    method RecordParticipant(engine: nat) returns (ok: bool)
      requires Valid() && world.journal.Some? && engine == world.journal.value.engine
      requires forall role: Role :: Quiet(world, world.journal.value.token, role)
      requires world.journal.value.observed <= {Helper, Volume}
      modifies this`world, this`trace
      ensures Valid() && old(trace) <= trace
      ensures NoCreate(old(world), world) && world.output == old(world).output && world.issued == old(world).issued
      ensures Journalled(world, engine, old(world).journal.value.token)
      ensures ok ==> world.journal.value.observed == ALL_ROLES
      ensures undisturbed ==> ok && world == old(world).(journal := world.journal)
    {
      hide Valid, NoCreate, Quiet;
      ok := Observe(ALL_ROLES);
    }

    /** `_reconcile_and_remove_participant_container`. Unless cleanup is left pending, the participant is
        gone for good. A valid verdict survives exactly if the engine's record confirms it, or if the
        container vanished while it was being stopped. */
    method ReconcileParticipant(engine: nat, input: AttemptResult) returns (result: AttemptResult, evidence: Evidence)
      requires Valid() && world.journal.Some? && engine == world.journal.value.engine
      requires ClientVerdict(input)
      requires !input.operatorTerminated ==> Quiet(world, world.journal.value.token, Participant)
      requires Quiet(world, world.journal.value.token, Helper) && Quiet(world, world.journal.value.token, Volume)
      requires world.journal.value.observed <= {Helper, Volume}
      modifies this
      ensures Valid() && old(trace) <= trace
      ensures confirmed <= old(confirmed)
      ensures NoCreate(old(world), world) && world.output == old(world).output && world.issued == old(world).issued
      ensures Journalled(world, engine, old(world).journal.value.token)
      ensures WellFormed(result)
      ensures !result.cleanupPending ==> Done(world, old(world).journal.value.token, Participant)
      ensures evidence.Container? && evidence.recorded ==> world.journal.value.observed == ALL_ROLES
      ensures CalledFor(input, evidence, result)
      ensures result.kind.Valid? <==> input.kind.Valid? && (ExitConfirmed(evidence) || VanishedWhileStopping(evidence))
      ensures result.kind.Valid? ==> result == input
      ensures undisturbed && Exists(old(world), old(world).journal.value.token, Participant) ==>
                Followed(Returned(result), input, evidence) && !result.cleanupPending
    {
      hide Exists, Valid, NoCreate, Quiet, Arrived, Done, Untouched, Keeps, Judged, CalledFor;
      ghost var token := world.journal.value.token;
      var seen := InspectParticipant(engine);
      ghost var inspected := world;
      evidence := NoOwnContainer(seen);
      if !seen.SeenOwn? {
        NothingOfOurs(input, seen);
        result := Infrastructure(input);
        if input.operatorTerminated || !seen.SeenNothing? {
          result := Pending(input);
        }
        return;
      }
      forall role: Role
        ensures Quiet(world, token, role)
      {
        RoleFacts(world, token, role);
        NoCreateKeeps(old(world), world, token, role);
        assert role == Participant || role == Helper || role == Volume;
      }
      var recorded := RecordParticipant(engine);
      NoCreateTransitive(old(world), inspected, world);
      NoCreateKeeps(inspected, world, token, Participant);
      if undisturbed {
        SameExists(inspected, world, token, Participant);
      }
      ghost var observed := world;
      var first := seen.snapshot;
      var stop := StopIfRunning(engine, first);
      NoCreateTransitive(old(world), observed, world);
      NoCreateKeeps(observed, world, token, Participant);
      evidence := Container(first, recorded, stop, None);
      result := Judged(input, first, recorded, stop);
      JudgedExactly(input, first, recorded, stop);
      KindExactly(input, first, recorded, stop, Removed);
      if stop == Stopped(SeenNothing) {
        return;
      }
      if stop != Stopped(SeenForeign) {
        ghost var stopped := world;
        var removal := Remove(engine, Participant);
        KindExactly(input, first, recorded, stop, removal);
        NoCreateTransitive(old(world), stopped, world);
        evidence := Container(first, recorded, stop, Some(removal));
        if !removal.Removed? {
          result := Pending(result);
        }
      }
    }

    /** `_best_effort_remove_participant_container`: whatever happens, the exception goes on. */
    method BestEffortRemove(engine: nat) returns (seen: Seen, stopped: bool, removal: Option<Removal>)
      requires Valid() && world.journal.Some? && engine == world.journal.value.engine
      modifies this
      ensures Valid() && old(trace) <= trace
      ensures confirmed <= old(confirmed)
      ensures NoCreate(old(world), world) && world == old(world).(life := world.life, strangers := world.strangers)
      ensures stopped <==> seen.SeenOwn? && StillRunning(seen.snapshot.status)
      ensures removal.Some? <==> seen.SeenOwn?
      ensures removal.Some? && !removal.value.RemovalFailed? ==> Done(world, world.journal.value.token, Participant)
    {
      hide Valid, NoCreate, Quiet, Arrived, Done;
      ghost var token := world.journal.value.token;
      seen := InspectParticipant(engine);
      stopped, removal := false, None;
      if seen.SeenOwn? {
        if StillRunning(seen.snapshot.status) {
          ghost var inspected := world;
          var ok := StopContainer(engine);
          stopped := true;
          NoCreateTransitive(old(world), inspected, world);
          NoCreateKeeps(inspected, world, token, Participant);
        }
        ghost var before := world;
        var removed := Remove(engine, Participant);
        removal := Some(removed);
        NoCreateTransitive(old(world), before, world);
      }
    }

    /** The participant's run and what follows it, once the workspace stands. */
    method RunAndReconcile(engine: nat, sameEngine: bool)
        returns (outcome: Outcome, verdict: AttemptResult, evidence: Evidence)
      requires Valid() && world.journal.Some? && engine == world.journal.value.engine
      requires world.journal.value.observed == {Helper, Volume}
      requires Untouched(world, world.journal.value.token, Participant)
      requires Quiet(world, world.journal.value.token, Helper) && Quiet(world, world.journal.value.token, Volume)
      modifies this
      ensures Valid() && old(trace) <= trace
      ensures confirmed <= old(confirmed)
      ensures world.output == old(world).output && world.issued == old(world).issued
      ensures Journalled(world, engine, old(world).journal.value.token)
      ensures Quiet(world, old(world).journal.value.token, Helper) &&
                Quiet(world, old(world).journal.value.token, Volume)
      ensures outcome.Returned? ==> WellFormed(outcome.result)
      ensures outcome.Returned? && !outcome.result.cleanupPending ==>
                Done(world, old(world).journal.value.token, Participant)
      ensures outcome.Returned? && outcome.result.kind.ExecutionFailure? ==> ParticipantFailed(verdict, evidence)
      ensures outcome.Returned? && outcome.result.kind.Valid? ==>
                ExitConfirmed(evidence) || VanishedWhileStopping(evidence)
      ensures !sameEngine ==> evidence.NotLooked? && (outcome.Returned? ==> outcome.result == Pending(verdict))
      ensures undisturbed && sameEngine ==> Followed(outcome, verdict, evidence) && !outcome.result.cleanupPending
    {
      hide ParticipantFailed, OperatorFailed, Unsettled, Exists, Followed, Valid, NoCreate, Quiet, Arrived, Done,
           Untouched, Keeps, ExitConfirmed, VanishedWhileStopping, StillRunning;
      ghost var token := world.journal.value.token;
      evidence := NotLooked;
      var end;
      end, verdict := RunParticipant(engine);
      ghost var ran := world;
      KeepsFacts(old(world), ran, token, Helper);
      KeepsFacts(old(world), ran, token, Volume);
      if end.Escaped? {
        if sameEngine {
          var seen, stopped, removal := BestEffortRemove(engine);
          NoCreateKeeps(ran, world, token, Helper);
          NoCreateKeeps(ran, world, token, Volume);
        }
        outcome := Raised(end.unavailable);
      } else if !sameEngine {
        outcome := Returned(Pending(verdict));
      } else {
        assert end.NotStarted? || end.ExitedAlone? || end.TerminatedByOperator?;
        var reconciled;
        reconciled, evidence := ReconcileParticipant(engine, verdict);
        NoCreateKeeps(ran, world, token, Helper);
        NoCreateKeeps(ran, world, token, Volume);
        outcome := Returned(reconciled);
      }
    }

    /** One create of the workspace with the journal entry that follows it. */
    method CreateRecorded(engine: nat, role: Role, recorded: set<Role>) returns (ok: bool)
      requires Valid() && world.journal.Some? && world.journal.value.observed == recorded && role !in recorded
      requires Untouched(world, world.journal.value.token, role)
      requires forall other :: other in recorded ==> Quiet(world, world.journal.value.token, other)
      modifies this
      ensures Valid() && old(trace) <= trace
      ensures confirmed <= old(confirmed)
      ensures world.output == old(world).output && world.issued == old(world).issued
      ensures Journalled(world, old(world).journal.value.engine, old(world).journal.value.token)
      ensures forall other: Role :: other != role ==> Keeps(old(world), world, old(world).journal.value.token, other)
      ensures ok ==> world.journal.value.observed == recorded + {role} && Quiet(world, world.journal.value.token, role)
      ensures undisturbed && engine == old(world).journal.value.engine ==> ok
    {
      hide Valid, NoCreate, Quiet, Arrived, Done, Untouched, Keeps;
      ghost var token := world.journal.value.token;
      ok := CreateAndConfirm(engine, role);
      if ok {
        ghost var created := world;
        forall other | other in recorded + {role}
          ensures Quiet(created, token, other)
        {
          RoleFacts(created, token, other);
          if other != role {
            KeepsFacts(old(world), created, token, other);
          }
        }
        ok := Observe(recorded + {role});
        NoCreateKeeps(created, world, token, role);
        forall other: Role | other != role
          ensures Keeps(old(world), world, token, other)
        {
          NoCreateKeeps(created, world, token, other);
          KeepsTransitive(old(world), created, world, token, other);
        }
      }
    }

    /** The body of `_managed_output_cleanup`: journal first, then volume, helper and participant, each
        requested only after the one before was seen and recorded. */
    method RunBody(engine: nat, j: Journal)
        returns (outcome: Outcome, helperStarted: bool, volumeCreated: bool, verdict: AttemptResult, evidence: Evidence)
      requires Valid() && world.journal.None? && world.output.None?
      requires j.token == world.issued && j.observed == {} && j.engine == engine
      modifies this
      ensures Valid() && old(trace) <= trace
      ensures confirmed <= old(confirmed)
      ensures world.output == old(world).output
      ensures world.journal.None? || Journalled(world, engine, j.token)
      ensures helperStarted || volumeCreated ==> world.journal.Some?
      ensures outcome.Returned? ==> WellFormed(outcome.result)
      ensures outcome.Returned? && !outcome.result.cleanupPending ==> Done(world, j.token, Participant)
      ensures outcome.Returned? && !outcome.result.cleanupPending ==>
                Quiet(world, j.token, Helper) && Quiet(world, j.token, Volume)
      ensures !helperStarted ==> Done(world, j.token, Helper)
      ensures !volumeCreated ==> Done(world, j.token, Volume)
      ensures outcome.Returned? && outcome.result.kind.ExecutionFailure? ==> ParticipantFailed(verdict, evidence)
      ensures outcome.Returned? && outcome.result.kind.Valid? ==>
                volumeCreated && (ExitConfirmed(evidence) || VanishedWhileStopping(evidence))
      ensures undisturbed ==> Followed(outcome, verdict, evidence) && !outcome.result.cleanupPending
    {
      hide ParticipantFailed, CalledFor, Exists, Followed, Valid, NoCreate, Quiet, Arrived, Done, Untouched, Keeps,
           ExitConfirmed, VanishedWhileStopping, StillRunning;
      helperStarted, volumeCreated, evidence := false, false, NotLooked;
      verdict := Failure(false);
      outcome := Returned(verdict);
      StartsUntouched(j.token);
      var prepared: bool := *;
      if !prepared && !undisturbed {
        return;
      }
      ghost var before := world;
      var written := WriteJournal(j);
      UntouchedSurvives(before, world, j.token);
      if !written {
        return;
      }
      volumeCreated := true;
      ghost var journalled := world;
      var ok := CreateRecorded(engine, Volume, {});
      KeepsFacts(journalled, world, j.token, Helper);
      KeepsFacts(journalled, world, j.token, Participant);
      RoleFacts(world, j.token, Helper);
      RoleFacts(world, j.token, Participant);
      if !ok {
        outcome := Returned(Failure(true));
        return;
      }
      helperStarted := true;
      ghost var mounted := world;
      ok := CreateRecorded(engine, Helper, {Volume});
      KeepsFacts(mounted, world, j.token, Volume);
      KeepsFacts(mounted, world, j.token, Participant);
      RoleFacts(world, j.token, Participant);
      if !ok {
        outcome := Returned(Failure(true));
        return;
      }
      var coreDumpsOff: bool := *;
      if coreDumpsOff || undisturbed {
        var sameEngine: bool := *;
        outcome, verdict, evidence := RunAndReconcile(engine, sameEngine || undisturbed);
      }
    }

    lemma StartsUntouched(token: nat)
      requires Valid() && token == world.issued
      ensures Untouched(world, token, Participant) && Untouched(world, token, Helper) && Untouched(world, token, Volume)
      ensures Done(world, token, Participant) && Done(world, token, Helper) && Done(world, token, Volume)
      ensures Quiet(world, token, Helper) && Quiet(world, token, Volume)
    {
      hide *;
      IsAccounted();
      forall role: Role
        ensures Untouched(world, token, role) && Done(world, token, role) && Quiet(world, token, role)
      {
        FreshUntouched(world, role);
        RoleFacts(world, token, role);
      }
    }

    /** The end of an attempt whose resources are all gone: its journal, if it reached the disk, lists every
        role as observed and is then unlinked. */
    method CloseJournal(sameEngine: bool) returns (closing: Recovery)
      requires Valid()
      requires world.journal.Some? ==> forall role: Role :: Done(world, world.journal.value.token, role)
      modifies this`world, this`trace
      ensures Valid() && old(trace) <= trace
      ensures NoCreate(old(world), world) && world.output == old(world).output && world.issued == old(world).issued
      ensures closing.Clean? ==> world.journal.None?
      ensures closing.Blocked? ==> world.journal.Some?
      ensures world.journal.Some? ==>
                old(world).journal.Some? && world.journal.value.token == old(world).journal.value.token
      ensures old(world).journal.Some? && !sameEngine ==> !closing.Clean? && world.journal.Some?
      ensures undisturbed && sameEngine ==> closing.Clean?
    {
      hide Valid, NoCreate, Quiet, Done;
      closing := Clean;
      SameLife(world, world);
      if world.journal.Some? {
        ghost var token := world.journal.value.token;
        forall role: Role
          ensures Quiet(world, token, role)
        {
          assert Done(world, token, role);
          RoleFacts(world, token, role);
        }
        forall role: Role
          ensures role in ALL_ROLES
        {
          assert role == Participant || role == Helper || role == Volume;
        }
        var observed := Observe(ALL_ROLES);
        if !observed {
          closing := Unavailable;
        } else if !sameEngine {
          closing := Blocked;
        } else {
          ghost var listed := world;
          forall role: Role
            ensures Done(listed, token, role)
          {
            assert Done(old(world), token, role);
            NoCreateKeeps(old(world), listed, token, role);
          }
          var dropped := DropJournal();
          NoCreateTransitive(old(world), listed, world);
          if !dropped {
            closing := Unavailable;
          }
        }
      }
    }

    /** The attempt in its temporary directory: workspace, participant, cleanup, journal and publication. */
    method RunInWorkspace(engine: nat, command: nat)
        returns (outcome: Outcome, verdict: AttemptResult, evidence: Evidence)
      requires Valid() && world.journal.None? && world.output.None?
      modifies this
      ensures Valid() && old(trace) <= trace
      ensures confirmed <= old(confirmed)
      ensures outcome.Returned? ==> WellFormed(outcome.result)
      ensures outcome.Returned? && !outcome.result.cleanupPending ==> world.journal.None?
      ensures world.journal.Some? ==> world.journal.value.token == old(world).issued
      ensures outcome.Returned? && outcome.result.kind.ExecutionFailure? ==> ParticipantFailed(verdict, evidence)
      ensures outcome.Returned? && outcome.result.kind.Valid? ==>
                world.output == outcome.result.submission &&
                    (ExitConfirmed(evidence) || VanishedWhileStopping(evidence))
      ensures outcome.Raised? || !outcome.result.kind.Valid? ==> world.output.None?
      ensures undisturbed ==> Followed(outcome, verdict, evidence) && !outcome.result.cleanupPending
    {
      hide ParticipantFailed, CalledFor, Exists, Followed, Valid, NoCreate, Quiet, Arrived, Done, Untouched, Keeps,
           ExitConfirmed, VanishedWhileStopping, StillRunning;
      var token := world.issued;
      var helperStarted, volumeCreated;
      outcome, helperStarted, volumeCreated, verdict, evidence := RunBody(engine, Journal(token, command, engine, {}));
      ghost var body := world;
      var sameEngine: bool := *;
      var errors := CleanUp(engine, sameEngine || undisturbed, helperStarted, volumeCreated);
      if outcome.Raised? {
        FollowedReturns(outcome, verdict, evidence);
        return;
      }
      var result := outcome.result;
      if errors {
        outcome := Returned(Pending(result));
        return;
      }
      if result.cleanupPending {
        return;
      }
      NoCreateKeeps(body, world, token, Participant);
      NoCreateKeeps(body, world, token, Helper);
      NoCreateKeeps(body, world, token, Volume);
      forall role: Role
        ensures Done(world, token, role)
      {
        assert role == Participant || role == Helper || role == Volume;
      }
      var stillSame: bool := *;
      var closing := CloseJournal(stillSame || undisturbed);
      if !closing.Clean? {
        outcome := Returned(Pending(result));
      } else if result.kind.Valid? {
        var published := SetOutput(result.submission);
        if !published {
          outcome := Returned(Infrastructure(result));
        }
      }
    }

    /** `_run_isolated_container_once_locked`. Whatever it returns without cleanup pending, the journal is
        gone; and a valid result has been published where its engine record bears it out. The temporary
        directory's own removal may raise after everything else, a publication included. */
    method RunOnceLocked(engine: nat, command: nat)
        returns (outcome: Outcome, verdict: AttemptResult, evidence: Evidence)
      requires Valid() && world.journal.None?
      modifies this
      ensures Valid() && old(trace) <= trace
      ensures confirmed <= old(confirmed)
      ensures outcome.Returned? ==> WellFormed(outcome.result)
      ensures outcome.Returned? && !outcome.result.cleanupPending ==> world.journal.None?
      ensures world.journal.Some? ==> world.journal.value.token == old(world).issued
      ensures outcome.Returned? && outcome.result.kind.ExecutionFailure? ==> ParticipantFailed(verdict, evidence)
      ensures outcome.Returned? && outcome.result.kind.Valid? ==>
                world.output == outcome.result.submission &&
                    (ExitConfirmed(evidence) || VanishedWhileStopping(evidence))
      ensures outcome == Raised(true) || (outcome.Returned? && !outcome.result.kind.Valid?) ==>
                world.output.None? || world.output == old(world).output
      ensures outcome == Raised(false) && world.output.Some? ==>
                world.journal.None? && (ExitConfirmed(evidence) || VanishedWhileStopping(evidence))
      ensures undisturbed ==> Followed(outcome, verdict, evidence) && !outcome.result.cleanupPending
    {
      hide ParticipantFailed, CalledFor, Exists, Followed, Valid, NoCreate, ExitConfirmed, VanishedWhileStopping;
      evidence := NotLooked;
      verdict := Failure(false);
      outcome := Returned(verdict);
      var unlinked := SetOutput(None);
      var preflight: bool := *;
      if !unlinked || (!preflight && !undisturbed) {
        return;
      }
      outcome, verdict, evidence := RunInWorkspace(engine, command);
      var tidied: bool := *;
      if !tidied && !undisturbed {
        outcome := Raised(false);
      }
    }

    // ---- recovery -------------------------------------------------------------------------------------

    /** One turn of `_reconcile_resource_journal`'s loop over the three roles. */
    method RecoverRole(engine: nat, role: Role, observed: set<Role>, confirmRestarted: bool)
        returns (recovery: Recovery, observed': set<Role>, unresolved: bool)
      requires Valid() && world.journal.Some? && engine == world.journal.value.engine
      requires world.journal.value.observed <= observed
      requires forall other :: other in observed ==> Quiet(world, world.journal.value.token, other)
      requires confirmRestarted ==> Quiet(world, world.journal.value.token, role)
      modifies this
      ensures Valid() && old(trace) <= trace
      ensures confirmed <= old(confirmed)
      ensures NoCreate(old(world), world) && world.output == old(world).output && world.issued == old(world).issued
      ensures world.journal.Some?
      ensures world.journal == Some(old(world).journal.value.(observed := world.journal.value.observed))
      ensures recovery.Clean? ==> world.journal.value.observed <= observed'
      ensures recovery.Clean? ==> observed' == if unresolved then observed else observed + {role}
      ensures recovery.Clean? && !unresolved ==> Done(world, world.journal.value.token, role)
      ensures undisturbed ==>
                && recovery.Clean?
                && (unresolved <==>
                    !Resolvable(old(world), world.journal.value.token, observed, confirmRestarted, role))
                && SameOthers(old(world), world, world.journal.value.token, role)
    {
      hide Exists, Valid, NoCreate, Quiet, Arrived, Done, Untouched, Keeps;
      ghost var token := world.journal.value.token;
      recovery, observed', unresolved := Blocked, observed, false;
      var tag := Inspect(engine, role);
      if tag.Unreadable? || tag.Foreign? {
        return;
      }
      if tag.Absent? {
        if role in observed || confirmRestarted {
          observed' := observed + {role};
        } else {
          unresolved := true;
        }
        recovery := Clean;
        return;
      }
      ghost var inspected := world;
      if role !in observed {
        observed' := observed + {role};
        forall other | other in observed'
          ensures Quiet(world, token, other)
        {
          NoCreateKeeps(old(world), world, token, other);
          RoleFacts(world, token, other);
        }
        var written := Observe(observed');
        NoCreateTransitive(old(world), inspected, world);
        NoCreateKeeps(inspected, world, token, role);
        if undisturbed {
          forall other: Role
            ensures Exists(world, token, other) <==> Exists(inspected, token, other)
          {
            SameExists(inspected, world, token, other);
          }
        }
        if !written {
          Forget(Key(world.journal.value.token, role));
          recovery := Unavailable;
          return;
        }
      }
      recovery := RemoveAndConfirm(engine, role, old(world));
      assert observed' == observed + {role};
    }

    /** Remove a resource whose label was read as ours, and insist on its absence. */
    method RemoveAndConfirm(engine: nat, role: Role, ghost start: World) returns (recovery: Recovery)
      requires Valid() && world.journal.Some? && engine == world.journal.value.engine
      requires Arrived(world, world.journal.value.token, role) && Key(world.journal.value.token, role) in confirmed
      requires NoCreate(start, world)
      modifies this
      ensures Valid() && old(trace) <= trace
      ensures NoCreate(start, world) && world == old(world).(life := world.life, strangers := world.strangers)
      ensures confirmed <= old(confirmed) - {Key(world.journal.value.token, role)}
      ensures recovery.Clean? || recovery.Blocked?
      ensures recovery.Clean? ==> Done(world, world.journal.value.token, role)
      ensures undisturbed ==>
                && recovery.Clean?
                && SameOthers(old(world), world, world.journal.value.token, role)
    {
      hide *;
      recovery := Blocked;
      ghost var token := world.journal.value.token;
      var removal := Remove(engine, role);
      NoCreateTransitive(start, old(world), world);
      if !removal.RemovalFailed? {
        ghost var removed := world;
        DoneIsGone(removed, token, role);
        var after := Inspect(engine, role);
        NoCreateTransitive(start, removed, world);
        NoCreateKeeps(removed, world, token, role);
        if after.Absent? {
          recovery := Clean;
        }
        Forget(Key(world.journal.value.token, role));
      }
    }

    /** `_reconcile_resource_journal`. The operator's confirmation that the engine was restarted stands for
        the promise that pending creates were dropped. Only a clean recovery may end without the journal
        having survived, and no recovery requests a create. */
    method Reconcile(engine: nat, command: nat, confirmRestarted: bool) returns (recovery: Recovery)
      requires Valid()
      requires confirmRestarted && world.journal.Some? ==>
                forall role: Role :: Quiet(world, world.journal.value.token, role)
      modifies this
      ensures Valid() && old(trace) <= trace
      ensures confirmed <= old(confirmed)
      ensures NoCreate(old(world), world) && world.output == old(world).output && world.issued == old(world).issued
      ensures recovery.Clean? ==> world.journal.None?
      ensures recovery.Blocked? ==> world.journal.Some?
      ensures world.journal.Some? ==>
                old(world).journal.Some? && world.journal.value.token == old(world).journal.value.token
      ensures undisturbed ==>
                if Recoverable(old(world), engine, command, confirmRestarted) then recovery.Clean?
                else recovery.Blocked?
    {
      hide Exists, Resolvable, Valid, NoCreate, Quiet, Arrived, Done, Untouched, Keeps;
      SameLife(world, world);
      var readable: bool := *;
      if !readable && !undisturbed {
        return Unavailable;
      }
      if world.journal.None? {
        return Clean;
      }
      var answers: bool := *;
      if command != world.journal.value.command || (!answers && !undisturbed) || engine != world.journal.value.engine {
        return Blocked;
      }
      ghost var token := world.journal.value.token;
      var roles := [Participant, Helper, Volume];
      var observed := world.journal.value.observed;
      ghost var start, known := world, observed;
      forall role | role in observed
        ensures Quiet(world, token, role)
      {
        IsAccounted();
        ObservedQuiet(world, role);
      }
      var pending := 0;
      var i := 0;
      while i < |roles|
        invariant 0 <= i <= |roles| && pending >= 0
        invariant Valid() && old(trace) <= trace && confirmed <= old(confirmed)
        invariant NoCreate(old(world), world) && world.output == old(world).output && world.issued == old(world).issued
        invariant Journalled(world, engine, token) && world.journal.value.observed <= observed
        invariant forall role :: role in observed ==> Quiet(world, token, role)
        invariant confirmRestarted ==> forall role: Role :: Quiet(world, token, role)
        invariant undisturbed ==>
                    (pending == 0 <==>
                     forall k :: 0 <= k < i ==> Resolvable(start, token, known, confirmRestarted, roles[k]))
        invariant undisturbed ==> forall k :: i <= k < |roles| ==> (roles[k] in observed <==> roles[k] in known)
        invariant undisturbed ==>
                    forall k :: i <= k < |roles| ==>
                        (Exists(world, token, roles[k]) <==> Exists(start, token, roles[k]))
        invariant pending == 0 ==> forall k :: 0 <= k < i ==> Done(world, token, roles[k])
      {
        ghost var before, beforeObserved := world, observed;
        var unresolved;
        recovery, observed, unresolved := RecoverRole(engine, roles[i], observed, confirmRestarted);
        NoCreateTransitive(old(world), before, world);
        if !recovery.Clean? {
          return;
        }
        RecoverySoFar(before, world, token, roles[..i]);
        SameResolvable(start, before, token, known, beforeObserved, confirmRestarted, roles[i]);
        if unresolved {
          pending := pending + 1;
        } else {
          RoleFacts(world, token, roles[i]);
        }
        i := i + 1;
      }
      if pending > 0 {
        return Blocked;
      }
      forall role: Role
        ensures Done(world, token, role)
        ensures undisturbed ==> Resolvable(start, token, known, confirmRestarted, role)
      {
        assert role == roles[0] || role == roles[1] || role == roles[2];
      }
      ghost var looked := world;
      var sameEngine: bool := *;
      recovery := CloseJournal(sameEngine || undisturbed);
      NoCreateTransitive(old(world), looked, world);
    }

    /** `_bind_cleanup_attempt_id`: a pending result names the attempt whose journal is on disk, if that
        can be read. */
    method BindAttemptId(result: AttemptResult) returns (bound: AttemptResult)
      requires WellFormed(result)
      ensures bound == result.(cleanupAttemptId := bound.cleanupAttemptId)
      ensures bound.cleanupAttemptId.Some? ==>
                result.cleanupPending && world.journal.Some? &&
                    bound.cleanupAttemptId.value == world.journal.value.token
      ensures undisturbed ==> (bound.cleanupAttemptId.Some? <==> result.cleanupPending && world.journal.Some?)
    {
      var readable: bool := *;
      bound := result;
      if result.cleanupPending && (readable || undisturbed) && world.journal.Some? {
        bound := result.(cleanupAttemptId := Some(world.journal.value.token));
      }
    }

    /** `run_isolated_container_once`. With the directory's lock held, a result that is not pending leaves
        nothing of any attempt behind or outstanding; a valid one is also the published submission. While
        an earlier attempt's journal survives, no create is requested and nothing is published; and a run
        that found or leaves a journal leaves no earlier submission behind. */
    method RunOnce(engine: nat, command: nat)
        returns (outcome: Outcome, locked: bool, verdict: AttemptResult, evidence: Evidence)
      requires Valid()
      modifies this
      ensures Valid() && old(trace) <= trace
      ensures confirmed <= old(confirmed)
      ensures outcome.Returned? && outcome.result.cleanupPending ==> outcome.result.kind.InfrastructureFailure?
      ensures outcome.Returned? && outcome.result.cleanupAttemptId.Some? ==>
                world.journal.Some? && world.journal.value.token == outcome.result.cleanupAttemptId.value
      ensures outcome.Returned? && locked && !outcome.result.cleanupPending ==>
                world.journal.None? && forall token: nat, role: Role :: Done(world, token, role)
      ensures outcome.Returned? && outcome.result.kind.ExecutionFailure? ==> ParticipantFailed(verdict, evidence)
      ensures outcome.Returned? && outcome.result.kind.Valid? ==>
                locked && !outcome.result.cleanupPending && world.output == outcome.result.submission
                && outcome.result.submission.Some? && (ExitConfirmed(evidence) || VanishedWhileStopping(evidence))
      ensures outcome.Returned? && !outcome.result.kind.Valid? ==>
                world.output.None? || world.output == old(world).output
      ensures outcome.Returned? && (old(world).journal.Some? || world.journal.Some?) ==>
                outcome.result.kind.Valid? || world.output.None?
      ensures outcome.Raised? && world.output.Some? ==>
                world.journal.None? && (ExitConfirmed(evidence) || VanishedWhileStopping(evidence))
      ensures !locked ==>
                world == old(world)
                && outcome == Returned(AttemptResult(InfrastructureFailure, None, None, false, false, None))
      ensures !locked || (old(world).journal.Some? && world.journal.Some?
                          && world.journal.value.token == old(world).journal.value.token) ==>
                NoCreate(old(world), world) && world.output == old(world).output && world.issued == old(world).issued
      ensures undisturbed ==>
                if Recoverable(old(world), engine, command, false) then
                  && Followed(outcome, verdict, evidence) && outcome.Returned? && !outcome.result.cleanupPending
                  && CalledFor(verdict, evidence, outcome.result)
                else
                  && NoCreate(old(world), world) && outcome.Returned?
                  && outcome.result == AttemptResult(InfrastructureFailure, None, None, false, true,
                                                     Some(old(world).journal.value.token))
    {
      hide ParticipantFailed, CalledFor, Exists, Followed, Recoverable, Valid, NoCreate, Done, ExitConfirmed,
           VanishedWhileStopping, Accounted, History;
      evidence := NotLooked;
      locked := *;
      verdict := Failure(false);
      outcome := Returned(verdict);
      if world.journal.Some? {
        IsAccounted();
        TokenIssued(world);
        ResultFacts(world);
      }
      SameLife(world, world);
      locked := locked || undisturbed;
      if !locked {
        return;
      }
      var bound: AttemptResult;
      var recovery := Reconcile(engine, command, false);
      if !recovery.Clean? {
        bound := BindAttemptId(Failure(recovery.Blocked? || world.journal.Some?));
        outcome := Returned(bound);
        if !bound.cleanupPending {
          IsAccounted();
          AllDone(world);
        }
        return;
      }
      outcome, verdict, evidence := RunOnceLocked(engine, command);
      FollowedReturns(outcome, verdict, evidence);
      if undisturbed {
        FollowedIsCalledFor(outcome, verdict, evidence);
      }
      if outcome == Raised(false) {
        return;
      }
      bound := BindAttemptId(if outcome.Raised? then Failure(world.journal.Some?) else outcome.result);
      outcome := Returned(bound);
      IsAccounted();
      if world.journal.Some? {
        ResultFacts(world);
      }
      if !bound.cleanupPending {
        AllDone(world);
      }
    }
  }
}
