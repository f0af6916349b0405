/** The write-ahead resource journal as a transition system. The container engine may complete a create
    long after its client gave up; the evaluator may crash between any two steps. A crash loses only the
    evaluator's own variables, so the state below is exactly what survives one. */
module JournalProtocol {
  import opened Options
  import opened Attempts

  datatype Role = Participant | Helper | Volume

  /** What has become of one attempt's create request for one role. */
  datatype Life = NeverRequested | InFlight | Present | Gone

  datatype Journal = Journal(token: nat, command: nat, engine: nat, observed: set<Role>)

  datatype Key = Key(token: nat, role: Role)

  /** `journal` and `output` are files of the output directory; `life` is the engine's view of every
      create ever requested; attempts draw their labels below `issued`, never one twice. A key also stands
      for the name its resource would have: `strangers` are the names that a resource of somebody else
      holds, and `harmed` those under which such a resource was stopped or removed. */
  datatype World = World(
    journal: Option<Journal>,
    output: Option<Submission>,
    life: map<Key, Life>,
    issued: nat,
    strangers: set<Key>,
    harmed: set<Key>)

  const ALL_ROLES: set<Role> := {Participant, Helper, Volume}

  function LifeOf(w: World, token: nat, role: Role): Life {
    if Key(token, role) in w.life then w.life[Key(token, role)] else NeverRequested
  }

  /** Nothing exists and nothing can still appear. */
  predicate Settled(l: Life) {
    l.NeverRequested? || l.Gone?
  }

  // ---- steps --------------------------------------------------------------------------------------------

  /** The engine completes or drops a pending create, or a resource disappears. */
  predicate LifeEvent(before: Life, after: Life) {
    || after == before
    || (before.InFlight? && (after.Present? || after.Gone?))
    || (before.Present? && after.Gone?)
  }

  /** A name is held once. */
  predicate Exclusive(w: World) {
    forall k :: k in w.strangers && k in w.life ==> !w.life[k].Present?
  }

  /** Any number of engine events, on any resources of ours or of others, at any time. */
  predicate EngineStep(w: World, w': World) {
    && w' == w.(life := w'.life, strangers := w'.strangers)
    && w'.life.Keys == w.life.Keys
    && (forall k :: k in w.life ==> LifeEvent(w.life[k], w'.life[k]))
    && Exclusive(w')
  }

  /** A removal command deletes whatever holds the name, whoever owns it. */
  predicate RemoveStep(w: World, w': World, k: Key) {
    w' == w.(life := if k in w.life && w.life[k].Present? then w.life[k := Gone] else w.life,
             strangers := w.strangers - {k},
             harmed := w.harmed + w.strangers * {k})
  }

  /** A stop command, which ends whatever runs under the name, whoever owns it. */
  predicate StopStep(w: World, w': World, k: Key) {
    w' == w.(harmed := w.harmed + w.strangers * {k})
  }

  /** A new attempt's journal is written where neither a journal nor an earlier result is. */
  predicate WriteStep(w: World, w': World) {
    && w.journal.None? && w.output.None? && w'.journal.Some?
    && w'.journal.value.token == w.issued && w'.journal.value.observed == {}
    && w' == w.(journal := w'.journal, issued := w.issued + 1)
  }

  /** A create goes out, for an unobserved role of the journalled attempt, once. */
  predicate RequestStep(w: World, w': World, role: Role) {
    && w.journal.Some? && role !in w.journal.value.observed
    && LifeOf(w, w.journal.value.token, role).NeverRequested?
    && w' == w.(life := w.life[Key(w.journal.value.token, role) := InFlight])
  }

  /** The journal is rewritten with more observed roles, none of them still in flight. */
  predicate ObserveStep(w: World, w': World) {
    && w.journal.Some? && w'.journal.Some?
    && w' == w.(journal := Some(w.journal.value.(observed := w'.journal.value.observed)))
    && forall role :: role in w'.journal.value.observed - w.journal.value.observed ==>
         !LifeOf(w, w.journal.value.token, role).InFlight?
  }

  /** The journal is unlinked, its attempt having left nothing behind. */
  predicate DropStep(w: World, w': World) {
    && w.journal.Some? && w' == w.(journal := None)
    && forall role: Role :: Settled(LifeOf(w, w.journal.value.token, role))
  }

  /** The submission file is unlinked or replaced, with no attempt under way. */
  predicate OutputStep(w: World, w': World) {
    w.journal.None? && w' == w.(output := w'.output)
  }

  ghost predicate Step(w: World, w': World) {
    || EngineStep(w, w')
    || WriteStep(w, w')
    || (exists role: Role :: RequestStep(w, w', role))
    || ObserveStep(w, w')
    || DropStep(w, w')
    || OutputStep(w, w')
    || (exists k: Key :: RemoveStep(w, w', k))
    || (exists k: Key :: StopStep(w, w', k))
  }

  /** A run of the evaluator, of many evaluators one after another, or of one that crashed. */
  ghost predicate History(trace: seq<World>) {
    && |trace| > 0
    && trace[0].journal.None? && trace[0].life == map[] && trace[0].harmed == {}
    && forall i :: 0 <= i < |trace| - 1 ==> Step(trace[i], trace[i + 1])
  }

  // ---- the invariant ------------------------------------------------------------------------------------

  /** Only the journalled attempt can own anything, a role its journal lists as observed has no create
      outstanding, no published result lies beside a journal, and names are held once. */
  ghost predicate Accounted(w: World) {
    && Exclusive(w)
    && (w.journal.Some? ==> w.journal.value.token < w.issued && w.output.None?)
    && forall k :: k in w.life ==>
         && k.token < w.issued
         && (!Settled(w.life[k]) ==> w.journal.Some? && w.journal.value.token == k.token)
         && (w.life[k].InFlight? && w.journal.Some? ==> k.role !in w.journal.value.observed)
  }

  lemma StepKeepsAccounted(w: World, w': World)
    requires Accounted(w) && Step(w, w')
    ensures Accounted(w')
  {
    if EngineStep(w, w') {
    } else if WriteStep(w, w') {
    } else if exists role: Role :: RequestStep(w, w', role) {
    } else if ObserveStep(w, w') {
      ObserveKeepsAccounted(w, w');
    } else if DropStep(w, w') {
      DropKeepsAccounted(w, w');
    } else if exists k: Key :: RemoveStep(w, w', k) {
    } else {
    }
  }

  lemma ObserveKeepsAccounted(w: World, w': World)
    requires Accounted(w) && ObserveStep(w, w')
    ensures Accounted(w')
  {
    forall k | k in w'.life && w'.life[k].InFlight?
      ensures k.role !in w'.journal.value.observed
    {
      assert LifeOf(w, k.token, k.role) == w.life[k];
    }
  }

  lemma DropKeepsAccounted(w: World, w': World)
    requires Accounted(w) && DropStep(w, w')
    ensures Accounted(w')
  {
    forall k | k in w'.life
      ensures Settled(w'.life[k])
    {
      assert LifeOf(w, k.token, k.role) == w.life[k];
    }
  }

  lemma {:induction false} HistoryAccounted(trace: seq<World>, i: nat)
    requires History(trace) && i < |trace|
    ensures Accounted(trace[i])
  {
    if i > 0 {
      HistoryAccounted(trace, i - 1);
      StepKeepsAccounted(trace[i - 1], trace[i]);
    }
  }

  /** No leaks, at any instant at which the evaluator may die: if no journal is on disk then no
      resource of any attempt exists or can still appear. Otherwise the journal names the one attempt
      that can own anything, and of the roles it lists as observed none can still appear. */
  lemma NoLeakAtAnyInstant(trace: seq<World>, i: nat, token: nat, role: Role)
    requires History(trace) && i < |trace|
    ensures trace[i].journal.None? ==> Settled(LifeOf(trace[i], token, role))
    ensures trace[i].journal.Some? && trace[i].journal.value.token != token ==> Settled(LifeOf(trace[i], token, role))
    ensures trace[i].journal.Some? && trace[i].journal.value.token == token &&
              role in trace[i].journal.value.observed ==>
              !LifeOf(trace[i], token, role).InFlight?
  {
    HistoryAccounted(trace, i);
  }

  /** An earlier success never hides a pending cleanup: while a journal is on disk no submission is. */
  lemma NoResultBesideJournal(trace: seq<World>, i: nat)
    requires History(trace) && i < |trace|
    ensures trace[i].journal.Some? ==> trace[i].output.None?
  {
    HistoryAccounted(trace, i);
  }

  /** Attempts never overlap: at no instant do two of them own something, existing or still to appear. */
  lemma OneOwner(trace: seq<World>, i: nat, a: Key, b: Key)
    requires History(trace) && i < |trace|
    requires !Settled(LifeOf(trace[i], a.token, a.role)) && !Settled(LifeOf(trace[i], b.token, b.role))
    ensures a.token == b.token && trace[i].journal.Some? && trace[i].journal.value.token == a.token
  {
    HistoryAccounted(trace, i);
  }

  /** A crash keeps the files and the engine: what happened so far is again a history, from which the
      next evaluator continues. */
  lemma CrashLeavesHistory(trace: seq<World>, i: nat)
    requires History(trace) && i < |trace|
    ensures History(trace[..i + 1])
    ensures Accounted(trace[..i + 1][i])
  {
    HistoryAccounted(trace, i);
  }

  lemma HistoryExtends(trace: seq<World>, w: World)
    requires History(trace) && Step(trace[|trace| - 1], w)
    ensures History(trace + [w])
  {
    var next := trace + [w];
    forall i | 0 <= i < |next| - 1
      ensures Step(next[i], next[i + 1])
    {
      if i < |trace| - 1 {
        assert next[i] == trace[i] && next[i + 1] == trace[i + 1];
      } else {
        assert next[i] == trace[|trace| - 1];
      }
    }
  }

  lemma StepKeepsHarm(w: World, w': World)
    requires Step(w, w')
    ensures w.harmed <= w'.harmed
  {
  }

  /** What was stopped or removed stays counted. */
  lemma {:induction false} HarmIsForever(trace: seq<World>, i: nat, j: nat)
    requires History(trace) && i <= j < |trace|
    ensures trace[i].harmed <= trace[j].harmed
  {
    if i < j {
      HarmIsForever(trace, i, j - 1);
      StepKeepsHarm(trace[j - 1], trace[j]);
    }
  }

  /** The steps alone do not protect anybody: a removal under a name that a stranger holds is one of them. */
  lemma HarmIsPossible(k: Key)
    ensures exists trace: seq<World> :: History(trace) && k in trace[|trace| - 1].harmed
  {
    var start := World(None, None, map[], 0, {k}, {});
    var after := World(None, None, map[], 0, {}, {k});
    assert RemoveStep(start, after, k);
    assert History([start, after]);
  }
}
