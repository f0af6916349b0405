/** The one-container journal under which an image's root file system is measured. A crash leaves exactly
    the state below. `lost` and `harmed` are history only: the attempts whose journal an operator had removed
    although the engine it names was no longer the one at hand, and the names under which somebody else's
    container was removed. `strangers` are the names that others hold. */
module MeasurementJournal {
  import opened Options
  import opened Attempts
  import opened JournalProtocol

  datatype Intent = Intent(token: nat, command: nat, engine: nat, confirmed: bool, uncertain: bool)

  datatype Desk = Desk(
    journal: Option<Intent>,
    life: map<nat, Life>,
    issued: nat,
    lost: set<nat>,
    strangers: set<nat>,
    harmed: set<nat>)

  function Fate(d: Desk, token: nat): Life {
    if token in d.life then d.life[token] else NeverRequested
  }

  // ---- steps --------------------------------------------------------------------------------------------

  predicate EngineActs(d: Desk, d': Desk) {
    && d' == d.(life := d'.life, strangers := d'.strangers) && d'.life.Keys == d.life.Keys
    && (forall t :: t in d.life ==> LifeEvent(d.life[t], d'.life[t]))
    && NamesHeldOnce(d')
  }

  predicate NamesHeldOnce(d: Desk) {
    forall t :: t in d.strangers && t in d.life ==> !d.life[t].Present?
  }

  /** A removal command deletes whatever holds the name, whoever owns it. */
  predicate NameCleared(d: Desk, d': Desk, t: nat) {
    d' == d.(life := if t in d.life && d.life[t].Present? then d.life[t := Gone] else d.life,
             strangers := d.strangers - {t},
             harmed := d.harmed + d.strangers * {t})
  }

  /** The journal is linked into place, which fails if one is there. */
  predicate IntentWritten(d: Desk, d': Desk) {
    && d.journal.None? && d'.journal.Some?
    && d'.journal.value.token == d.issued && !d'.journal.value.confirmed && d'.journal.value.uncertain
    && d' == d.(journal := d'.journal, issued := d.issued + 1)
  }

  predicate CreateSent(d: Desk, d': Desk) {
    && d.journal.Some? && d.journal.value.uncertain && Fate(d, d.journal.value.token).NeverRequested?
    && d' == d.(life := d.life[d.journal.value.token := InFlight])
  }

  /** The journal is replaced by one that calls the create certain: it is not outstanding any more. */
  predicate CreateConfirmed(d: Desk, d': Desk) {
    && d.journal.Some? && !Fate(d, d.journal.value.token).InFlight?
    && d' == d.(journal := Some(d.journal.value.(confirmed := true, uncertain := false)))
  }

  predicate JournalRemoved(d: Desk, d': Desk) {
    d.journal.Some? && Settled(Fate(d, d.journal.value.token)) && d' == d.(journal := None)
  }

  /** The journal is removed without a look at the engine that it names. */
  predicate JournalAbandoned(d: Desk, d': Desk) {
    d.journal.Some? && d' == d.(journal := None, lost := d.lost + {d.journal.value.token})
  }

  ghost predicate DeskStep(d: Desk, d': Desk) {
    || EngineActs(d, d')
    || IntentWritten(d, d')
    || CreateSent(d, d')
    || CreateConfirmed(d, d')
    || JournalRemoved(d, d')
    || JournalAbandoned(d, d')
    || (exists t: nat :: NameCleared(d, d', t))
  }

  ghost predicate DeskHistory(trace: seq<Desk>) {
    && |trace| > 0 && trace[0] == Desk(None, map[], 0, {}, trace[0].strangers, {})
    && forall i :: 0 <= i < |trace| - 1 ==> DeskStep(trace[i], trace[i + 1])
  }

  /** Whatever exists or can still appear belongs to the journalled attempt or to a lost one, and a
      journal that calls its create certain has none outstanding. */
  ghost predicate Tracked(d: Desk) {
    && NamesHeldOnce(d)
    && (d.journal.Some? ==> d.journal.value.token < d.issued)
    && (d.journal.Some? && !d.journal.value.uncertain ==> !Fate(d, d.journal.value.token).InFlight?)
    && forall t :: t in d.life ==>
         t < d.issued && (Settled(d.life[t]) || t in d.lost || (d.journal.Some? && d.journal.value.token == t))
  }

  lemma DeskStepKeepsTracked(d: Desk, d': Desk)
    requires Tracked(d) && DeskStep(d, d')
    ensures Tracked(d')
  {
  }

  lemma {:induction false} DeskHistoryTracked(trace: seq<Desk>, i: nat)
    requires DeskHistory(trace) && i < |trace|
    ensures Tracked(trace[i])
  {
    if i > 0 {
      DeskHistoryTracked(trace, i - 1);
      DeskStepKeepsTracked(trace[i - 1], trace[i]);
    }
  }

  /** A container without a journal that names its attempt, at any instant of any history, belongs to an
      attempt whose journal was abandoned. */
  lemma LeaksOnlyIfLost(trace: seq<Desk>, i: nat, token: nat)
    requires DeskHistory(trace) && i < |trace|
    requires !Settled(Fate(trace[i], token))
    ensures token in trace[i].lost || (trace[i].journal.Some? && trace[i].journal.value.token == token)
  {
    DeskHistoryTracked(trace, i);
  }

  ghost predicate NoLeak(d: Desk) {
    forall t :: t in d.life && !Settled(d.life[t]) ==> d.journal.Some? && d.journal.value.token == t
  }

  /** The one branch of a reconciliation that does not look: another engine, and the operator's word. */
  predicate Unseen(j: Intent, command: nat, engine: nat, confirmRestarted: bool) {
    command == j.command && engine != j.engine && confirmRestarted
  }

  /** What a reconciliation may do to the desk. */
  ghost predicate MayReconcile(d: Desk, d': Desk, command: nat, engine: nat, confirmRestarted: bool) {
    && OnlyEngine(d, d') && d'.issued == d.issued
    && (d'.journal == d.journal || d'.journal.None?)
    && (d.journal.Some? && d'.journal.None? ==>
          Over(d', d.journal.value.token) || Unseen(d.journal.value, command, engine, confirmRestarted))
    && (d'.lost == d.lost
        || (d.journal.Some? && Unseen(d.journal.value, command, engine, confirmRestarted)
            && d'.lost == d.lost + {d.journal.value.token}))
  }

  /** A desk that the code can find with this journal. */
  ghost predicate Found(d: Desk, j: Intent, confirmRestarted: bool) {
    d.journal == Some(j) && Tracked(d) && NoLeak(d) && (confirmRestarted ==> Answered(d, j.token))
  }

  ghost predicate NeverLeaks(j: Intent, command: nat, engine: nat, confirmRestarted: bool) {
    forall d: Desk, d': Desk ::
      Found(d, j, confirmRestarted) && MayReconcile(d, d', command, engine, confirmRestarted) ==> NoLeak(d')
  }

  /** Reconciling a journal never leaks, whatever desk it is found on, exactly outside that branch. */
  lemma ReconcileSafeExactly(j: Intent, command: nat, engine: nat, confirmRestarted: bool)
    ensures NeverLeaks(j, command, engine, confirmRestarted) <==> !Unseen(j, command, engine, confirmRestarted)
  {
    if Unseen(j, command, engine, confirmRestarted) {
      var d := Desk(Some(j), map[j.token := Present], j.token + 1, {}, {}, {});
      var d' := d.(journal := None, lost := {j.token});
      assert Found(d, j, confirmRestarted) && MayReconcile(d, d', command, engine, confirmRestarted);
      assert j.token in d'.life && !NoLeak(d');
    } else {
      forall d: Desk, d': Desk | Found(d, j, confirmRestarted) && MayReconcile(d, d', command, engine, confirmRestarted)
        ensures NoLeak(d')
      {
        forall t | t in d'.life && !Settled(d'.life[t])
          ensures d'.journal.Some? && d'.journal.value.token == t
        {
          assert Fate(d', t) == d'.life[t];
        }
      }
    }
  }

  /** A whole run that ends in that branch with the container still there. */
  lemma AbandonCanLeak(command: nat, engine: nat, other: nat)
    requires other != engine
    ensures exists trace: seq<Desk> ::
              && |trace| > 1 && DeskHistory(trace) && trace[|trace| - 2].journal.Some?
              && Unseen(trace[|trace| - 2].journal.value, command, other, true)
              && MayReconcile(trace[|trace| - 2], trace[|trace| - 1], command, other, true)
              && trace[|trace| - 1].journal.None? && !NoLeak(trace[|trace| - 1])
  {
    var start := Desk(None, map[], 0, {}, {}, {});
    var written := start.(journal := Some(Intent(0, command, engine, false, true)), issued := 1);
    var sent := written.(life := map[0 := InFlight]);
    var landed := sent.(life := map[0 := Present]);
    var abandoned := landed.(journal := None, lost := {0});
    var trace := [start, written, sent, landed, abandoned];
    assert CreateSent(written, sent);
    assert JournalAbandoned(landed, abandoned);
    assert DeskHistory(trace);
    assert 0 in abandoned.life;
    assert trace[|trace| - 2] == landed && trace[|trace| - 1] == abandoned;
  }

  lemma DeskStepKeepsHarm(d: Desk, d': Desk)
    requires DeskStep(d, d')
    ensures d.harmed <= d'.harmed
  {
  }

  lemma {:induction false} DeskHarmIsForever(trace: seq<Desk>, i: nat, j: nat)
    requires DeskHistory(trace) && i <= j < |trace|
    ensures trace[i].harmed <= trace[j].harmed
  {
    if i < j {
      DeskHarmIsForever(trace, i, j - 1);
      DeskStepKeepsHarm(trace[j - 1], trace[j]);
    }
  }

  lemma DeskHistoryExtends(trace: seq<Desk>, d: Desk)
    requires DeskHistory(trace) && DeskStep(trace[|trace| - 1], d)
    ensures DeskHistory(trace + [d])
  {
    var next := trace + [d];
    forall i | 0 <= i < |next| - 1
      ensures DeskStep(next[i], next[i + 1])
    {
      if i < |trace| - 1 {
        assert next[i] == trace[i] && next[i + 1] == trace[i + 1];
      } else {
        assert next[i] == trace[|trace| - 1];
      }
    }
  }

  // ---- what stays true of one attempt while only the engine acts ------------------------------------------

  ghost predicate OnlyEngine(d: Desk, d': Desk) {
    && d'.life.Keys == d.life.Keys
    && forall t :: t in d.life ==> LifeEvent(d.life[t], d'.life[t])
  }

  ghost predicate Answered(d: Desk, token: nat) {
    !Fate(d, token).InFlight?
  }

  ghost predicate Exists(d: Desk, token: nat) {
    Answered(d, token) && !Fate(d, token).NeverRequested?
  }

  ghost predicate There(d: Desk, token: nat) {
    Fate(d, token).Present?
  }

  ghost predicate Over(d: Desk, token: nat) {
    Settled(Fate(d, token))
  }

  /** When the code lets a journal go: its own command, and on its own engine a container that can be seen
      or whose create is certain, anything else on the operator's word. */
  ghost predicate Releasable(d: Desk, command: nat, engine: nat, confirmRestarted: bool) {
    && d.journal.Some? && command == d.journal.value.command
    && (confirmRestarted
        || (engine == d.journal.value.engine && (!d.journal.value.uncertain || There(d, d.journal.value.token))))
  }

  lemma OursNotStrange(d: Desk, token: nat)
    requires Tracked(d)
    ensures Fate(d, token).Present? ==> token !in d.strangers
  {
  }

  lemma Landed(d: Desk, d': Desk, token: nat)
    requires Tracked(d) && token in d.life && d.life[token].InFlight? && token !in d.strangers
    requires d' == d.(life := d.life[token := Present])
    ensures EngineActs(d, d')
  {
  }

  lemma ClearedIsEvent(d: Desk, d': Desk, token: nat)
    requires NameCleared(d, d', token)
    ensures OnlyEngine(d, d')
    ensures Exists(d, token) ==> Over(d', token)
  {
  }

  lemma SameThere(d: Desk, d': Desk, token: nat)
    requires d'.life == d.life
    ensures There(d, token) <==> There(d', token)
  {
  }

  lemma OnlyEngineKeeps(d: Desk, d': Desk, token: nat)
    requires OnlyEngine(d, d')
    ensures Answered(d, token) ==> Answered(d', token)
    ensures Exists(d, token) ==> Exists(d', token)
    ensures Over(d, token) ==> Over(d', token)
    ensures Fate(d, token).NeverRequested? ==> Fate(d', token).NeverRequested?
  {
  }

  lemma OnlyEngineTransitive(a: Desk, b: Desk, c: Desk)
    requires OnlyEngine(a, b) && OnlyEngine(b, c)
    ensures OnlyEngine(a, c)
  {
  }

  lemma SameContainers(d: Desk, d': Desk)
    requires d'.life == d.life
    ensures OnlyEngine(d, d')
  {
  }

  lemma EngineActsOnly(d: Desk, d': Desk)
    requires EngineActs(d, d')
    ensures OnlyEngine(d, d') && d' == d.(life := d'.life, strangers := d'.strangers)
  {
  }

  /** What a reconciliation learns of the container: `Gone` answers, error answers, and its label. */
  datatype Look = NotThere | NoAnswer | ForeignLabel | OwnLabel

  datatype Measurement = Measured(bytes: nat) | TooLarge | MeasurementFailed

  // ---- the exported archive -----------------------------------------------------------------------------

  datatype Member = Member(isFile: bool, size: nat)

  const MAX_MEMBERS: nat := 2_000_000
  const MAX_BYTES: nat := 2 * 1024 * 1024 * 1024

  function FileBytes(archive: seq<Member>): nat {
    if |archive| == 0 then 0
    else
      var last := archive[|archive| - 1];
      FileBytes(archive[..|archive| - 1]) + if last.isFile then last.size else 0
  }

  predicate WithinLimits(archive: seq<Member>) {
    |archive| <= MAX_MEMBERS && FileBytes(archive) <= MAX_BYTES
  }

  lemma {:induction false} PrefixBytes(archive: seq<Member>, i: nat)
    requires i <= |archive|
    ensures FileBytes(archive[..i]) <= FileBytes(archive)
  {
    if i < |archive| {
      var init := archive[..|archive| - 1];
      assert init[..i] == archive[..i];
      PrefixBytes(init, i);
    } else {
      assert archive[..i] == archive;
    }
  }

  /** The loop over the archive's members: it stops at the first excess, and otherwise has counted all. */
  method CountBytes(archive: seq<Member>) returns (total: Option<nat>)
    ensures total == if WithinLimits(archive) then Some(FileBytes(archive)) else None
    ensures total.Some? <==> |archive| <= 2_000_000 && FileBytes(archive) <= 2_147_483_648
  {
    var apparent, members := 0, 0;
    while members < |archive|
      invariant 0 <= members <= |archive| && members <= MAX_MEMBERS
      invariant apparent == FileBytes(archive[..members]) <= MAX_BYTES
    {
      var member := archive[members];
      assert archive[..members + 1][..members] == archive[..members];
      PrefixBytes(archive, members + 1);
      members := members + 1;
      if members > MAX_MEMBERS {
        return None;
      }
      if member.isFile {
        apparent := apparent + member.size;
        if apparent > MAX_BYTES {
          return None;
        }
      }
    }
    assert archive[..members] == archive;
    total := Some(apparent);
  }

  class MeasurementDesk {
    var desk: Desk
    ghost var trace: seq<Desk>

    /** Whether engine and disk do all they are asked, at once and nothing else. */
    const undisturbed: bool

    /** The names under which our label was read and may still license a removal. It is assumed of the
        environment that nobody takes such a name for a container of his own between that reading and the
        removal. No reading outlives the operation that made it. */
    var confirmed: set<nat>

    ghost predicate Valid()
      reads this
    {
      && DeskHistory(trace) && trace[|trace| - 1] == desk && Tracked(desk)
      && desk.harmed == {} && confirmed !! desk.strangers
      && (undisturbed ==> desk.strangers == {})
    }

    constructor (strangers: set<nat>, undisturbed: bool)
      requires undisturbed ==> strangers == {}
      ensures Valid() && desk == Desk(None, map[], 0, {}, strangers, {}) && trace == [desk]
      ensures this.undisturbed == undisturbed && confirmed == {}
    {
      this.undisturbed := undisturbed;
      desk := Desk(None, map[], 0, {}, strangers, {});
      trace := [Desk(None, map[], 0, {}, strangers, {})];
      confirmed := {};
    }

    /** The next evaluator after a crash, which has read no label yet. */
    constructor AfterCrash(left: Desk, ghost past: seq<Desk>, undisturbed: bool)
      requires DeskHistory(past) && past[|past| - 1] == left && left.harmed == {}
      requires undisturbed ==> left.strangers == {}
      ensures Valid() && desk == left && trace == past && confirmed == {} && this.undisturbed == undisturbed
    {
      this.undisturbed := undisturbed;
      desk := left;
      trace := past;
      confirmed := {};
      new;
      DeskHistoryTracked(past, |past| - 1);
    }

    /** At no instant of the desk's history was a container of somebody else removed. */
    lemma NoStrangerHarmed()
      requires Valid()
      ensures forall i :: 0 <= i < |trace| ==> trace[i].harmed == {}
    {
      forall i | 0 <= i < |trace|
        ensures trace[i].harmed == {}
      {
        DeskHarmIsForever(trace, i, |trace| - 1);
      }
    }

    lemma IsTracked()
      requires Valid()
      ensures Tracked(desk)
      ensures desk.journal.Some? && !desk.journal.value.uncertain ==> Answered(desk, desk.journal.value.token)
      ensures Fate(desk, desk.issued).NeverRequested?
      ensures undisturbed ==> desk.strangers == {}
      ensures forall t :: t in confirmed ==> t !in desk.strangers
    {
    }

    /** Without a journal only lost attempts can have left anything. */
    lemma NothingButLost()
      requires Valid() && desk.journal.None?
      ensures forall token: nat :: token !in desk.lost ==> Over(desk, token)
    {
    }

    /** Take one step that brings in no stranger and harms none. */
    method Take(d: Desk)
      requires Valid() && DeskStep(desk, d) && d.strangers <= desk.strangers && d.harmed == desk.harmed
      modifies this`desk, this`trace
      ensures Valid() && trace == old(trace) + [d] && desk == d
    {
      DeskStepKeepsTracked(desk, d);
      DeskHistoryExtends(trace, d);
      trace := trace + [d];
      desk := d;
    }

    /** The engine acts for a while. */
    method Interfere()
      requires Valid()
      modifies this`desk, this`trace
      ensures Valid() && old(trace) <= trace
      ensures OnlyEngine(old(desk), desk) && desk == old(desk).(life := desk.life, strangers := desk.strangers)
      ensures undisturbed ==> desk == old(desk)
    {
      hide DeskHistory;
      var d: Desk := *;
      if undisturbed || !EngineActs(desk, d) || !(confirmed !! d.strangers) {
        d := desk;
      }
      assert EngineActs(desk, d);
      DeskStepKeepsTracked(desk, d);
      DeskHistoryExtends(trace, d);
      trace := trace + [d];
      desk := d;
      EngineActsOnly(old(desk), desk);
    }

    /** Note what was last read under a name; without an answer nothing was read. */
    method Note(look: Look, t: nat)
      requires Valid() && (look.OwnLabel? ==> t !in desk.strangers)
      modifies this`confirmed
      ensures Valid()
      ensures confirmed == if look.OwnLabel? then old(confirmed) + {t}
                           else if look.NoAnswer? then old(confirmed) else old(confirmed) - {t}
    {
      hide DeskHistory, Tracked;
      confirmed := if look.OwnLabel? then confirmed + {t} else if look.NoAnswer? then confirmed else confirmed - {t};
    }

    /** Ask the journal's engine for the label under the journal's name. */
    method Inspect() returns (look: Look)
      requires Valid() && desk.journal.Some?
      modifies this
      ensures Valid() && old(trace) <= trace
      ensures OnlyEngine(old(desk), desk) && desk == old(desk).(life := desk.life, strangers := desk.strangers)
      ensures confirmed <= old(confirmed) + {desk.journal.value.token}
      ensures look.OwnLabel? ==> Exists(desk, desk.journal.value.token) && desk.journal.value.token in confirmed
      ensures look.ForeignLabel? || look.NotThere? ==> desk.journal.value.token !in confirmed
      ensures look.NoAnswer? ==> confirmed == old(confirmed)
      ensures look.NotThere? ==>
                (Answered(old(desk), desk.journal.value.token) ==> Over(desk, desk.journal.value.token))
      ensures undisturbed ==>
                desk == old(desk) && look == if There(desk, desk.journal.value.token) then OwnLabel else NotThere
    {
      hide Valid, OnlyEngine;
      ghost var token := desk.journal.value.token;
      Interfere();
      ghost var seen := desk;
      OnlyEngineKeeps(old(desk), seen, token);
      look := *;
      if undisturbed || !look.NoAnswer? {
        look := if Fate(desk, desk.journal.value.token).Present? then OwnLabel
                else if desk.journal.value.token in desk.strangers then ForeignLabel else NotThere;
      }
      IsTracked();
      OursNotStrange(desk, desk.journal.value.token);
      Note(look, desk.journal.value.token);
      Interfere();
      OnlyEngineTransitive(old(desk), seen, desk);
      OnlyEngineKeeps(seen, desk, token);
    }

    /** `docker rm`: delete whatever holds the name. The label read there last must be ours, and the command
        uses that reading up. */
    method Remove() returns (ok: bool)
      requires Valid() && desk.journal.Some? && Exists(desk, desk.journal.value.token)
      requires desk.journal.value.token in confirmed
      modifies this
      ensures Valid() && old(trace) <= trace
      ensures OnlyEngine(old(desk), desk) && desk == old(desk).(life := desk.life, strangers := desk.strangers)
      ensures confirmed == old(confirmed) - {desk.journal.value.token}
      ensures ok ==> Over(desk, desk.journal.value.token)
      ensures undisturbed ==> ok
    {
      hide Valid, OnlyEngine, DeskHistory, Tracked, Over, Exists, Fate;
      var t := desk.journal.value.token;
      Interfere();
      OnlyEngineKeeps(old(desk), desk, t);
      IsTracked();
      ok := *;
      ok := ok || undisturbed;
      var goneAnyway: bool := *;
      if ok || goneAnyway {
        ghost var before := desk;
        var d := desk.(life := if t in desk.life && desk.life[t].Present? then desk.life[t := Gone] else desk.life,
                       strangers := desk.strangers - {t},
                       harmed := desk.harmed + desk.strangers * {t});
        assert NameCleared(desk, d, t);
        assert desk.strangers * {t} == {};
        Take(d);
        ClearedIsEvent(before, desk, t);
        OnlyEngineTransitive(old(desk), before, desk);
      }
      Note(NotThere, t);
    }

    /** Link a new journal into place; a failed directory sync comes after the link. */
    method WriteIntent(command: nat, engine: nat) returns (ok: bool)
      requires Valid()
      modifies this`desk, this`trace
      ensures Valid() && old(trace) <= trace
      ensures OnlyEngine(old(desk), desk)
      ensures desk == old(desk).(life := desk.life, strangers := desk.strangers,
                                 journal := desk.journal, issued := desk.issued)
      ensures (desk.journal == old(desk).journal && desk.issued == old(desk).issued)
              || (old(desk).journal.None? && desk.issued == old(desk).issued + 1
                  && desk.journal == Some(Intent(old(desk).issued, command, engine, false, true)))
      ensures ok ==> old(desk).journal.None? && desk.journal.Some?
      ensures undisturbed ==> (ok <==> old(desk).journal.None?)
    {
      hide Valid, OnlyEngine, DeskHistory, Tracked;
      Interfere();
      ok := false;
      var linked: bool := *;
      if (linked || undisturbed) && desk.journal.None? {
        ghost var before := desk;
        ok := *;
        ok := ok || undisturbed;
        Take(desk.(journal := Some(Intent(desk.issued, command, engine, false, true)), issued := desk.issued + 1));
        SameContainers(before, desk);
        OnlyEngineTransitive(old(desk), before, desk);
      }
    }

    /** The create command. A client that reports success has had its answer; any other may still get one. */
    method RequestCreate() returns (ok: bool)
      requires Valid() && desk.journal.Some? && desk.journal.value.uncertain
      requires Fate(desk, desk.journal.value.token).NeverRequested?
      modifies this`desk, this`trace
      ensures Valid() && old(trace) <= trace
      ensures desk == old(desk).(life := desk.life, strangers := desk.strangers)
      ensures ok ==> Exists(desk, desk.journal.value.token)
      ensures undisturbed ==> ok && There(desk, desk.journal.value.token)
    {
      hide Valid, OnlyEngine, DeskHistory, Tracked;
      ghost var token := desk.journal.value.token;
      ok := false;
      var sent: bool := *;
      if sent || undisturbed {
        var requested := desk.(life := desk.life[desk.journal.value.token := InFlight]);
        assert CreateSent(desk, requested);
        Take(requested);
        ok := *;
        ok := (ok || undisturbed) && desk.journal.value.token !in desk.strangers;
        IsTracked();
        if ok {
          IsTracked();
          var created := desk.(life := desk.life[desk.journal.value.token := Present]);
          Landed(desk, created, desk.journal.value.token);
          Take(created);
        }
        ghost var answered := desk;
        Interfere();
        OnlyEngineKeeps(answered, desk, token);
      }
    }

    /** Replace the journal by one that calls the create certain. */
    method Confirm() returns (ok: bool)
      requires Valid() && desk.journal.Some? && Exists(desk, desk.journal.value.token)
      modifies this`desk, this`trace
      ensures Valid() && old(trace) <= trace
      ensures OnlyEngine(old(desk), desk) && desk.lost == old(desk).lost && desk.issued == old(desk).issued
      ensures desk.journal == old(desk).journal
              || desk.journal == Some(old(desk).journal.value.(confirmed := true, uncertain := false))
      ensures ok ==> desk.journal == Some(old(desk).journal.value.(confirmed := true, uncertain := false))
      ensures undisturbed ==> ok && desk.life == old(desk).life
    {
      hide Valid, OnlyEngine, DeskHistory, Tracked;
      ghost var token := desk.journal.value.token;
      Interfere();
      OnlyEngineKeeps(old(desk), desk, token);
      ok := *;
      ok := ok || undisturbed;
      var replaced: bool := *;
      if ok || replaced {
        ghost var before := desk;
        var confirmed := desk.(journal := Some(desk.journal.value.(confirmed := true, uncertain := false)));
        assert CreateConfirmed(desk, confirmed);
        Take(confirmed);
        SameContainers(before, desk);
        OnlyEngineTransitive(old(desk), before, desk);
      }
    }

    /** Unlink the journal of an attempt that is over; a failed directory sync comes after the unlink. */
    method DropJournal() returns (ok: bool)
      requires Valid() && desk.journal.Some? && Over(desk, desk.journal.value.token)
      modifies this`desk, this`trace
      ensures Valid() && old(trace) <= trace
      ensures OnlyEngine(old(desk), desk) && desk.lost == old(desk).lost && desk.issued == old(desk).issued
      ensures desk.journal == old(desk).journal || desk.journal.None?
      ensures ok ==> desk.journal.None?
      ensures undisturbed ==> ok
    {
      hide Valid, OnlyEngine, DeskHistory, Tracked;
      ghost var token := desk.journal.value.token;
      Interfere();
      OnlyEngineKeeps(old(desk), desk, token);
      ok := *;
      ok := ok || undisturbed;
      var unlinked: bool := *;
      if ok || unlinked {
        ghost var before := desk;
        var dropped := desk.(journal := None);
        assert JournalRemoved(desk, dropped);
        Take(dropped);
        SameContainers(before, desk);
        OnlyEngineTransitive(old(desk), before, desk);
      }
    }

    /** `_cleanup_measurement_container`: up to four looks, until one reads a label. Only our own is
        removed. Without an own label there is no success after a create that may have happened. */
    method CleanUp(confirmed: bool, uncertain: bool) returns (ok: bool)
      requires Valid() && desk.journal.Some? && (confirmed || uncertain)
      modifies this
      ensures Valid() && old(trace) <= trace
      ensures this.confirmed <= old(this.confirmed)
      ensures OnlyEngine(old(desk), desk) && desk == old(desk).(life := desk.life, strangers := desk.strangers)
      ensures ok ==> Over(desk, desk.journal.value.token)
      ensures undisturbed && There(old(desk), desk.journal.value.token) ==> ok
    {
      hide *;
      ghost var token := desk.journal.value.token;
      SameContainers(desk, desk);
      var tries := 0;
      var controlError := false;
      while tries < 4
        invariant Valid() && old(trace) <= trace && 0 <= tries <= 4 && this.confirmed <= old(this.confirmed)
        invariant undisturbed ==> desk == old(desk)
        invariant undisturbed && There(old(desk), token) ==> tries == 0
        invariant OnlyEngine(old(desk), desk) && desk == old(desk).(life := desk.life, strangers := desk.strangers)
      {
        tries := tries + 1;
        ghost var before := desk;
        var look := Inspect();
        OnlyEngineTransitive(old(desk), before, desk);
        if look.ForeignLabel? {
          return false;
        }
        if look.OwnLabel? {
          ghost var inspected := desk;
          ok := Remove();
          OnlyEngineTransitive(old(desk), inspected, desk);
          return;
        }
        controlError := controlError || look.NoAnswer?;
      }
      ok := !confirmed && !uncertain && !controlError;
    }

    /** `_measure_export_tar`. A size is reported only when the container and its journal are gone. While an
        earlier journal is there nothing is created. */
    method Measure(command: nat, engine: nat, archive: seq<Member>) returns (measurement: Measurement)
      requires Valid()
      modifies this
      ensures Valid() && old(trace) <= trace
      ensures confirmed <= old(confirmed)
      ensures desk.lost == old(desk).lost
      ensures !measurement.MeasurementFailed? ==>
                desk.journal.None? && forall token: nat :: token !in desk.lost ==> Over(desk, token)
      ensures !measurement.MeasurementFailed? ==>
                measurement == if WithinLimits(archive) then Measured(FileBytes(archive)) else TooLarge
      ensures old(desk).journal.Some? ==>
                OnlyEngine(old(desk), desk) && desk == old(desk).(life := desk.life, strangers := desk.strangers)
      ensures measurement.MeasurementFailed? && desk.journal.Some? ==>
                desk.journal == old(desk).journal || desk.journal.value.token == old(desk).issued
      ensures undisturbed ==> (measurement.MeasurementFailed? <==> old(desk).journal.Some?)
    {
      hide There, Valid, OnlyEngine, DeskHistory, Tracked, Fate, Over, Exists, Answered;
      SameContainers(desk, desk);
      measurement := MeasurementFailed;
      var answers: bool := *;
      if !answers && !undisturbed {
        return;
      }
      IsTracked();
      var written := WriteIntent(command, engine);
      OnlyEngineKeeps(old(desk), desk, old(desk).issued);
      if !written {
        return;
      }
      ghost var token := desk.journal.value.token;
      var created := RequestCreate();
      var counted: Option<nat> := None;
      var exported := false;
      if created {
        ghost var present := desk;
        var recorded := Confirm();
        if undisturbed {
          SameThere(present, desk, token);
        }
        if recorded {
          exported := *;
          exported := exported || undisturbed;
          counted := CountBytes(archive);
        }
      }
      var clean := CleanUp(created, !created);
      if !clean {
        return;
      }
      var dropped := DropJournal();
      if dropped && exported {
        NothingButLost();
        measurement := if counted.Some? then Measured(counted.value) else TooLarge;
      }
    }

    /** `reconcile_measurement_journal`. The operator's confirmation stands for the promise that the
        journal's engine dropped pending creates; it is not a promise that it holds no container. */
    method Reconcile(command: nat, engine: nat, confirmRestarted: bool) returns (ok: bool)
      requires Valid()
      requires confirmRestarted && desk.journal.Some? ==> Answered(desk, desk.journal.value.token)
      modifies this
      ensures Valid() && old(trace) <= trace
      ensures confirmed <= old(confirmed)
      ensures MayReconcile(old(desk), desk, command, engine, confirmRestarted)
      ensures ok ==> old(desk).journal.Some? && desk.journal.None?
      ensures undisturbed ==> (ok <==> Releasable(old(desk), command, engine, confirmRestarted))
      ensures undisturbed && old(desk).journal.Some? &&
                Unseen(old(desk).journal.value, command, engine, confirmRestarted) ==>
                desk == old(desk).(journal := None, lost := old(desk).lost + {old(desk).journal.value.token})
    {
      hide There, Valid, OnlyEngine, DeskHistory, Tracked, Fate, Over, Exists, Answered;
      SameContainers(desk, desk);
      ok := false;
      var readable: bool := *;
      var answers: bool := *;
      if desk.journal.None? || (!readable && !undisturbed)
         || command != desk.journal.value.command || (!answers && !undisturbed) {
        return;
      }
      ghost var token := desk.journal.value.token;
      if engine != desk.journal.value.engine {
        if confirmRestarted {
          ok := Abandon();
        }
        return;
      }
      IsTracked();
      var look := Inspect();
      ghost var inspected := desk;
      if look.NoAnswer? || look.ForeignLabel? {
        return;
      }
      if look.NotThere? {
        if desk.journal.value.uncertain && !confirmRestarted {
          return;
        }
      } else {
        var removed := Remove();
        OnlyEngineTransitive(old(desk), inspected, desk);
        if !removed {
          return;
        }
      }
      ghost var over := desk;
      ok := DropJournal();
      OnlyEngineTransitive(old(desk), over, desk);
      OnlyEngineKeeps(over, desk, token);
    }

    /** The journal goes although nothing was asked of the engine it names. */
    method Abandon() returns (ok: bool)
      requires Valid() && desk.journal.Some?
      modifies this`desk, this`trace
      ensures Valid() && old(trace) <= trace
      ensures OnlyEngine(old(desk), desk) && desk.issued == old(desk).issued
      ensures (desk.journal == old(desk).journal && desk.lost == old(desk).lost)
              || (desk.journal.None? && desk.lost == old(desk).lost + {old(desk).journal.value.token})
      ensures ok ==> desk.journal.None?
      ensures undisturbed ==>
                ok && desk == old(desk).(journal := None, lost := old(desk).lost + {old(desk).journal.value.token})
    {
      hide Valid, OnlyEngine, DeskHistory, Tracked;
      Interfere();
      ok := *;
      ok := ok || undisturbed;
      var unlinked: bool := *;
      if ok || unlinked {
        ghost var before := desk;
        var abandoned := desk.(journal := None, lost := desk.lost + {desk.journal.value.token});
        assert JournalAbandoned(desk, abandoned);
        Take(abandoned);
        SameContainers(before, desk);
        OnlyEngineTransitive(old(desk), before, desk);
      }
    }
  }
}
