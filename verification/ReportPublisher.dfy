/** `_publish_report_pair`: a set of reports is replaced as one transaction, announced by a marker file. Every
    file operation may fail, and the process may die between any two of them. `instants` keeps the disk as
    each operation left it. The pair is the case of two contents; the loops do not depend on the number. */
module ReportPublisher {
  import opened Options

  datatype Name = Destination(k: nat) | Staging(k: nat) | Backup(k: nat) | Marker

  type Disk = map<Name, string>

  /** How a call ends. It returns normally only as `Committed(true)`; every other ending is an exception.
      `tidy` says whether the temporary files could be deleted. */
  datatype Ending =
    | Refused
    | Committed(tidy: bool)
    | RolledBack(tidy: bool)
    | HalfUndone(tidy: bool, unrestored: set<nat>, published: set<nat>)

  function At(d: Disk, name: Name): Option<string> {
    if name in d then Some(d[name]) else None
  }

  /** The destinations are as before the call, including those that were absent. */
  ghost predicate WhollyOld(d: Disk, base: Disk, n: nat) {
    forall k: nat :: k < n ==> At(d, Destination(k)) == At(base, Destination(k))
  }

  ghost predicate WhollyNew(d: Disk, contents: seq<string>) {
    forall k: nat :: k < |contents| ==> At(d, Destination(k)) == Some(contents[k])
  }

  function Upto(n: nat): (s: set<nat>)
    ensures forall k: nat :: k in s <==> k < n
  {
    if n == 0 then {} else Upto(n - 1) + {n - 1}
  }

  /** What a process that finds this disk can rely on: the marker warns it, or the set is not mixed. */
  ghost predicate Recoverable(d: Disk, base: Disk, contents: seq<string>) {
    Marker in d || WhollyOld(d, base, |contents|) || WhollyNew(d, contents)
  }

  ghost predicate AllRecoverable(instants: seq<Disk>, base: Disk, contents: seq<string>) {
    forall i :: 0 <= i < |instants| ==> Recoverable(instants[i], base, contents)
  }

  /** Where a transaction stands, going forward or being undone: `backups` are moved aside, `published` are
      in place. */
  ghost predicate Stands(d: Disk, base: Disk, contents: seq<string>, backups: set<nat>, published: set<nat>) {
    && (forall k: nat :: k in backups ==>
          k < |contents| && Destination(k) in base && At(d, Backup(k)) == At(base, Destination(k)))
    && (forall k: nat :: k < |contents| && k in published ==>
          At(d, Destination(k)) == Some(contents[k]) && (k !in backups ==> Destination(k) !in base))
    && (forall k: nat :: k < |contents| && k !in published ==>
          At(d, Destination(k)) == if k in backups then None else At(base, Destination(k)))
  }

  ghost predicate FirstStaged(d: Disk, contents: seq<string>, n: nat) {
    n <= |contents| && forall k: nat :: k < n ==> At(d, Staging(k)) == Some(contents[k])
  }

  /** The files `finally` deletes. */
  ghost predicate NoTemporaries(d: Disk, n: nat) {
    forall k: nat :: k < n ==> Staging(k) !in d && Backup(k) !in d
  }

  lemma UndoneIsOld(d: Disk, base: Disk, contents: seq<string>)
    requires Stands(d, base, contents, {}, {})
    ensures WhollyOld(d, base, |contents|)
  {
  }

  lemma AllPublishedIsNew(d: Disk, base: Disk, contents: seq<string>, backups: set<nat>, published: set<nat>)
    requires Stands(d, base, contents, backups, published)
    requires forall k: nat :: k < |contents| ==> k in published
    ensures WhollyNew(d, contents)
  {
  }

  lemma BackedUp(d: Disk, base: Disk, contents: seq<string>, backups: set<nat>, k: nat)
    requires Stands(d, base, contents, backups, {}) && k < |contents| && k !in backups && Destination(k) in d
    ensures Stands(d[Backup(k) := d[Destination(k)]] - {Destination(k)}, base, contents, backups + {k}, {})
  {
  }

  lemma Published(d: Disk, base: Disk, contents: seq<string>, backups: set<nat>, published: set<nat>, k: nat)
    requires Stands(d, base, contents, backups, published) && k < |contents| && k !in published
    requires Destination(k) !in d && At(d, Staging(k)) == Some(contents[k])
    ensures Stands(d[Destination(k) := contents[k]] - {Staging(k)}, base, contents, backups, published + {k})
  {
  }

  lemma Unpublished(d: Disk, base: Disk, contents: seq<string>, backups: set<nat>, published: set<nat>, k: nat)
    requires Stands(d, base, contents, backups, published) && k in published && k < |contents|
    ensures Stands(d - {Destination(k)}, base, contents, backups, published - {k})
  {
  }

  lemma Restored(d: Disk, base: Disk, contents: seq<string>, backups: set<nat>, k: nat)
    requires Stands(d, base, contents, backups, {}) && k in backups
    ensures Backup(k) in d
    ensures Stands(d[Destination(k) := d[Backup(k)]] - {Backup(k)}, base, contents, backups - {k}, {})
  {
  }

  lemma BackupsInRange(d: Disk, base: Disk, contents: seq<string>, backups: set<nat>)
    requires Stands(d, base, contents, backups, {})
    ensures forall k :: k in backups ==> k < |contents|
  {
  }

  /** Files other than destinations and backups do not matter to where a transaction stands. */
  lemma OtherFiles(d: Disk, d': Disk, base: Disk, contents: seq<string>, backups: set<nat>, published: set<nat>)
    requires Stands(d, base, contents, backups, published)
    requires forall k: nat :: At(d', Destination(k)) == At(d, Destination(k)) && At(d', Backup(k)) == At(d, Backup(k))
    ensures Stands(d', base, contents, backups, published)
  {
  }

  lemma StillPublished(d: Disk, base: Disk, contents: seq<string>, backups: set<nat>, published: set<nat>)
    requires Stands(d, base, contents, backups, published) && published == Upto(|contents|)
    ensures forall k: nat :: k < |contents| ==> At(d, Destination(k)) == Some(contents[k])
  {
  }

  ghost predicate TookBackOne(d: Disk, contents: seq<string>) {
    && Marker !in d && Destination(0) !in d
    && forall k: nat :: 1 <= k < |contents| ==> At(d, Destination(k)) == Some(contents[k])
  }

  ghost predicate TookBackTwo(d: Disk) {
    Marker !in d && Destination(0) !in d && Destination(1) !in d
  }

  /** The one base that a set without its first publication may be taken for. */
  ghost predicate Coincides(base: Disk, contents: seq<string>) {
    && At(base, Destination(0)) == None
    && forall k: nat :: 1 <= k < |contents| ==> At(base, Destination(k)) == Some(contents[k])
  }

  /** How far an unmarked undo may get without mixing the set: not at all, or over the first destination if
      that happens to bring back the old set. */
  ghost predicate Unmixed(remaining: set<nat>, base: Disk, contents: seq<string>) {
    || remaining == Upto(|contents|)
    || (remaining == Upto(|contents|) - {0} && Coincides(base, contents))
  }

  lemma AllTaken(base: Disk, contents: seq<string>)
    ensures |contents| >= 2 ==> !Unmixed({}, base, contents)
  {
    if |contents| >= 2 {
      assert 1 in Upto(|contents|);
      assert 1 in Upto(|contents|) - {0};
    }
  }

  lemma FirstTakenBack(base: Disk, contents: seq<string>, one: Disk)
    requires |contents| >= 2 && TookBackOne(one, contents)
    ensures Recoverable(one, base, contents) <==> Coincides(base, contents)
  {
    assert At(one, Destination(0)) == None;
    if WhollyOld(one, base, |contents|) {
      forall k: nat | 1 <= k < |contents|
        ensures At(base, Destination(k)) == Some(contents[k])
      {
        assert At(one, Destination(k)) == At(base, Destination(k));
      }
    }
  }

  /** Taking back two publications without a marker passes through a mixture, whatever was there before. */
  lemma UndoMixes(base: Disk, contents: seq<string>, one: Disk, two: Disk)
    requires |contents| >= 2 && TookBackOne(one, contents) && TookBackTwo(two)
    ensures !(Recoverable(one, base, contents) && Recoverable(two, base, contents))
  {
    assert At(one, Destination(0)) == None && At(two, Destination(0)) == None;
    assert At(one, Destination(1)) != At(two, Destination(1));
  }

  ghost predicate SameReports(d: Disk, d': Disk) {
    (Marker in d <==> Marker in d') && forall k: nat :: At(d, Destination(k)) == At(d', Destination(k))
  }

  /** After an undo that failed half-way the temporary files go all the same: of the reports that were not
      moved back no copy is left. */
  ghost predicate Lost(d: Disk, base: Disk, contents: seq<string>, ending: Ending) {
    && ending.HalfUndone? && (ending.unrestored != {} || ending.published != {})
    && (forall k: nat :: k in ending.unrestored ==>
          k < |contents| && Destination(k) in base && (ending.tidy ==> Backup(k) !in d))
    && forall k: nat :: k < |contents| ==>
         At(d, Destination(k)) == if k in ending.published then Some(contents[k])
                                  else if k in ending.unrestored then None
                                  else At(base, Destination(k))
  }

  lemma SameReportsSameSet(d: Disk, d': Disk, base: Disk, contents: seq<string>)
    requires SameReports(d, d')
    ensures WhollyOld(d, base, |contents|) <==> WhollyOld(d', base, |contents|)
    ensures WhollyNew(d, contents) <==> WhollyNew(d', contents)
    ensures Recoverable(d, base, contents) <==> Recoverable(d', base, contents)
  {
  }

  /** Instants that differ from the last one only in temporary files are as good as it. */
  lemma TidyInstants(a: seq<Disk>, b: seq<Disk>, base: Disk, contents: seq<string>)
    requires |a| > 0 && a <= b && AllRecoverable(a, base, contents)
    requires forall i :: |a| <= i < |b| ==> SameReports(b[i], a[|a| - 1])
    ensures AllRecoverable(b, base, contents)
  {
    hide SameReports, Recoverable;
    forall i | 0 <= i < |b|
      ensures Recoverable(b[i], base, contents)
    {
      if i >= |a| {
        SameReportsSameSet(b[i], a[|a| - 1], base, contents);
      }
    }
  }

  /** With the marker as the only change the transaction has yet to move anything. */
  lemma MarkerOnly(base: Disk, d: Disk, instants: seq<Disk>, contents: seq<string>)
    requires forall name: Name :: name != Marker ==> At(d, name) == At(base, name)
    requires instants == [base] || instants == [base, d]
    ensures WhollyOld(d, base, |contents|) && Stands(d, base, contents, {}, {})
    ensures AllRecoverable(instants, base, contents)
  {
    assert WhollyOld(base, base, |contents|);
  }

  lemma Unrestored(d: Disk, d': Disk, base: Disk, contents: seq<string>, ending: Ending)
    requires ending.HalfUndone? && (ending.unrestored != {} || ending.published != {})
    requires Stands(d, base, contents, ending.unrestored, ending.published)
    requires forall k: nat :: At(d', Destination(k)) == At(d, Destination(k))
    requires ending.tidy ==> NoTemporaries(d', |contents|)
    ensures Lost(d', base, contents, ending)
  {
  }

  lemma MixedInstants(instants: seq<Disk>, base: Disk, contents: seq<string>, from: nat)
    requires |contents| >= 2 && from + 1 < |instants|
    requires TookBackOne(instants[from], contents) && TookBackTwo(instants[from + 1])
    ensures !AllRecoverable(instants, base, contents)
  {
    UndoMixes(base, contents, instants[from], instants[from + 1]);
  }

  lemma PrefixMixed(a: seq<Disk>, b: seq<Disk>, base: Disk, contents: seq<string>)
    requires a <= b && !AllRecoverable(a, base, contents)
    ensures !AllRecoverable(b, base, contents)
  {
    var i :| 0 <= i < |a| && !Recoverable(a[i], base, contents);
    assert b[i] == a[i];
  }

  /** What an unmarked undo leaves of a recoverable past after taking back the first `taken` publications. */
  lemma TakenBack(before: seq<Disk>, instants: seq<Disk>, base: Disk, contents: seq<string>, taken: nat)
    requires |contents| >= 2 && taken <= |contents| && AllRecoverable(before, base, contents)
    requires |instants| == |before| + taken && before <= instants
    requires taken >= 1 ==> TookBackOne(instants[|before|], contents)
    requires taken >= 2 ==> TookBackTwo(instants[|before| + 1])
    ensures AllRecoverable(instants, base, contents) <==> Unmixed(Upto(|contents|) - Upto(taken), base, contents)
  {
    var remaining := Upto(|contents|) - Upto(taken);
    if taken == 0 {
      assert instants == before;
      assert remaining == Upto(|contents|);
    } else if taken == 1 {
      assert Upto(1) == {0} && 0 in Upto(|contents|);
      assert instants == before + [instants[|before|]];
      FirstTakenBack(base, contents, instants[|before|]);
    } else {
      MixedInstants(instants, base, contents, |before|);
      assert 1 in Upto(|contents|) && 1 !in remaining;
    }
  }

  lemma MarkedInstants(a: seq<Disk>, b: seq<Disk>, base: Disk, contents: seq<string>)
    requires a <= b && AllRecoverable(a, base, contents)
    requires forall i :: |a| <= i < |b| ==> Marker in b[i]
    ensures AllRecoverable(b, base, contents)
  {
  }

  lemma OneMoreInstant(a: seq<Disk>, d: Disk, base: Disk, contents: seq<string>)
    requires AllRecoverable(a, base, contents) && (Marker in d || WhollyOld(d, base, |contents|))
    ensures AllRecoverable(a + [d], base, contents) && AllRecoverable(a + [], base, contents)
  {
    assert a + [] == a;
  }

  class ReportDirectory {
    var disk: Disk
    ghost var instants: seq<Disk>

    /** Whether every file operation succeeds. */
    const undisturbed: bool

    /** Whether every operation of the undo and of the clean-up succeeds, whatever failed before. */
    const undoes: bool

    ghost predicate Valid()
      reads this
    {
      |instants| > 0 && instants[|instants| - 1] == disk
    }

    constructor (start: Disk, undisturbed: bool, undoes: bool)
      ensures Valid() && disk == start && instants == [start]
      ensures this.undisturbed == undisturbed && this.undoes == undoes
    {
      this.undoes := undoes;
      this.undisturbed := undisturbed;
      disk := start;
      instants := [start];
    }

    /** One file operation, on the way forward or back, which may fail without effect. */
    method Attempt(next: Disk, back: bool) returns (ok: bool)
      requires Valid()
      modifies this
      ensures Valid() && disk == (if ok then next else old(disk))
      ensures instants == old(instants) + (if ok then [next] else [])
      ensures undisturbed || (back && undoes) ==> ok
    {
      ok := *;
      ok := ok || undisturbed || (back && undoes);
      if ok {
        disk := next;
        instants := instants + [next];
      }
    }

    /** `_create_report_transaction_marker`: created exclusively; what follows the creation may still fail. */
    method CreateMarker() returns (ok: bool)
      requires Valid()
      modifies this
      ensures Valid() && forall name: Name :: name != Marker ==> At(disk, name) == At(old(disk), name)
      ensures Marker in old(disk) ==> disk == old(disk)
      ensures ok ==> Marker in disk && Marker !in old(disk)
      ensures instants == old(instants) + (if disk == old(disk) then [] else [disk])
      ensures undisturbed ==> (ok <==> Marker !in old(disk))
    {
      ok := false;
      if Marker !in disk {
        var payload: string := *;
        var created := Attempt(disk[Marker := payload], false);
        if created {
          ok := *;
          ok := ok || undisturbed;
        }
      }
    }

    /** Write every content to a new temporary file. */
    method Stage(contents: seq<string>, ghost base: Disk) returns (ok: bool, staged: nat)
      requires Valid() && Marker in disk && Stands(disk, base, contents, {}, {}) &&
                AllRecoverable(instants, base, contents)
      modifies this
      ensures old(instants) <= instants
      ensures Valid() && Marker in disk && Stands(disk, base, contents, {}, {}) &&
                AllRecoverable(instants, base, contents)
      ensures staged <= |contents| && FirstStaged(disk, contents, staged)
      ensures ok ==> staged == |contents|
      ensures undisturbed ==> ok
    {
      hide Stands;
      ok, staged := true, 0;
      while ok && staged < |contents|
        invariant old(instants) <= instants
        invariant undisturbed ==> ok
        invariant 0 <= staged <= |contents| && Valid() && Marker in disk && FirstStaged(disk, contents, staged)
        invariant Stands(disk, base, contents, {}, {}) && AllRecoverable(instants, base, contents)
      {
        ghost var before := disk;
        ok := Attempt(disk[Staging(staged) := contents[staged]], false);
        OtherFiles(before, disk, base, contents, {}, {});
        if ok {
          staged := staged + 1;
        }
      }
    }

    /** Move every existing destination aside. */
    method BackUp(contents: seq<string>, ghost base: Disk) returns (ok: bool, backups: set<nat>)
      requires Valid() && Marker in disk && Stands(disk, base, contents, {}, {}) &&
                AllRecoverable(instants, base, contents)
      requires FirstStaged(disk, contents, |contents|)
      modifies this
      ensures old(instants) <= instants
      ensures Valid() && Marker in disk && Stands(disk, base, contents, backups, {}) &&
                AllRecoverable(instants, base, contents)
      ensures FirstStaged(disk, contents, |contents|)
      ensures ok ==> forall k: nat :: k < |contents| ==> Destination(k) !in disk
      ensures undisturbed ==> ok
    {
      hide Stands;
      ok, backups := true, {};
      var i := 0;
      while ok && i < |contents|
        invariant old(instants) <= instants
        invariant undisturbed ==> ok
        invariant 0 <= i <= |contents| && Valid() && Marker in disk && FirstStaged(disk, contents, |contents|)
        invariant Stands(disk, base, contents, backups, {}) && AllRecoverable(instants, base, contents)
        invariant forall k :: k in backups ==> k < i
        invariant ok ==> forall k: nat :: k < i ==> Destination(k) !in disk
      {
        if Destination(i) in disk {
          BackedUp(disk, base, contents, backups, i);
          ok := Attempt(disk[Backup(i) := disk[Destination(i)]] - {Destination(i)}, false);
          if ok {
            backups := backups + {i};
          }
        }
        i := i + 1;
      }
    }

    /** Move the staged files into place, make that durable, and withdraw the marker. `late` says that only
        the very last directory sync failed. */
    method Publish(contents: seq<string>, backups: set<nat>, ghost base: Disk)
        returns (ok: bool, published: nat, late: bool)
      requires Valid() && Marker in disk && Stands(disk, base, contents, backups, {}) &&
                AllRecoverable(instants, base, contents)
      requires FirstStaged(disk, contents, |contents|)
      requires forall k: nat :: k < |contents| ==> Destination(k) !in disk
      modifies this
      ensures old(instants) <= instants
      ensures Valid() && published <= |contents| && Stands(disk, base, contents, backups, Upto(published))
      ensures AllRecoverable(instants, base, contents)
      ensures ok || late ==> published == |contents|
      ensures Marker in disk <==> !ok && !late
      ensures ok ==> !late
      ensures undisturbed ==> ok
    {
      hide Stands;
      ok, published, late := true, 0, false;
      assert Upto(0) == {};
      while ok && published < |contents|
        invariant old(instants) <= instants
        invariant undisturbed ==> ok
        invariant 0 <= published <= |contents| && Valid() && Marker in disk && AllRecoverable(instants, base, contents)
        invariant Stands(disk, base, contents, backups, Upto(published))
        invariant forall k: nat :: published <= k < |contents| ==>
                  At(disk, Staging(k)) == Some(contents[k]) && Destination(k) !in disk
      {
        Published(disk, base, contents, backups, Upto(published), published);
        ok := Attempt(disk[Destination(published) := contents[published]] - {Staging(published)}, false);
        if ok {
          assert Upto(published + 1) == Upto(published) + {published};
          published := published + 1;
        }
      }
      if ok {
        ok := *;
        ok := ok || undisturbed;
      }
      if ok {
        AllPublishedIsNew(disk, base, contents, backups, Upto(published));
        OtherFiles(disk, disk - {Marker}, base, contents, backups, Upto(published));
        ok := Attempt(disk - {Marker}, false);
        if ok {
          var synced: bool := *;
          late := !synced && !undisturbed;
          ok := !late;
        }
      }
    }

    /** Move the backups back; the first failure ends it. */
    method Restore(contents: seq<string>, backups: set<nat>, ghost base: Disk) returns (unrestored: set<nat>)
      requires Valid() && Stands(disk, base, contents, backups, {})
      modifies this
      ensures Valid() && Stands(disk, base, contents, unrestored, {}) && unrestored <= backups
      ensures undoes ==> unrestored == {}
      ensures Marker in disk <==> Marker in old(disk)
      ensures old(instants) <= instants
      ensures Marker in disk && AllRecoverable(old(instants), base, contents) ==>
                AllRecoverable(instants, base, contents)
    {
      hide Stands;
      unrestored := backups;
      BackupsInRange(disk, base, contents, backups);
      var ok, i := true, 0;
      while ok && i < |contents|
        invariant 0 <= i <= |contents| && Valid() && unrestored <= backups && old(instants) <= instants
        invariant Stands(disk, base, contents, unrestored, {})
        invariant ok ==> forall k :: k in unrestored ==> i <= k < |contents|
        invariant undoes ==> ok
        invariant Marker in disk <==> Marker in old(disk)
        invariant Marker in disk && AllRecoverable(old(instants), base, contents) ==>
                  AllRecoverable(instants, base, contents)
      {
        if i in unrestored {
          Restored(disk, base, contents, unrestored, i);
          ok := Attempt(disk[Destination(i) := disk[Backup(i)]] - {Backup(i)}, true);
          if ok {
            unrestored := unrestored - {i};
          }
        }
        i := i + 1;
      }
    }

    /** Delete the publications again, in their order; the first failure ends it. Without a marker the
        disks it leaves on its way are a mixture. */
    method TakeBack(contents: seq<string>, backups: set<nat>, published: nat, ghost base: Disk)
        returns (remaining: set<nat>)
      requires Valid() && published <= |contents| && Stands(disk, base, contents, backups, Upto(published))
      requires AllRecoverable(instants, base, contents)
      requires Marker !in disk ==> published == |contents|
      modifies this
      ensures Valid() && Stands(disk, base, contents, backups, remaining) && remaining <= Upto(published)
      ensures undoes ==> remaining == {}
      ensures Marker in disk <==> Marker in old(disk)
      ensures old(instants) <= instants
      ensures forall i :: |old(instants)| <= i < |instants| ==> (Marker in instants[i] <==> Marker in old(disk))
      ensures Marker !in disk && |contents| >= 2 ==>
                (AllRecoverable(instants, base, contents) <==> Unmixed(remaining, base, contents))
    {
      hide Stands, AllRecoverable, Recoverable, Unmixed;
      remaining := Upto(published);
      ghost var from := |instants|;
      var ok, i := true, 0;
      while ok && i < published
        invariant 0 <= i <= published && Valid() && remaining == Upto(published) - Upto(i)
        invariant undoes ==> ok
        invariant Stands(disk, base, contents, backups, remaining)
        invariant Marker in disk <==> Marker in old(disk)
        invariant forall k: nat :: k < i ==> Destination(k) !in disk
        invariant |instants| == from + i && old(instants) <= instants
        invariant forall k :: from <= k < |instants| ==> (Marker in instants[k] <==> Marker in old(disk))
        invariant Marker !in disk && i >= 1 ==> TookBackOne(instants[from], contents)
        invariant Marker !in disk && i >= 2 ==> TookBackTwo(instants[from + 1])
      {
        Unpublished(disk, base, contents, backups, remaining, i);
        if i == 0 && published == |contents| {
          StillPublished(disk, base, contents, backups, remaining);
        }
        ok := Attempt(disk - {Destination(i)}, true);
        if ok {
          assert Upto(i + 1) == Upto(i) + {i};
          remaining := remaining - {i};
          i := i + 1;
        }
      }
      if Marker !in disk && |contents| >= 2 {
        TakenBack(old(instants), instants, base, contents, i);
      }
    }

    /** The `except` block. Its first failing operation ends it. */
    method Undo(contents: seq<string>, backups: set<nat>, published: nat, ghost base: Disk)
        returns (unrestored: set<nat>, remaining: set<nat>)
      requires Valid() && published <= |contents| && Stands(disk, base, contents, backups, Upto(published))
      requires AllRecoverable(instants, base, contents)
      requires Marker !in disk ==> published == |contents|
      modifies this
      ensures Valid() && Stands(disk, base, contents, unrestored, remaining)
      ensures unrestored <= backups && remaining <= Upto(published) && old(instants) <= instants
      ensures undoes ==> unrestored == {} && remaining == {} && Marker !in disk
      ensures Marker in old(disk) ==> AllRecoverable(instants, base, contents)
      ensures Marker !in old(disk) && |contents| >= 2 ==>
                (AllRecoverable(instants, base, contents) <==> Unmixed(remaining, base, contents))
    {
      hide Stands, AllRecoverable, Recoverable, Unmixed;
      ghost var marked := Marker in disk;
      unrestored := backups;
      remaining := TakeBack(contents, backups, published, base);
      if marked {
        MarkedInstants(old(instants), instants, base, contents);
      }
      if remaining != {} {
        return;
      }
      ghost var taken := instants;
      AllTaken(base, contents);
      unrestored := Restore(contents, backups, base);
      if !marked && |contents| >= 2 {
        PrefixMixed(taken, instants, base, contents);
      }
      if unrestored == {} {
        var synced: bool := *;
        if (synced || undoes) && Marker in disk {
          UndoneIsOld(disk, base, contents);
          OtherFiles(disk, disk - {Marker}, base, contents, {}, {});
          UndoneIsOld(disk - {Marker}, base, contents);
          ghost var restored := instants;
          var unmarked := Attempt(disk - {Marker}, true);
          OneMoreInstant(restored, disk, base, contents);
        }
      }
    }

    /** The `finally` block: delete what is left of the temporary files, whatever came before. */
    method Tidy(n: nat) returns (tidy: bool)
      requires Valid()
      modifies this
      ensures Valid() && old(instants) <= instants
      ensures SameReports(disk, old(disk)) && forall k: nat :: At(disk, Destination(k)) == At(old(disk), Destination(k))
      ensures Marker in disk <==> Marker in old(disk)
      ensures forall i :: |old(instants)| <= i < |instants| ==> SameReports(instants[i], old(disk))
      ensures tidy ==> NoTemporaries(disk, n)
      ensures undisturbed || undoes ==> tidy
    {
      tidy := true;
      var i := 0;
      while tidy && i < n
        invariant undisturbed || undoes ==> tidy
        invariant 0 <= i <= n && Valid() && old(instants) <= instants
        invariant SameReports(disk, old(disk))
        invariant forall k :: |old(instants)| <= k < |instants| ==> SameReports(instants[k], old(disk))
        invariant tidy ==> NoTemporaries(disk, i)
      {
        if Staging(i) in disk {
          tidy := Attempt(disk - {Staging(i)}, true);
        }
        if tidy && Backup(i) in disk {
          tidy := Attempt(disk - {Backup(i)}, true);
        }
        i := i + 1;
      }
    }

    /** Nothing failed: the backups go. */
    method Commit(contents: seq<string>, ghost base: Disk) returns (ending: Ending)
      requires Valid() && Marker !in disk && WhollyNew(disk, contents) && AllRecoverable(instants, base, contents)
      modifies this
      ensures Valid() && old(instants) <= instants && ending.Committed?
      ensures Marker !in disk && WhollyNew(disk, contents) && AllRecoverable(instants, base, contents)
      ensures ending.tidy ==> NoTemporaries(disk, |contents|)
      ensures undisturbed || undoes ==> ending.tidy
    {
      hide AllRecoverable, Recoverable, WhollyNew;
      var tidy := Tidy(|contents|);
      TidyInstants(old(instants), instants, base, contents);
      SameReportsSameSet(disk, old(disk), base, contents);
      ending := Committed(tidy);
    }

    /** Something failed: the `except` block, then the `finally` block. */
    method RollBack(contents: seq<string>, ghost base: Disk, backups: set<nat>, published: nat) returns (ending: Ending)
      requires Valid() && published <= |contents| && Stands(disk, base, contents, backups, Upto(published))
      requires |contents| >= 2 && AllRecoverable(instants, base, contents)
      requires Marker !in disk ==> published == |contents|
      modifies this
      ensures Valid() && old(instants) <= instants
      ensures ending.RolledBack? || ending.HalfUndone?
      ensures undoes ==> ending == RolledBack(true) && Marker !in disk
      ensures ending.RolledBack? ==> WhollyOld(disk, base, |contents|)
      ensures ending.HalfUndone? ==> Lost(disk, base, contents, ending)
      ensures Marker in old(disk) ==> AllRecoverable(instants, base, contents)
      ensures Marker !in old(disk) ==>
                (AllRecoverable(instants, base, contents) <==>
                    ending.HalfUndone? && Unmixed(ending.published, base, contents))
      ensures ending.tidy ==> NoTemporaries(disk, |contents|)
    {
      hide Stands, AllRecoverable, Recoverable, WhollyOld, WhollyNew, Lost, NoTemporaries, SameReports, Unmixed;
      AllTaken(base, contents);
      var unrestored, remaining := Undo(contents, backups, published, base);
      ghost var undone, undoing := disk, instants;
      var tidy := Tidy(|contents|);
      if AllRecoverable(undoing, base, contents) {
        TidyInstants(undoing, instants, base, contents);
      } else {
        PrefixMixed(undoing, instants, base, contents);
      }
      if unrestored == {} && remaining == {} {
        UndoneIsOld(undone, base, contents);
        SameReportsSameSet(disk, undone, base, contents);
        ending := RolledBack(tidy);
      } else {
        ending := HalfUndone(tidy, unrestored, remaining);
        Unrestored(undone, disk, base, contents, ending);
      }
    }

    /** `_publish_report_pair`. Returning, it has published everything; rolled back, it has restored
        everything. Dying at any instant it leaves a marker or an unmixed set, with one exception: an
        instant of the rollback that follows a failure of the last directory sync. */
    method PublishReports(contents: seq<string>) returns (ending: Ending, late: bool)
      requires |contents| >= 2
      modifies this
      ensures Valid() && instants[0] == old(disk)
      ensures Marker in old(disk) ==> ending.Refused? && disk == old(disk)
      ensures ending.Refused? ==> WhollyOld(disk, old(disk), |contents|)
      ensures ending.Committed? ==> WhollyNew(disk, contents) && Marker !in disk
      ensures ending.RolledBack? ==> WhollyOld(disk, old(disk), |contents|)
      ensures !late ==> AllRecoverable(instants, old(disk), contents)
      ensures late ==>
                (AllRecoverable(instants, old(disk), contents)
                 <==> ending.HalfUndone? && Unmixed(ending.published, old(disk), contents))
      ensures !ending.Refused? && ending.tidy ==> NoTemporaries(disk, |contents|)
      ensures ending.HalfUndone? ==> Lost(disk, old(disk), contents, ending)
      ensures undisturbed ==> ending == if Marker in old(disk) then Refused else Committed(true)
      ensures undoes ==> ending in {Refused, Committed(true), RolledBack(true)}
      ensures undoes && ending.RolledBack? ==> Marker !in disk
    {
      hide Stands, AllRecoverable, Recoverable, WhollyOld, WhollyNew, FirstStaged, Unmixed;
      ghost var base := disk;
      instants := [disk];
      late := false;
      ending := Refused;
      var marked := CreateMarker();
      MarkerOnly(base, disk, instants, contents);
      if !marked {
        return;
      }
      var ok, staged := Stage(contents, base);
      var backups: set<nat> := {};
      var published := 0;
      assert Upto(0) == {};
      if ok {
        ok, backups := BackUp(contents, base);
        if ok {
          ok, published, late := Publish(contents, backups, base);
        }
      }
      if ok {
        AllPublishedIsNew(disk, base, contents, backups, Upto(published));
        ending := Commit(contents, base);
      } else {
        ending := RollBack(contents, base, backups, published);
      }
    }
  }
}
