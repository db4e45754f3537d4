/**
 Creation of a new arena and its recovery, both under the collection lock: a journal authorizes a
 staging directory, which is completed and then promoted by one rename. Every file system call may
 fail, with or without having taken effect, and `trace` records every instant at which the process
 may die.
 */
module Initialization {
  import opened Prelude
  import opened Faults
  import opened ArenaManifests

  /** An arena directory, staged or in place. */
  datatype Directory = Directory(hasBuild: bool, manifest: Option<Manifest>)

  /** Arenas in place, staging directories by arena and initialization id, and initialization journals. */
  datatype Layout = Layout(finals: map<Id, Directory>, staging: map<(Id, Id), Directory>, journals: map<Id, Id>)

  /** The directory is a complete arena created under initialization `i`. */
  predicate Whole(d: Directory, a: Id) {
    d.hasBuild && d.manifest.Some? && d.manifest.value.arenaId == a && d.manifest.value.initializationId.Some?
  }

  /**
   A finished manifest stays as it is; an unfinished one is finished now with its bytes as measured, or else as
   last known, and with the highest size seen so far.
   */
  predicate FinishedFrom(m: Manifest, finished: Manifest, measured: Option<nat>, now: nat) {
    if !m.IsUnfinished() then finished == m
    else
      && finished.lastKnownSize == (if measured.Some? then measured else m.lastKnownSize)
      && finished.lastObservedSize >= m.lastObservedSize
      && (measured.Some? ==> finished.lastObservedSize >= measured.value)
      && (m.lastKnownSize.Some? ==> finished.lastObservedSize >= m.lastKnownSize.value)
      && (|| finished.lastObservedSize == m.lastObservedSize || Some(finished.lastObservedSize) == measured
          || Some(finished.lastObservedSize) == m.lastKnownSize)
      && finished.reservation == 0 && finished.lastFinishedAt == Some(now) && finished.lastUsedAt == now
      && finished.pinned == m.pinned && finished.pinExpiresAt == m.pinExpiresAt
      && finished.lastStartedAt == m.lastStartedAt && finished.retirementId == m.retirementId
  }

  predicate NeverStarted(m: Manifest) {
    m.EffectiveStage().Finalized? && !m.IsUnfinished() && m.lastOutcome == Some(NotStarted)
  }

  /** A staged directory has no manifest, or the manifest of a build that was reserved and never started. */
  predicate StagedOk(d: Directory, a: Id, i: Id) {
    d.manifest.Some? ==>
      && Whole(d, a) && d.manifest.value.initializationId == Some(i)
      && (NeverStarted(d.manifest.value)
          || (d.manifest.value.IsUnfinished() && d.manifest.value.EffectiveStage() == Reserved))
  }

  /**
   The layouts that creation and recovery pass through: staging is always journalled, a journal's
   arena is absent, staged or in place with the journal's id, and arenas in place are whole.
   */
  ghost predicate Sound(l: Layout) {
    && (forall key :: key in l.staging ==>
          && key.1 in l.journals && l.journals[key.1] == key.0 && key.0 !in l.finals
          && StagedOk(l.staging[key], key.0, key.1))
    && (forall i, j :: i in l.journals && j in l.journals && i != j ==> l.journals[i] != l.journals[j])
    && (forall i :: i in l.journals && l.journals[i] in l.finals ==>
          Whole(l.finals[l.journals[i]], l.journals[i])
          && l.finals[l.journals[i]].manifest.value.initializationId == Some(i))
    && (forall a :: a in l.finals ==> Whole(l.finals[a], a))
  }

  lemma StagedIsAbsent(l: Layout, a: Id, i: Id)
    requires Sound(l) && (a, i) in l.staging
    ensures i in l.journals && l.journals[i] == a && a !in l.finals && StagedOk(l.staging[(a, i)], a, i)
  {
  }

  /** Retirement takes a whole arena away. */
  lemma RetirementKeepsSound(l: Layout, a: Id)
    requires Sound(l)
    ensures Sound(l.(finals := l.finals - {a}))
  {
  }

  /** Rewriting the manifest of an arena in place keeps its identity and initialization id. */
  lemma RewriteKeepsSound(l: Layout, a: Id, u: Update)
    requires Sound(l) && a in l.finals && Updated(l.finals[a].manifest.value, u).Some?
    ensures Sound(l.(finals := l.finals[a := l.finals[a].(manifest := Updated(l.finals[a].manifest.value, u))]))
  {
  }

  /** The arena is in place, whole, with that initialization id, and recorded as never started. */
  predicate Promoted(finals: map<Id, Directory>, a: Id, i: Id) {
    && a in finals && Whole(finals[a], a)
    && finals[a].manifest.value.initializationId == Some(i) && NeverStarted(finals[a].manifest.value)
  }

  /** Recovery of `found` has taken away every journal except those in `left`, with its staging directory. */
  ghost predicate JournalsHandled(found: Layout, now: Layout, left: set<Id>) {
    && now.journals.Keys == left <= found.journals.Keys
    && (forall i :: i in left ==> now.journals[i] == found.journals[i])
    && (forall key :: key in now.staging <==> key in found.staging && key.1 in left)
    && (forall key :: key in now.staging ==> now.staging[key] == found.staging[key])
  }

  /** Outside `left` exactly the staged arenas were promoted, and no arena in place was touched. */
  ghost predicate InPlace(found: Layout, finals: map<Id, Directory>, left: set<Id>) {
    && (forall a :: a in found.finals ==> a in finals && finals[a] == found.finals[a])
    && (forall a :: a in finals && a !in found.finals ==>
          exists i :: i !in left && WasStaged(found, a, i) && Promoted(finals, a, i))
    && (forall a, i :: i !in left && WasStaged(found, a, i) ==> Promoted(finals, a, i))
  }

  ghost predicate Progress(found: Layout, now: Layout, left: set<Id>) {
    Sound(found) && JournalsHandled(found, now, left) && InPlace(found, now.finals, left)
  }

  /** Initialization `i` of arena `a` had reached a staged manifest. */
  ghost predicate WasStaged(l: Layout, a: Id, i: Id) {
    (a, i) in l.staging && l.staging[(a, i)].manifest.Some?
  }

  /** What recovery of journal `i` does to the arenas in place. */
  ghost predicate Handled(at: Layout, finals: map<Id, Directory>, a: Id, i: Id) {
    if WasStaged(at, a, i) then a !in at.finals && Promoted(finals, a, i) && finals == at.finals[a := finals[a]]
    else finals == at.finals
  }

  lemma PromotedStays(at: Layout, finals: map<Id, Directory>, a: Id, i: Id)
    requires Handled(at, finals, a, i)
    ensures forall b, j :: Promoted(at.finals, b, j) ==> Promoted(finals, b, j)
    ensures finals.Keys == if WasStaged(at, a, i) then at.finals.Keys + {a} else at.finals.Keys
    ensures WasStaged(at, a, i) ==> Promoted(finals, a, i)
    ensures forall b :: b in at.finals ==> finals[b] == at.finals[b]
  {
  }

  lemma InPlaceMore(found: Layout, at: Layout, finals: map<Id, Directory>, left: set<Id>, a: Id, i: Id)
    requires InPlace(found, at.finals, left) && i in left
    requires WasStaged(at, a, i) == WasStaged(found, a, i)
    requires forall b :: WasStaged(found, b, i) ==> b == a
    requires Handled(at, finals, a, i)
    ensures InPlace(found, finals, left - {i})
  {
    PromotedStays(at, finals, a, i);
    hide Handled, Promoted, WasStaged;
    forall b | b in finals && b !in found.finals
      ensures exists j :: j !in left - {i} && WasStaged(found, b, j) && Promoted(finals, b, j)
    {
      if b in at.finals {
        var j :| j !in left && WasStaged(found, b, j) && Promoted(at.finals, b, j);
        assert Promoted(finals, b, j);
      } else {
        assert WasStaged(found, b, i) && Promoted(finals, b, i);
      }
    }
    forall b, j | j !in left - {i} && WasStaged(found, b, j)
      ensures Promoted(finals, b, j)
    {
      if j != i {
        assert Promoted(at.finals, b, j);
      }
    }
  }

  lemma ProgressMore(found: Layout, at: Layout, after: Layout, left: set<Id>, i: Id)
    requires Progress(found, at, left) && i in left
    requires var a := found.journals[i];
      && after.staging == at.staging - {(a, i)} && after.journals == at.journals - {i}
      && Handled(at, after.finals, a, i)
    ensures Progress(found, after, left - {i})
  {
    var a := found.journals[i];
    assert forall key :: key in found.staging ==> found.journals[key.1] == key.0;
    hide Sound, Handled, InPlace, Promoted;
    InPlaceMore(found, at, after.finals, left, a, i);
  }

  class ArenaStore {
    var finals: map<Id, Directory>
    var staging: map<(Id, Id), Directory>
    var journals: map<Id, Id>
    var nextId: Id
    const faulty: bool
    ghost var trace: seq<Layout>

    function Now(): Layout
      reads this
    {
      Layout(finals, staging, journals)
    }

    /** Every instant so far, and now, is sound; ids are still unused from `nextId` on. */
    ghost predicate Valid()
      reads this
    {
      && Sound(Now())
      && (forall k :: 0 <= k < |trace| ==> Sound(trace[k]))
      && (forall i :: i in journals ==> i < nextId)
    }

    constructor (l: Layout, nextId: Id, faulty: bool)
      requires Sound(l) && forall i :: i in l.journals ==> i < nextId
      ensures Valid() && Now() == l && this.faulty == faulty && trace == [l]
    {
      finals, staging, journals, this.nextId, this.faulty := l.finals, l.staging, l.journals, nextId, faulty;
      trace := [l];
    }

    ghost predicate Extended(before: seq<Layout>)
      reads this
    {
      before <= trace
    }

    // ----- file system calls; `ok` is what the caller learns, `done` what happened -----

    method CreateJournal(a: Id) returns (ok: bool, i: Id)
      requires Valid() && a !in finals && forall j :: j in journals ==> journals[j] != a
      modifies this`journals, this`nextId, this`trace
      ensures Valid() && Extended(old(trace)) && i == old(nextId)
      ensures journals == old(journals)[i := a] || (!ok && journals == old(journals))
      ensures ok ==> journals == old(journals)[i := a]
      ensures !ok ==> faulty
    {
      i := nextId;
      nextId := nextId + 1;
      var done;
      done, ok := Attempt(faulty);
      if done {
        journals := journals[i := a];
        trace := trace + [Now()];
      }
    }

    method PutStaging(a: Id, i: Id, d: Directory) returns (ok: bool)
      requires Valid() && i in journals && journals[i] == a && a !in finals && StagedOk(d, a, i)
      modifies this`staging, this`trace
      ensures Valid() && Extended(old(trace))
      ensures staging == old(staging)[(a, i) := d] || (!ok && staging == old(staging))
      ensures ok ==> staging == old(staging)[(a, i) := d]
      ensures !ok ==> faulty
    {
      var done;
      done, ok := Attempt(faulty);
      if done {
        staging := staging[(a, i) := d];
        trace := trace + [Now()];
      }
    }

    method Promote(a: Id, i: Id) returns (ok: bool)
      requires Valid() && (a, i) in staging && staging[(a, i)].manifest.Some?
      modifies this`finals, this`staging, this`trace
      ensures Valid() && Extended(old(trace))
      ensures ok ==> finals == old(finals)[a := old(staging)[(a, i)]] && staging == old(staging) - {(a, i)}
      ensures !ok ==> faulty && finals == old(finals) && staging == old(staging)
    {
      if faulty {
        if * {
          return false;
        }
      }
      finals, staging := finals[a := staging[(a, i)]], staging - {(a, i)};
      trace := trace + [Now()];
      ok := true;
    }

    /** The rest of the deletion: the directory itself. */
    method RemoveStagingRoot(a: Id, i: Id) returns (ok: bool)
      requires Valid() && (a, i) in staging && staging[(a, i)].manifest.None?
      modifies this`staging, this`trace
      ensures Valid() && Extended(old(trace))
      ensures staging == old(staging) - {(a, i)} || (!ok && staging == old(staging))
      ensures ok ==> staging == old(staging) - {(a, i)}
      ensures !ok ==> faulty
    {
      var done;
      done, ok := Attempt(faulty);
      if done {
        staging := staging - {(a, i)};
        trace := trace + [Now()];
      }
    }

    /** Delete a staging directory that never got a manifest: its build directory, then itself. */
    method RemoveStaging(a: Id, i: Id) returns (ok: bool)
      requires Valid() && (a, i) in staging && staging[(a, i)].manifest.None?
      modifies this`staging, this`trace
      ensures Valid() && Extended(old(trace))
      ensures ok ==> staging == old(staging) - {(a, i)}
      ensures !ok ==> faulty
      ensures staging - {(a, i)} == old(staging) - {(a, i)}
    {
      hide Sound;
      if staging[(a, i)].hasBuild {
        StagedIsAbsent(Now(), a, i);
        ok := PutStaging(a, i, Directory(false, None));
        if !ok {
          return;
        }
      }
      ok := RemoveStagingRoot(a, i);
    }

    method RemoveJournal(i: Id) returns (ok: bool)
      requires Valid() && i in journals && (journals[i], i) !in staging
      modifies this`journals, this`trace
      ensures Valid() && Extended(old(trace))
      ensures journals == old(journals) - {i} || (!ok && journals == old(journals))
      ensures ok ==> journals == old(journals) - {i}
      ensures !ok ==> faulty
    {
      var done;
      done, ok := Attempt(faulty);
      if done {
        journals := journals - {i};
        trace := trace + [Now()];
      }
    }

    // ----- creation -----

    /** The first half of `lease_new`: a journal, then a staging directory with its build directory. */
    method StageArena(a: Id) returns (ok: bool, i: Id)
      requires Valid() && a !in finals && journals == map[] && staging == map[]
      modifies this`journals, this`staging, this`nextId, this`trace
      ensures Valid() && Extended(old(trace))
      ensures ok ==> journals == map[i := a] && staging == map[(a, i) := Directory(true, None)]
      ensures !ok ==> faulty
    {
      ok, i := CreateJournal(a);
      if !ok {
        return;
      }
      ok := PutStaging(a, i, Directory(false, None));
      if !ok {
        return;
      }
      ok := PutStaging(a, i, Directory(true, None));
    }

    /** The last steps of `lease_new`: one rename, a directory sync, and the journal goes. */
    method PromoteLease(a: Id, i: Id, now: nat) returns (ok: bool)
      requires Valid() && a !in finals && journals == map[i := a] && staging.Keys == {(a, i)} && staging[(a, i)].manifest.Some?
      modifies this`finals, this`staging, this`journals, this`trace
      ensures Valid() && Extended(old(trace))
      ensures ok ==> staging == map[] && journals == map[] && finals == old(finals)[a := old(staging)[(a, i)]]
      ensures !ok ==> faulty && finals - {a} == old(finals)
    {
      hide Sound;
      ok := Promote(a, i);
      if !ok {
        DropReserved(a, i, now);
        return;
      }
      ok := Sync();
      if ok {
        ok := RemoveJournal(i);
      }
      if !ok {
        DropPromoted(a, now);
      }
    }

    /** `lease_new`: complete the staged arena and promote it. */
    method LeaseNew(a: Id, reservation: nat, size: nat, now: nat) returns (ok: bool, i: Id)
      requires Valid() && a !in finals && journals == map[] && staging == map[]
      modifies this
      ensures Valid() && Extended(old(trace))
      ensures ok ==>
        && staging == map[] && journals == map[]
        && a in finals && finals == old(finals)[a := finals[a]] && Whole(finals[a], a)
        && finals[a].manifest.value.initializationId == Some(i)
        && finals[a].manifest.value.IsUnfinished() && finals[a].manifest.value.reservation == reservation
        && finals[a].manifest.value.lastKnownSize == Some(size) && finals[a].manifest.value.lastStartedAt == Some(now)
        && finals[a].manifest.value.EffectiveStage() == Reserved && finals[a].manifest.value.retirementId.None?
        && !finals[a].manifest.value.pinned && finals[a].manifest.value.revision > 0
      ensures !ok ==> faulty && finals - {a} == old(finals)
    {
      ok, i := StageArena(a);
      if !ok {
        return;
      }
      var manifest := new ArenaManifest.Load(Created(a, Some(i), now));
      manifest.Begin(reservation, now);
      manifest.ObserveSize(size);
      ghost var m := manifest.Value();
      assert m.arenaId == a && m.initializationId == Some(i) && m.reservation == reservation && m.IsUnfinished();
      assert m.lastKnownSize == Some(size) && m.lastStartedAt == Some(now) && m.retirementId.None? && !m.pinned;
      assert m.EffectiveStage() == Reserved && m.revision > 0;
      assert StagedOk(Directory(true, Some(m)), a, i);
      hide Sound, Created, Begun, Observed, Touched, ArenaManifest.Value;
      ok := PutStaging(a, i, Directory(true, Some(manifest.Value())));
      if !ok {
        DropReserved(a, i, now);
        return;
      }
      ok := PromoteLease(a, i, now);
    }

    /** A directory sync changes nothing that another process can see. */
    method Sync() returns (ok: bool)
      ensures !ok ==> faulty
    {
      var done;
      done, ok := Attempt(faulty);
    }

    /** The lease is dropped after promotion: the manifest in place is finished as never started, if that works. */
    method DropPromoted(a: Id, now: nat)
      requires Valid() && a in finals
      modifies this`finals, this`trace
      ensures Valid() && Extended(old(trace)) && a in finals && finals - {a} == old(finals) - {a}
      ensures var m := old(finals)[a].manifest.value;
        var dropped := Updated(m, Finish(NotStarted, 0, m.lastKnownSize, now));
        && (finals[a] == old(finals)[a] || (dropped.Some? && finals[a] == old(finals)[a].(manifest := dropped)))
        && (!faulty && dropped.Some? ==> finals[a].manifest == dropped && NeverStarted(dropped.value))
    {
      var manifest := new ArenaManifest.Load(finals[a].manifest.value);
      var finished := manifest.Finish(NotStarted, 0, manifest.lastKnownSize, now);
      if finished {
        RewriteKeepsSound(Now(), a, Finish(NotStarted, 0, finals[a].manifest.value.lastKnownSize, now));
        var done, ok := Attempt(faulty);
        if done {
          finals := finals[a := finals[a].(manifest := Some(manifest.Value()))];
          trace := trace + [Now()];
        }
      }
    }

    /** The lease is dropped while still reserved: its manifest is finished as never started, if that works. */
    method DropReserved(a: Id, i: Id, now: nat)
      requires Valid() && i in journals && journals[i] == a && a !in finals
      modifies this`staging, this`trace
      ensures Valid() && Extended(old(trace)) && staging - {(a, i)} == old(staging) - {(a, i)}
      ensures (a, i) in staging <==> (a, i) in old(staging)
      ensures (a, i) in old(staging) && old(staging)[(a, i)].manifest.Some? && !faulty
              && old(staging)[(a, i)].manifest.value.IsUnfinished() ==>
        staging[(a, i)].manifest.Some? && NeverStarted(staging[(a, i)].manifest.value)
      ensures (a, i) in old(staging) && old(staging)[(a, i)].manifest.None? ==> staging == old(staging)
      ensures (a, i) in old(staging) && old(staging)[(a, i)].manifest.Some? ==>
        var m := old(staging)[(a, i)].manifest.value;
        var dropped := Updated(m, Finish(NotStarted, 0, m.lastKnownSize, now));
        staging == old(staging) || (dropped.Some? && staging == old(staging)[(a, i) := Directory(true, dropped)])
    {
      if (a, i) in staging && staging[(a, i)].manifest.Some? {
        StagedIsAbsent(Now(), a, i);
        var manifest := new ArenaManifest.Load(staging[(a, i)].manifest.value);
        var finished := manifest.Finish(NotStarted, 0, manifest.lastKnownSize, now);
        if finished {
          var ignored := PutStaging(a, i, Directory(true, Some(manifest.Value())));
        }
      }
    }

    // ----- recovery -----

    /** The manifest of an interrupted creation is finished: its build never started. */
    method FinishStaged(a: Id, i: Id, measured: Option<nat>, now: nat) returns (ok: bool)
      requires Valid() && (a, i) in staging && staging[(a, i)].manifest.Some?
      modifies this`staging, this`trace
      ensures Valid() && Extended(old(trace)) && staging.Keys == old(staging).Keys
      ensures ok ==> (a, i) in staging && staging == old(staging)[(a, i) := staging[(a, i)]]
      ensures ok ==> staging[(a, i)].manifest.Some? && NeverStarted(staging[(a, i)].manifest.value)
      ensures ok ==> FinishedFrom(old(staging)[(a, i)].manifest.value, staging[(a, i)].manifest.value, measured, now)
      ensures !ok ==> faulty
    {
      StagedIsAbsent(Now(), a, i);
      ok := true;
      var manifest := new ArenaManifest.Load(staging[(a, i)].manifest.value);
      if manifest.Value().IsUnfinished() {
        var lastKnown := manifest.lastKnownSize.GetOr(0);
        var highWater := Max(Max(measured.GetOr(lastKnown), lastKnown), manifest.lastObservedSize);
        var outcome := manifest.Value().RecoveryOutcome();
        ok := manifest.Finish(outcome, highWater, measured, now);
        if ok {
          ok := PutStaging(a, i, Directory(true, Some(manifest.Value())));
        }
      }
    }

    /** `reconcile_staged`: an unfinished manifest is finished as never started before promotion. */
    method ReconcileStaged(a: Id, i: Id, measured: Option<nat>, now: nat) returns (ok: bool)
      requires Valid() && i in journals && journals[i] == a && (a, i) in staging
      modifies this`finals, this`staging, this`journals, this`trace
      ensures Valid() && Extended(old(trace))
      ensures ok ==> staging == old(staging) - {(a, i)} && journals == old(journals) - {i}
      ensures ok && old(staging)[(a, i)].manifest.None? ==> finals == old(finals)
      ensures ok && old(staging)[(a, i)].manifest.Some? ==>
        && a !in old(finals) && Promoted(finals, a, i) && finals == old(finals)[a := finals[a]]
        && FinishedFrom(old(staging)[(a, i)].manifest.value, finals[a].manifest.value, measured, now)
      ensures !ok ==> faulty
    {
      hide Sound, NeverStarted, FinishedFrom;
      StagedIsAbsent(Now(), a, i);
      if staging[(a, i)].manifest.None? {
        ok := RemoveStaging(a, i);
      } else {
        ok := FinishStaged(a, i, measured, now);
        if ok {
          StagedIsAbsent(Now(), a, i);
          ok := Promote(a, i);
        }
        if ok {
          ok := Sync();
        }
      }
      if ok {
        ok := RemoveJournal(i);
      }
    }

    /** `reconcile_record`. */
    method ReconcileRecord(i: Id, measured: Option<nat>, now: nat) returns (ok: bool)
      requires Valid() && i in journals
      modifies this`finals, this`staging, this`journals, this`trace
      ensures Valid() && Extended(old(trace))
      ensures ok ==> staging == old(staging) - {(old(journals)[i], i)} && journals == old(journals) - {i}
      ensures ok ==> var a := old(journals)[i];
        if (a, i) in old(staging) && old(staging)[(a, i)].manifest.Some?
        then a !in old(finals) && Promoted(finals, a, i) && finals == old(finals)[a := finals[a]]
             && FinishedFrom(old(staging)[(a, i)].manifest.value, finals[a].manifest.value, measured, now)
        else finals == old(finals)
      ensures !ok ==> faulty
    {
      var a := journals[i];
      if (a, i) !in staging && a !in finals {
        ok := RemoveJournal(i);
      } else if (a, i) in staging && a !in finals {
        ok := ReconcileStaged(a, i, measured, now);
      } else if (a, i) !in staging {
        ok := ValidateFinal(a, i);
        if ok {
          ok := RemoveJournal(i);
        }
      } else {
        // Both directories exist: unreachable, because promotion is one rename.
        assert false;
      }
    }

    /** `validate_final`. */
    method ValidateFinal(a: Id, i: Id) returns (ok: bool)
      requires Valid() && a in finals && i in journals && journals[i] == a
      ensures ok
    {
      ok := finals[a].manifest.Some? && finals[a].manifest.value.arenaId == a
        && finals[a].manifest.value.initializationId == Some(i);
    }

    /** `reconcile_initializations_locked`; the order of the journals does not matter. */
    method ReconcileInitializations(now: nat) returns (ok: bool)
      requires Valid()
      modifies this`finals, this`staging, this`journals, this`trace
      ensures Valid() && Extended(old(trace))
      ensures !ok ==> faulty
      ensures ok ==> journals == map[] && staging == map[]
      ensures ok ==> forall a :: a in old(finals) ==> a in finals && finals[a] == old(finals)[a]
      ensures ok ==> forall a :: a in finals && a !in old(finals) ==>
        exists i :: WasStaged(old(Now()), a, i) && Promoted(finals, a, i)
      ensures ok ==> forall a, i :: WasStaged(old(Now()), a, i) ==> Promoted(finals, a, i)
    {
      ghost var found := Now();
      var left := journals.Keys;
      var expected: set<(Id, Id)> := {};
      while left != {}
        invariant Valid() && Extended(old(trace)) && Progress(found, Now(), left)
        invariant forall key :: key in found.staging && key.1 !in left ==> key in expected
        decreases left
      {
        var i :| i in left;
        expected := expected + {(journals[i], i)};
        ghost var at := Now();
        var measured: Option<nat> := *;
        ok := ReconcileRecord(i, measured, now);
        if !ok {
          return;
        }
        ProgressMore(found, at, Now(), left, i);
        left := left - {i};
      }
      ok := staging.Keys <= expected;
    }

    /** `lease_reserved_locked`: recovery first, then a lease on the existing or a new arena. */
    method LeaseReservedLocked(a: Id, reservation: nat, size: nat, now: nat) returns (ok: bool)
      requires Valid()
      modifies this
      ensures Valid() && Extended(old(trace))
      ensures ok ==>
        && a in finals && finals[a].manifest.value.IsUnfinished() && finals[a].manifest.value.reservation == reservation
        && finals[a].manifest.value.lastKnownSize == Some(size) && finals[a].manifest.value.lastStartedAt == Some(now)
        && finals[a].manifest.value.EffectiveStage() == Reserved && finals[a].manifest.value.retirementId.None?
      ensures ok ==> forall b :: b in old(finals) && b != a ==> b in finals && finals[b] == old(finals)[b]
      ensures ok && a in old(finals) ==>
        finals[a].manifest == Updated(old(finals)[a].manifest.value, Begin(reservation, size, now))
      ensures ok ==> journals == map[] && staging == map[]
      ensures !ok ==> faulty || (a in old(finals) && old(finals)[a].manifest.value.IsUnfinished())
    {
      ok := ReconcileInitializations(now);
      if !ok {
        return;
      }
      if a in finals {
        ok := LeaseExisting(a, reservation, size, now);
      } else {
        var i;
        ok, i := LeaseNew(a, reservation, size, now);
      }
    }

    /** `lease_existing`: an unfinished arena is refused. */
    method LeaseExisting(a: Id, reservation: nat, size: nat, now: nat) returns (ok: bool)
      requires Valid() && a in finals
      modifies this`finals, this`trace
      ensures Valid() && Extended(old(trace))
      ensures old(finals)[a].manifest.value.IsUnfinished() ==> !ok && finals == old(finals)
      ensures ok ==> a in finals && finals == old(finals)[a := finals[a]]
      ensures ok ==> finals[a].manifest == Updated(old(finals)[a].manifest.value, Begin(reservation, size, now))
      ensures !ok ==> faulty || old(finals)[a].manifest.value.IsUnfinished()
    {
      var manifest := new ArenaManifest.Load(finals[a].manifest.value);
      if manifest.Value().IsUnfinished() {
        return false;
      }
      manifest.Begin(reservation, now);
      manifest.ObserveSize(size);
      RewriteKeepsSound(Now(), a, Begin(reservation, size, now));
      var done;
      done, ok := Attempt(faulty);
      if done {
        finals := finals[a := finals[a].(manifest := Some(manifest.Value()))];
        trace := trace + [Now()];
      }
    }
  }

  function Max(x: nat, y: nat): nat {
    if x > y then x else y
  }
}
