/**
 What a process can do that is left to itself, from any state that a run reaches: pin and unpin, retire an
 unpinned arena, repair an intent, and reconcile every journal, with the outcome that the case analysis of
 `Reconcile` gives.
 */
module ArenaProtocolAlone {
  import opened Prelude
  import opened Runs
  import opened ArenaManifests
  import opened ArenaProtocol
  import R = Reconcile

  /** Some run ends in the state. */
  ghost predicate Reachable(s: State) {
    Reaches(START, Next, s)
  }

  // ----- one process at a time -----

  /** The process is alone, idle and without a lease. */
  predicate IdleAlone(s: State, p: Pid) {
    s.procs == map[p := Proc(NoLease, Idle)]
  }

  predicate LocksFree(w: World) {
    w.collection.None? && w.arena.None? && w.metadata.None?
  }

  /** A step of the only process. */
  lemma Alone(s: State, p: Pid, proc: Proc, a: Action) returns (t: State)
    requires Reachable(s) && s.procs == map[p := proc] && Effect(s.world, p, proc, a).Some?
    ensures Reachable(t)
    ensures t.world == Effect(s.world, p, proc, a).value.0 && t.procs == map[p := Effect(s.world, p, proc, a).value.1]
  {
    hide Reaches, Effect;
    t := Go(START, Next, s, Acts(p, a));
    assert map[p := proc][p := Effect(s.world, p, proc, a).value.1] == map[p := Effect(s.world, p, proc, a).value.1];
  }

  lemma AProcessCanJoin(s: State, p: Pid) returns (t: State)
    requires Reachable(s) && s.procs == map[]
    ensures Reachable(t) && IdleAlone(t, p) && t.world == s.world
  {
    hide Reaches, Effect;
    t := Go(START, Next, s, Joins(p));
  }

  lemma TheProcessCanDie(s: State, p: Pid) returns (t: State)
    requires Reachable(s) && s.procs.Keys == {p}
    ensures Reachable(t) && t.procs == map[] && t.world == AfterDeath(s.world, p)
  {
    hide Reaches, Effect;
    t := Go(START, Next, s, Dies(p));
    assert s.procs - {p} == map[];
  }

  /** The only process takes the collection lock for some goal. */
  lemma CollectionCanBeTaken(s: State, p: Pid, goal: Goal, t': Task) returns (t: State)
    requires Reachable(s) && IdleAlone(s, p) && s.world.collection.None?
    requires t' == match goal case Admit => AdmitTry case Collect => Sweep(None) case RecoverSuspect(_, _) => RecoverTry(goal)
    ensures Reachable(t) && t.procs == map[p := Proc(NoLease, t')] && t.world == s.world.(collection := Some(p))
  {
    hide Reaches, Next;
    t := Alone(s, p, Proc(NoLease, Idle), Request(goal));
    t := Alone(t, p, Proc(NoLease, WantCollection(goal)), TakeCollection);
  }


  // ----- pins -----

  /** Any pin and any unpin can be stored, with exactly what was asked for. */
  lemma AnyPinCanBeStored(s: State, p: Pid, pin: bool, expiresAt: Option<nat>) returns (t: State)
    requires Reachable(s) && IdleAlone(s, p) && s.world.metadata.None?
    requires s.world.original.Some? && s.world.original.value.revision < U64_MAX
    ensures Reachable(t) && IdleAlone(t, p) && t.world == s.world.(original := t.world.original)
    ensures t.world.original.Some?
    ensures t.world.original.value.pinned == pin && t.world.original.value.pinExpiresAt == if pin then expiresAt else None
  {
    hide Reaches, Next;
    var u, m := SetPin(pin, expiresAt), s.world.original.value;
    t := Alone(s, p, Proc(NoLease, Idle), StartRewrite(u));
    t := Alone(t, p, Proc(NoLease, Rewrite(u, ToIdle)), LoadManifest);
    t := Alone(t, p, Proc(NoLease, Loaded(u, ToIdle, m)), StoreManifest(Applied));
  }

  // ----- under the collection lock -----

  /** The only process holds the collection lock and nothing else, and has nothing planned. */
  predicate SweepsAlone(s: State, p: Pid) {
    && s.procs == map[p := Proc(NoLease, Sweep(None))]
    && s.world.collection == Some(p) && s.world.arena.None? && s.world.metadata.None?
  }

  /** The arena, its retired trees and its journals, as a reconciliation pass sees them. */
  function StoreOf(w: World): R.Store {
    R.Store(
      if w.original.Some? then map[0 := w.original.value] else map[],
      map n | n in w.trash :: w.trash[n].pieces,
      map n | n in w.journals :: R.Record(0, w.journals[n]))
  }

  /** Nothing else of the world has changed. */
  predicate SameBeside(w: World, v: World) {
    v.now == w.now && v.used == w.used && v.alive == w.alive
  }

  /** A retired tree is deleted, piece by piece, and its journal after it. */
  lemma {:induction false} ATreeCanBeDeleted(s: State, p: Pid, n: Id, hold: Hold) returns (t: State)
    requires Reachable(s) && s.procs == map[p := Proc(NoLease, Deleting(n, hold))] && n in s.world.trash
    requires s.world.collection == Some(p)
    requires ReleaseHold(s.world, hold).arena.None? && ReleaseHold(s.world, hold).metadata.None?
    ensures Reachable(t) && SweepsAlone(t, p) && SameBeside(s.world, t.world)
    ensures t.world.original == s.world.original
    ensures t.world.trash == s.world.trash - {n} && t.world.journals == s.world.journals - {n}
    decreases s.world.trash[n].pieces
  {
    hide Reaches, Next;
    if s.world.trash[n].pieces > 0 {
      t := Alone(s, p, Proc(NoLease, Deleting(n, hold)), DeletePiece);
      t := ATreeCanBeDeleted(t, p, n, hold);
    } else {
      t := Alone(s, p, Proc(NoLease, Deleting(n, hold)), DeleteRoot);
      t := Alone(t, p, Proc(NoLease, DropJournal(n, hold)), RemoveJournal(true));
    }
  }

  lemma StoreByFields(w: World)
    ensures var s := StoreOf(w);
      && (w.original.Some? <==> s.arenas != map[]) && (w.original.Some? ==> s.arenas == map[0 := w.original.value])
      && s.trash.Keys == w.trash.Keys && s.journals.Keys == w.journals.Keys
      && (forall n :: n in w.trash ==> s.trash[n] == w.trash[n].pieces)
      && (forall n :: n in w.journals ==> s.journals[n] == R.Record(0, w.journals[n]))
  {
    assert w.original.Some? ==> 0 in StoreOf(w).arenas;
  }

  lemma AJournalCanBeInspected(s: State, p: Pid, n: Id) returns (t: State)
    requires Reachable(s) && SweepsAlone(s, p) && n in s.world.journals
    ensures Reachable(t) && t.world == s.world
    ensures t.procs == map[p := Proc(NoLease, ReconBoth(n, s.world.journals[n], s.world.original.Some?, n in s.world.trash))]
  {
    hide Reaches, Next;
    t := Alone(s, p, Proc(NoLease, Sweep(None)), LookOriginal(n));
    t := Alone(t, p, Proc(NoLease, ReconOriginal(n, s.world.journals[n], s.world.original.Some?)), LookTrash);
  }

  /** The world after the journal and the tree are gone, and the arena too if `resumed`. */
  function Settled(w: World, n: Id, resumed: bool): World {
    w.(original := if resumed then None else w.original, trash := w.trash - {n}, journals := w.journals - {n})
  }

  lemma AnArenaCanBeFoundInPlace(s: State, p: Pid, n: Id) returns (t: State)
    requires Reachable(s) && SweepsAlone(s, p) && n in s.world.journals && n !in s.world.trash && s.world.original.Some?
    ensures Reachable(t) && t.procs == map[p := Proc(NoLease, ResumeLocked(n, s.world.journals[n]))]
    ensures t.world == s.world.(arena := Some(p))
  {
    hide Reaches, Next;
    var revision := s.world.journals[n];
    t := AJournalCanBeInspected(s, p, n);
    t := Alone(t, p, Proc(NoLease, ReconBoth(n, revision, true, false)), Reconcile);
    t := Alone(t, p, Proc(NoLease, ResumeTry(n, revision)), TryResume);
  }

  lemma AMatchingArenaCanBeMoved(s: State, p: Pid, n: Id) returns (t: State)
    requires Reachable(s) && s.world.metadata.None? && s.world.original.Some? && n in s.world.journals
    requires s.procs == map[p := Proc(NoLease, ResumeLocked(n, s.world.journals[n]))]
    requires Matches(s.world.original.value, n, s.world.journals[n])
    ensures Reachable(t) && t.procs == map[p := Proc(NoLease, Deleting(n, HoldBoth))]
    ensures n in t.world.trash
    ensures t.world == s.world.(metadata := Some(p), original := None, trash := s.world.trash[n := t.world.trash[n]])
  {
    hide Reaches, Next;
    t := Alone(s, p, Proc(NoLease, ResumeLocked(n, s.world.journals[n])), CheckResume);
    t := Alone(t, p, Proc(NoLease, RetireRename(n, false)), MoveToTrash(true, 3));
  }

  /** An arena in place without a tree in trash: its retirement goes on exactly when it matches the journal. */
  lemma ARetirementCanBeResumed(s: State, p: Pid, n: Id) returns (t: State)
    requires Reachable(s) && SweepsAlone(s, p) && n in s.world.journals && n !in s.world.trash && s.world.original.Some?
    ensures Reachable(t) && SweepsAlone(t, p) && SameBeside(s.world, t.world)
    ensures t.world == if Matches(s.world.original.value, n, s.world.journals[n]) then Settled(s.world, n, true) else s.world
  {
    hide Reaches, Next, Matches;
    t := AnArenaCanBeFoundInPlace(s, p, n);
    if Matches(s.world.original.value, n, s.world.journals[n]) {
      t := AMatchingArenaCanBeMoved(t, p, n);
      hide Effect;
      t := ATreeCanBeDeleted(t, p, n, HoldBoth);
      assert t.world.trash == s.world.trash;
    } else {
      t := Alone(t, p, Proc(NoLease, ResumeLocked(n, s.world.journals[n])), Skip);
    }
  }

  /** A tree in trash is deleted, with its journal, unless the arena still matches the journal. */
  lemma ADeletionCanBeResumed(s: State, p: Pid, n: Id) returns (t: State)
    requires Reachable(s) && SweepsAlone(s, p) && n in s.world.journals && n in s.world.trash
    ensures Reachable(t) && SweepsAlone(t, p) && SameBeside(s.world, t.world)
    ensures t.world == if s.world.original.Some? && Matches(s.world.original.value, n, s.world.journals[n])
                       then s.world else Settled(s.world, n, false)
  {
    hide Reaches, Next;
    t := AJournalCanBeInspected(s, p, n);
    t := Alone(t, p, Proc(NoLease, ReconBoth(n, s.world.journals[n], s.world.original.Some?, true)), Reconcile);
    if !(s.world.original.Some? && Matches(s.world.original.value, n, s.world.journals[n])) {
      t := Alone(t, p, Proc(NoLease, DeleteTry(n)), TryDelete);
      t := ATreeCanBeDeleted(t, p, n, HoldArena);
    }
  }

  lemma AJournalCanBeDropped(s: State, p: Pid, n: Id) returns (t: State)
    requires Reachable(s) && SweepsAlone(s, p) && n in s.world.journals && n !in s.world.trash && s.world.original.None?
    ensures Reachable(t) && SweepsAlone(t, p) && SameBeside(s.world, t.world)
    ensures t.world == Settled(s.world, n, false)
  {
    hide Reaches, Next;
    t := AJournalCanBeInspected(s, p, n);
    t := Alone(t, p, Proc(NoLease, ReconBoth(n, s.world.journals[n], false, false)), Reconcile);
    t := Alone(t, p, Proc(NoLease, DropJournal(n, HoldNothing)), RemoveJournal(true));
    assert t.world.trash == s.world.trash == s.world.trash - {n};
  }

  /** What the case analysis of a pass makes of one journal, in terms of the world. */
  lemma RecordInTheWorld(w: World, n: Id)
    requires n in w.journals
    ensures var match' := w.original.Some? && Matches(w.original.value, n, w.journals[n]);
      R.ReconcileRecord(StoreOf(w), {}, n).0
      == StoreOf(if match' && n !in w.trash then Settled(w, n, true)
                 else if match' || (w.original.Some? && n !in w.trash) then w
                 else Settled(w, n, false))
  {
    StoreByFields(w);
    StoreByFields(Settled(w, n, true));
    StoreByFields(Settled(w, n, false));
    hide Matches;
    assert w.original.Some? <==> 0 in StoreOf(w).arenas;
    assert StoreOf(Settled(w, n, false)).journals == StoreOf(w).journals - {n};
    assert StoreOf(Settled(w, n, false)).trash == StoreOf(w).trash - {n};
    assert StoreOf(Settled(w, n, true)).journals == StoreOf(w).journals - {n};
    assert StoreOf(Settled(w, n, true)).trash == StoreOf(w).trash - {n};
    assert n !in w.trash ==> StoreOf(w).trash - {n} == StoreOf(w).trash;
    assert map[0 := 1] - {0} == map[];
    hide StoreOf;
  }

  /** The journal can be handled with the outcome of the case analysis. */
  lemma AJournalCanBeReconciled(s: State, p: Pid, n: Id) returns (t: State)
    requires Reachable(s) && SweepsAlone(s, p) && n in s.world.journals
    ensures Reachable(t) && SweepsAlone(t, p) && SameBeside(s.world, t.world)
    ensures StoreOf(t.world) == R.ReconcileRecord(StoreOf(s.world), {}, n).0
  {
    hide Reaches, Next, StoreOf, Settled, Matches;
    RecordInTheWorld(s.world, n);
    hide R.ReconcileRecord;
    if n in s.world.trash {
      t := ADeletionCanBeResumed(s, p, n);
    } else if s.world.original.Some? {
      t := ARetirementCanBeResumed(s, p, n);
    } else {
      t := AJournalCanBeDropped(s, p, n);
    }
  }

  /** All journals, in the order given. */
  lemma {:induction false} AllJournalsCanBeReconciled(s: State, p: Pid, order: seq<Id>) returns (t: State)
    requires Reachable(s) && SweepsAlone(s, p)
    requires forall i :: 0 <= i < |order| ==> order[i] in s.world.journals
    requires forall i, j :: 0 <= i < j < |order| ==> order[i] != order[j]
    ensures Reachable(t) && SweepsAlone(t, p) && SameBeside(s.world, t.world)
    ensures StoreOf(t.world) == R.ReconcileRecords(StoreOf(s.world), {}, order)
    decreases |order|
  {
    hide Reaches, Next, R.ReconcileRecord;
    if order == [] {
      t := s;
    } else {
      t := AJournalCanBeReconciled(s, p, order[0]);
      StoreByFields(t.world);
      t := AllJournalsCanBeReconciled(t, p, order[1..]);
    }
  }

  /** An intent without a journal can be cleared. */
  lemma AnIntentCanBeRepaired(s: State, p: Pid) returns (t: State)
    requires Reachable(s) && SweepsAlone(s, p)
    requires s.world.original.Some? && s.world.original.value.revision < U64_MAX
    requires s.world.original.value.retirementId.Some? && s.world.original.value.retirementId.value !in s.world.journals
    ensures Reachable(t) && SweepsAlone(t, p) && t.world == s.world.(original := t.world.original)
    ensures t.world.original == Cleared(s.world.original.value, s.world.original.value.retirementId.value)
  {
    hide Reaches, Next;
    var m, n := s.world.original.value, s.world.original.value.retirementId.value;
    t := Alone(s, p, Proc(NoLease, Sweep(None)), LookIntent);
    t := Alone(t, p, Proc(NoLease, RepairSeen(n)), ProbeIntent);
    t := Alone(t, p, Proc(NoLease, RepairTry(n)), TryRepair);
    t := Alone(t, p, Proc(NoLease, Rewrite(Clear(n), ToSweep)), LoadManifest);
    t := Alone(t, p, Proc(NoLease, Loaded(Clear(n), ToSweep, m)), StoreManifest(Applied));
  }

  /** The repair of intents, as the pass does it after all journals. */
  lemma ARepairCanRun(s: State, p: Pid) returns (t: State)
    requires Reachable(s) && SweepsAlone(s, p)
    requires s.world.original.Some? ==> s.world.original.value.revision < U64_MAX
    ensures Reachable(t) && SweepsAlone(t, p) && SameBeside(s.world, t.world)
    ensures StoreOf(t.world) == R.RepairIntents(StoreOf(s.world), {})
  {
    hide Reaches, Next, Effect, Touched;
    t := s;
    StoreByFields(s.world);
    var repaired := R.RepairIntents(StoreOf(s.world), {});
    if s.world.original.Some? && R.OrphanedIntent(StoreOf(s.world), {}, 0) {
      t := AnIntentCanBeRepaired(s, p);
      StoreByFields(t.world);
      assert repaired.arenas == map[0 := t.world.original.value];
      assert StoreOf(t.world) == StoreOf(s.world).(arenas := repaired.arenas);
    } else {
      assert repaired.arenas == StoreOf(s.world).arenas;
    }
  }

  /**
   A whole reconciliation pass is a run of the protocol: from every state that a run reaches, a process left
   to itself can carry it out, with exactly the outcome of the pass as a function of the store.
   */
  lemma APassIsARun(s: State, p: Pid, order: seq<Id>) returns (t: State)
    requires Reachable(s) && IdleAlone(s, p) && LocksFree(s.world)
    requires s.world.original.Some? ==> s.world.original.value.revision < U64_MAX
    requires R.ListsJournals(order, StoreOf(s.world))
    ensures Reachable(t) && IdleAlone(t, p) && LocksFree(t.world) && SameBeside(s.world, t.world)
    ensures StoreOf(t.world) == R.ReconcilePass(StoreOf(s.world), {}, order)
  {
    hide Reaches, Next, R.ReconcileRecords, R.RepairIntents;
    StoreByFields(s.world);
    t := CollectionCanBeTaken(s, p, Collect, Sweep(None));
    assert StoreOf(t.world) == StoreOf(s.world);
    t := AllJournalsCanBeReconciled(t, p, order);
    R.RecordsKeepManifests(StoreOf(s.world), {}, order);
    StoreByFields(t.world);
    t := ARepairCanRun(t, p);
    hide StoreOf;
    t := ReleaseFrom(t, p);
  }

  lemma ReleaseFrom(s: State, p: Pid) returns (t: State)
    requires Reachable(s) && SweepsAlone(s, p)
    ensures Reachable(t) && IdleAlone(t, p) && LocksFree(t.world) && t.world == s.world.(collection := None)
    ensures StoreOf(t.world) == StoreOf(s.world)
  {
    hide Reaches, Next;
    t := Alone(s, p, Proc(NoLease, Sweep(None)), ReleaseCollection);
  }

  // ----- retirement -----

  /** A finished arena without an intent whose pin, if it has one, has run out. */
  predicate Retirable(w: World) {
    && w.original.Some? && !w.original.value.IsUnfinished() && w.original.value.retirementId.None?
    && w.original.value.revision < U64_MAX
    && (w.original.value.pinned ==> w.original.value.pinExpiresAt.Some? && w.original.value.pinExpiresAt.value <= w.now)
  }

  lemma ARetirementCanBePlanned(built: State, p: Pid) returns (s: State)
    requires Reachable(built) && IdleAlone(built, p) && LocksFree(built.world) && Retirable(built.world)
    ensures Reachable(s) && s.procs == map[p := Proc(NoLease, RetireLocked(built.world.original.value))]
    ensures s.world == built.world.(collection := Some(p), arena := Some(p))
  {
    hide Reaches, Next;
    var m := built.world.original.value;
    s := CollectionCanBeTaken(built, p, Collect, Sweep(None));
    s := Alone(s, p, Proc(NoLease, Sweep(None)), ReadSnapshot);
    s := Alone(s, p, Proc(NoLease, Snapshot(m, s.world.now)), ProbeSnapshot);
    s := Alone(s, p, Proc(NoLease, Sweep(Some(m))), TryRetire);
  }

  /** A retirement can get as far as its journal. */
  lemma ARetirementCanBeJournalled(built: State, p: Pid, n: Id) returns (s: State)
    requires Reachable(built) && IdleAlone(built, p) && LocksFree(built.world) && Retirable(built.world)
    requires n !in built.world.used
    ensures Reachable(s) && s.procs == map[p := Proc(NoLease, RetireRename(n, true))]
    ensures var m := built.world.original.value;
      s.world == built.world.(
        collection := Some(p), arena := Some(p), metadata := Some(p), original := Some(Prepared(m, n)),
        journals := built.world.journals[n := m.revision + 1], used := built.world.used + {n})
  {
    hide Reaches, Next;
    var m := built.world.original.value;
    s := ARetirementCanBePlanned(built, p);
    s := Alone(s, p, Proc(NoLease, RetireLocked(m)), CheckRetire(n));
    s := Alone(s, p, Proc(NoLease, RetireIntent(m, n)), WriteIntent(Applied));
    s := Alone(s, p, Proc(NoLease, RetireJournal(n, m.revision + 1)), CreateJournal(Applied));
  }

  /** Such an arena can be retired completely. */
  lemma ARetirementCanRun(s: State, p: Pid, n: Id) returns (t: State)
    requires Reachable(s) && IdleAlone(s, p) && LocksFree(s.world) && Retirable(s.world)
    requires n !in s.world.used && n !in s.world.journals && n !in s.world.trash
    ensures Reachable(t) && IdleAlone(t, p)
    ensures t.world == s.world.(original := None, used := s.world.used + {n})
  {
    hide Reaches, Next;
    t := ARetirementCanBeJournalled(s, p, n);
    t := Alone(t, p, Proc(NoLease, RetireRename(n, true)), MoveToTrash(true, 2));
    t := ATreeCanBeDeleted(t, p, n, HoldBoth);
    assert t.world.trash == s.world.trash && t.world.journals == s.world.journals;
    t := Alone(t, p, Proc(NoLease, Sweep(None)), ReleaseCollection);
  }
}
