/**
 Runs that exist: a build whose Cargo tree is alive and then ends, a retirement that loses its
 collector and is completed by another process, a stale confirmation that frees the arena of a live
 tree, and two interrupted retirements of one arena.
 */
module ArenaProtocolRuns {
  import opened Prelude
  import opened Runs
  import opened ArenaManifests
  import opened ArenaProtocol
  import opened ArenaProtocolAlone

  // ----- leases and builds -----

  /** The process holds a lease and is idle; nobody holds another lock. */
  predicate LeasedAlone(s: State, p: Pid, stage: Stage, child: Child) {
    && s.procs == map[p := Proc(Leased(stage, child), Idle)]
    && s.world.collection.None? && s.world.arena == Some(p) && s.world.metadata.None?
    && s.world.original.Some? && s.world.original.value.EffectiveStage() == stage && s.world.original.value.IsUnfinished()
    && s.world.original.value.revision < 100
  }

  lemma AnArenaCanBeCreated() returns (s: State)
    ensures Reachable(s) && LeasedAlone(s, 0, Reserved, NotTried) && !s.world.alive
    ensures s.world.journals == map[] && s.world.trash == map[] && s.world.used == {0}
    ensures var m := s.world.original.value; m.revision == 1 && !m.pinned && m.retirementId.None?
  {
    hide Reaches;
    StartIsReached(START, Next);
    s := AProcessCanJoin(START, 0);
    hide Next;
    s := CollectionCanBeTaken(s, 0, Admit, AdmitTry);
    s := Alone(s, 0, Proc(NoLease, AdmitTry), AdmitTryArena);
    s := Alone(s, 0, Proc(NoLease, AdmitInspect), AdmitNew(0, 5, 0));
    s := Alone(s, 0, Proc(Leased(Reserved, NotTried), Sweep(None)), ReleaseCollection);
  }

  lemma AnArenaCanBeChosen(s: State, p: Pid) returns (t: State)
    requires Reachable(s) && IdleAlone(s, p) && LocksFree(s.world) && s.world.original.Some?
    ensures Reachable(t) && t.procs == map[p := Proc(NoLease, Rewrite(Begin(5, 0, s.world.now), ToSweep))]
    ensures t.world == s.world.(collection := Some(p), arena := Some(p))
  {
    hide Reaches, Next;
    t := CollectionCanBeTaken(s, p, Admit, AdmitTry);
    t := Alone(t, p, Proc(NoLease, AdmitTry), AdmitTryArena);
    t := Alone(t, p, Proc(NoLease, AdmitInspect), AdmitExisting(5, 0));
  }

  /** An arena that is finished, as its manifest says, can be leased again. */
  lemma AnArenaCanBeLeasedAgain(s: State, p: Pid) returns (t: State)
    requires Reachable(s) && IdleAlone(s, p) && LocksFree(s.world)
    requires s.world.original.Some? && !s.world.original.value.IsUnfinished() && s.world.original.value.revision < 99
    ensures Reachable(t) && LeasedAlone(t, p, Reserved, NotTried)
    ensures t.world == s.world.(arena := Some(p), original := Updated(s.world.original.value, Begin(5, 0, s.world.now)))
  {
    hide Reaches, Next;
    var m := s.world.original.value;
    var u := Begin(5, 0, s.world.now);
    t := AnArenaCanBeChosen(s, p);
    t := Alone(t, p, Proc(NoLease, Rewrite(u, ToSweep)), LoadManifest);
    t := Alone(t, p, Proc(NoLease, Loaded(u, ToSweep, m)), StoreManifest(Applied));
    t := Alone(t, p, Proc(Leased(Reserved, NotTried), Sweep(None)), ReleaseCollection);
  }

  /** A lease holder rewrites its manifest without losing the write. */
  lemma ARewriteCanBeDone(s: State, p: Pid, u: Update, stage: Stage, child: Child) returns (t: State)
    requires Reachable(s) && LeasedAlone(s, p, stage, child) && MayStart(Leased(stage, child), Idle, u)
    requires u.MarkSpawning? || u.MarkSpawned? || u.Finish?
    requires Updated(s.world.original.value, u).Some?
    ensures Reachable(t)
    ensures var lease := LeaseAfter(Leased(stage, child), u, Applied);
      && t.procs == map[p := Proc(lease, Idle)]
      && t.world == s.world.(original := Updated(s.world.original.value, u),
                             arena := if lease.NoLease? then None else s.world.arena)
  {
    hide Reaches, Next;
    var lease, m := Leased(stage, child), s.world.original.value;
    t := Alone(s, p, Proc(lease, Idle), StartRewrite(u));
    t := Alone(t, p, Proc(lease, Rewrite(u, ToIdle)), LoadManifest);
    t := Alone(t, p, Proc(lease, Loaded(u, ToIdle, m)), StoreManifest(Applied));
  }

  /** A Cargo tree can be alive under its lease. */
  lemma ABuildCanRun() returns (s: State)
    ensures Reachable(s) && LeasedAlone(s, 0, Spawning, Running) && s.world.alive
    ensures s.world.journals == map[] && s.world.trash == map[] && s.world.used == {0}
    ensures var m := s.world.original.value; m.revision == 2 && !m.pinned && m.retirementId.None?
  {
    hide Reaches, Next;
    s := AnArenaCanBeCreated();
    s := ARewriteCanBeDone(s, 0, MarkSpawning, Reserved, NotTried);
    s := Alone(s, 0, Proc(Leased(Spawning, NotTried), Idle), SpawnChild);
  }

  /** Nothing is left to do: one arena, finished, unpinned and without intent. */
  predicate Quiet(s: State, p: Pid) {
    && IdleAlone(s, p) && LocksFree(s.world) && !s.world.alive
    && s.world.original.Some? && !s.world.original.value.IsUnfinished() && s.world.original.value.revision < 50
    && !s.world.original.value.pinned && s.world.original.value.retirementId.None?
  }

  /** There is a run in which a Cargo tree is alive and its build then finishes. */
  lemma ABuildCanFinish() returns (running: State, s: State)
    ensures Reachable(running) && running.world.alive
    ensures Reachable(s) && Quiet(s, 0) && s.world.journals == map[] && s.world.trash == map[] && s.world.used == {0}
    ensures s.world.original.value.revision < 20
  {
    hide Reaches, Next;
    running := ABuildCanRun();
    s := ARewriteCanBeDone(running, 0, MarkSpawned, Spawning, Running);
    s := Alone(s, 0, Proc(Leased(Spawned, Running), Idle), ChildExits);
    s := ARewriteCanBeDone(s, 0, Finish(Succeeded, 3, Some(3), 0), Spawned, Gone);
  }

  // ----- an interrupted retirement -----

  /** The collector died after the rename: the tree lies in trash, journalled, with nobody working on it. */
  predicate Interrupted(s: State) {
    && s.procs == map[] && LocksFree(s.world) && s.world.original.None?
    && s.world.journals.Keys == s.world.trash.Keys == {1} && s.world.trash[1].pieces == 1
  }

  lemma ARetirementCanBeInterrupted(built: State) returns (s: State)
    requires Reachable(built) && Quiet(built, 0) && built.world.journals == map[] && built.world.trash == map[]
    requires built.world.used == {0}
    ensures Reachable(s) && Interrupted(s)
  {
    hide Reaches, Next;
    s := ARetirementCanBeJournalled(built, 0, 1);
    s := Alone(s, 0, Proc(NoLease, RetireRename(1, true)), MoveToTrash(true, 1));
    s := TheProcessCanDie(s, 0);
  }

  predicate Clean(s: State) {
    s.world.original.None? && s.world.journals == map[] && s.world.trash == map[]
  }

  lemma ReconciliationCanFinishIt(left: State) returns (s: State)
    requires Reachable(left) && Interrupted(left)
    ensures Reachable(s) && Clean(s)
  {
    hide Reaches, Next, Effect;
    s := AProcessCanJoin(left, 7);
    s := CollectionCanBeTaken(s, 7, Collect, Sweep(None));
    s := AJournalCanBeReconciled(s, 7, 1);
    hide StoreOf;
    StoreByFields(left.world);
    StoreByFields(s.world);
  }

  /** The collector can die after the rename, and another process can complete the deletion. */
  lemma ARetirementSurvivesItsCollector()
    ensures exists interrupted, clean ::
      Reachable(interrupted) && Interrupted(interrupted) && Reachable(clean) && Clean(clean)
  {
    hide Reaches, Next;
    var running, built := ABuildCanFinish();
    var interrupted := ARetirementCanBeInterrupted(built);
    var clean := ReconciliationCanFinishIt(interrupted);
  }

  // ----- a stale confirmation -----

  lemma ASuspectCanBeRecovered(s: State, p: Pid) returns (t: State)
    requires Reachable(s) && IdleAlone(s, p) && LocksFree(s.world)
    requires s.world.original.Some? && s.world.original.value.revision < 50
    requires Updated(s.world.original.value, Recover(0, None, s.world.now)).Some?
    ensures Reachable(t) && IdleAlone(t, p) && LocksFree(t.world)
    ensures t.world == s.world.(original := Updated(s.world.original.value, Recover(0, None, s.world.now)))
  {
    hide Reaches, Next;
    var m, goal, u := s.world.original.value, RecoverSuspect(0, None), Recover(0, None, s.world.now);
    t := CollectionCanBeTaken(s, p, goal, RecoverTry(goal));
    t := Alone(t, p, Proc(NoLease, RecoverTry(goal)), RecoverTryArena);
    t := Alone(t, p, Proc(NoLease, Rewrite(u, ToSweep)), LoadManifest);
    t := Alone(t, p, Proc(NoLease, Loaded(u, ToSweep, m)), StoreManifest(Applied));
    t := Alone(t, p, Proc(NoLease, Sweep(None)), ReleaseCollection);
  }

  /** A confirmation given for a tree that is in fact alive: its arena is leased again beside it. */
  lemma AStaleConfirmationFreesALiveArena()
    ensures exists s: State, p: Pid ::
      && Reachable(s) && s.world.alive && p in s.procs && s.procs[p].lease == Leased(Reserved, NotTried)
  {
    hide Reaches, Next;
    var s := ABuildCanRun();
    s := TheProcessCanDie(s, 0);
    s := AProcessCanJoin(s, 1);
    s := ASuspectCanBeRecovered(s, 1);
    s := AnArenaCanBeLeasedAgain(s, 1);
    assert s.world.alive && s.procs[1].lease == Leased(Reserved, NotTried);
  }

  // ----- two interrupted retirements of one arena -----

  /** Journal 1 is left from a retirement before the arena was leased again, journal 2 from one after it. */
  predicate TwiceInterrupted(s: State) {
    && s.procs == map[] && s.world.original.Some? && s.world.trash == map[] && s.world.journals.Keys == {1, 2}
    && !Matches(s.world.original.value, 1, s.world.journals[1]) && Matches(s.world.original.value, 2, s.world.journals[2])
  }

  lemma AJournalCanBeLeftBehind() returns (s: State)
    ensures Reachable(s) && s.procs == map[] && LocksFree(s.world) && !s.world.alive
    ensures s.world.trash == map[] && s.world.journals.Keys == {1} && s.world.used == {0, 1}
    ensures s.world.original.Some? && !s.world.original.value.IsUnfinished() && !s.world.original.value.pinned
    ensures s.world.journals[1] == s.world.original.value.revision < 30
  {
    hide Reaches, Next;
    var running, built := ABuildCanFinish();
    s := ARetirementCanBeJournalled(built, 0, 1);
    s := TheProcessCanDie(s, 0);
  }

  lemma ABuildCanEndUnstarted(s: State, p: Pid) returns (t: State)
    requires Reachable(s) && IdleAlone(s, p) && LocksFree(s.world) && !s.world.alive
    requires s.world.original.Some? && !s.world.original.value.IsUnfinished() && !s.world.original.value.pinned
    requires s.world.original.value.revision < 40
    ensures Reachable(t) && Quiet(t, p)
    ensures t.world == s.world.(original := t.world.original) && t.world.original.value.revision > s.world.original.value.revision
  {
    hide Reaches, Next;
    t := AnArenaCanBeLeasedAgain(s, p);
    t := ARewriteCanBeDone(t, p, Finish(NotStarted, 0, Some(0), 0), Reserved, NotTried);
  }

  lemma TwoRetirementsCanBeInterrupted() returns (s: State)
    ensures Reachable(s) && TwiceInterrupted(s)
  {
    hide Reaches, Next;
    s := AJournalCanBeLeftBehind();
    s := AProcessCanJoin(s, 1);
    s := ABuildCanEndUnstarted(s, 1);
    s := ARetirementCanBeJournalled(s, 1, 2);
    s := TheProcessCanDie(s, 1);
  }
}
