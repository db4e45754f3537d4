/** Every step of the arena protocol is a sequence of moves of the lock model, so its runs are runs of that model. */
module ArenaSimulation {
  import opened Prelude
  import opened ArenaManifests
  import opened ArenaProtocol
  import opened ArenaProtocolProof
  import opened ArenaProtocolTheorems
  import opened LockTables
  import opened ArenaLocks
  import L = Locks

  /** The lock model of the process and what it may rely on: which of the three locks are free. */
  predicate SeesLocks(m: L.State, w: World, p: Pid, proc: Proc) {
    && p in m.tasks && m.tasks[p] == TaskOf(proc)
    && (L.Free(m, L.Exclusive(L.Collection)) <==> w.collection.None?)
    && (L.Free(m, L.Exclusive(L.Arena(0))) <==> w.arena.None?)
    && (L.Free(m, L.Exclusive(L.Metadata(0))) <==> w.metadata.None?)
  }

  /** At most one move of the lock model. */
  predicate Follows(m: L.State, p: Pid, next: L.Task) {
    p in m.tasks && (next == m.tasks[p] || L.Step(m, p, next) || L.Withdrawal(m, p, next))
  }

  /** The steps that are more than one move: a request passes the gate, and a retry lets the arena go again. */
  predicate TakesSeveralMoves(a: Action) {
    (a.Request? && a.goal.Admit?) || a.AdmitRetry?
  }

  lemma CollectionFollows(m: L.State, w: World, p: Pid, proc: Proc, a: Action)
    requires SeesLocks(m, w, p, proc) && ProcOk(w, p, proc) && Effect(w, p, proc, a).Some?
    requires !TakesSeveralMoves(a) && (a.Request? || a.TakeCollection? || a.ReleaseCollection?)
    ensures Follows(m, p, TaskOf(Effect(w, p, proc, a).value.1))
  {
    hide L.Free, L.Held, Updated, Finished, Begun, Observed, Created, Prepared, LeaseAfter, LeaseOk, SeenOk, Evictable, MayStart;
  }

  lemma ArenaFollows(m: L.State, w: World, p: Pid, proc: Proc, a: Action)
    requires SeesLocks(m, w, p, proc) && ProcOk(w, p, proc) && Effect(w, p, proc, a).Some?
    requires a.AdmitTryArena? || a.AdmitExisting? || a.RecoverTryArena? || a.ProbeArena? || a.EndProbe?
    ensures Follows(m, p, TaskOf(Effect(w, p, proc, a).value.1))
  {
    hide L.Free, L.Held, Updated, Finished, Begun, Observed, Created, Prepared, LeaseAfter, LeaseOk, SeenOk, Evictable, MayStart;
  }

  lemma LeaseFollows(m: L.State, w: World, p: Pid, proc: Proc, a: Action)
    requires SeesLocks(m, w, p, proc) && ProcOk(w, p, proc) && Effect(w, p, proc, a).Some? && LeaseStep(a)
    ensures Follows(m, p, TaskOf(Effect(w, p, proc, a).value.1))
  {
    hide L.Free, Updated, Finished, Begun, Observed, Created, Prepared, LeaseAfter, LeaseOk, SeenOk, Evictable, OutcomeAllowed;
  }

  /** Working under the collection lock, holding nothing else for the purpose. */
  predicate Sweeps(t: Task) {
    t.Sweep? || t.Snapshot? || t.ReconOriginal? || t.ReconBoth? || t.ResumeTry? || t.DeleteTry? || t.RepairSeen? || t.RepairTry?
    || (t.DropJournal? && t.hold.HoldNothing?)
  }

  /** A step of a sweep goes on sweeping, takes a free arena, waits for metadata no longer, or gives up what it holds. */
  predicate Sweeping(w: World, proc: Proc, proc': Proc) {
    && proc'.lease == proc.lease
    && (|| (Sweeps(proc.task) && Sweeps(proc'.task))
        || (Sweeps(proc.task) && w.arena.None? && TakesArena(proc'.task))
        || (proc.task.ResumeLocked? && w.metadata.None? && proc'.task.RetireRename?)
        || ((TakesArena(proc.task) || proc.task.Deleting? || proc.task.AdmitInspect?) && proc'.task == Sweep(None)))
  }

  predicate TakesArena(t: Task) {
    t.RetireLocked? || t.ResumeLocked? || (t.Deleting? && t.hold.HoldArena?)
    || (t.Rewrite? && t.update.Clear? && t.home.ToSweep?)
  }

  lemma SnapshotTasks(w: World, p: Pid, proc: Proc, a: Action)
    requires Effect(w, p, proc, a).Some? && SnapshotStep(a)
    ensures Sweeping(w, proc, Effect(w, p, proc, a).value.1)
  {
    hide Updated, Finished, Begun, Observed, Created, Prepared, LeaseAfter, MayStart;
  }

  lemma RepairTasks(w: World, p: Pid, proc: Proc, a: Action)
    requires Effect(w, p, proc, a).Some? && RepairStep(a)
    ensures Sweeping(w, proc, Effect(w, p, proc, a).value.1)
  {
    hide Updated, Finished, Begun, Observed, Created, Prepared, LeaseAfter, MayStart;
  }

  lemma LookTasks(w: World, p: Pid, proc: Proc, a: Action)
    requires Effect(w, p, proc, a).Some? && LookStep(a)
    ensures Sweeping(w, proc, Effect(w, p, proc, a).value.1)
  {
    hide Updated, Finished, Begun, Observed, Created, Prepared, LeaseAfter, MayStart;
  }

  lemma ResumeTasks(w: World, p: Pid, proc: Proc, a: Action)
    requires Effect(w, p, proc, a).Some? && ResumeStep(a)
    ensures Sweeping(w, proc, Effect(w, p, proc, a).value.1)
  {
    hide Updated, Finished, Begun, Observed, Created, Prepared, LeaseAfter, MayStart;
  }

  lemma SweepTask(proc: Proc)
    requires Sweeps(proc.task)
    ensures TaskOf(proc) == L.Work(LeaseOf(proc.lease))
  {
  }

  lemma ArenaTask(proc: Proc)
    requires TakesArena(proc.task)
    ensures TaskOf(proc) == if proc.task.Deleting? then L.OtherArena(L.NoLease, 0) else L.OtherMetadata(L.NoLease, 0)
  {
  }

  /** From the collection lock alone to a free arena. */
  lemma TakingFollows(m: L.State, p: Pid, next: L.Task)
    requires p in m.tasks && m.tasks[p] == L.Work(L.NoLease) && L.Free(m, L.Exclusive(L.Arena(0)))
    requires next in {L.OtherArena(L.NoLease, 0), L.OtherMetadata(L.NoLease, 0)}
    ensures Follows(m, p, next)
  {
    hide L.Free, L.Held;
  }

  /** Back to the collection lock alone. */
  lemma GivingUpFollows(m: L.State, w: World, p: Pid, proc: Proc, proc': Proc)
    requires SeesLocks(m, w, p, proc) && LocksOk(w, p, proc) && proc' == proc.(task := Sweep(None))
    requires TakesArena(proc.task) || proc.task.Deleting?
    ensures Follows(m, p, TaskOf(proc'))
  {
    hide L.Free;
  }

  lemma DroppingFollows(m: L.State, w: World, p: Pid, proc: Proc, proc': Proc)
    requires SeesLocks(m, w, p, proc) && LocksOk(w, p, proc) && proc' == proc.(task := Sweep(None)) && proc.task.AdmitInspect?
    ensures Follows(m, p, TaskOf(proc'))
  {
    hide L.Free, L.Held;
  }

  lemma ResumingFollows(m: L.State, w: World, p: Pid, proc: Proc, proc': Proc)
    requires SeesLocks(m, w, p, proc) && proc.task.ResumeLocked? && w.metadata.None? && proc'.task.RetireRename?
    ensures Follows(m, p, TaskOf(proc'))
  {
    hide L.Free, L.Held;
  }

  lemma SweepingFollows(m: L.State, w: World, p: Pid, proc: Proc, proc': Proc)
    requires SeesLocks(m, w, p, proc) && LocksOk(w, p, proc) && Sweeping(w, proc, proc')
    ensures Follows(m, p, TaskOf(proc'))
  {
    hide L.Free, L.Step, L.Withdrawal, TaskOf, Sweeps, TakesArena;
    if Sweeps(proc.task) && Sweeps(proc'.task) {
      SweepTask(proc);
      SweepTask(proc');
    } else if Sweeps(proc.task) && TakesArena(proc'.task) && w.arena.None? {
      SweepTask(proc);
      ArenaTask(proc');
      TakingFollows(m, p, TaskOf(proc'));
    } else if proc.task.ResumeLocked? && proc'.task.RetireRename? {
      ResumingFollows(m, w, p, proc, proc');
    } else if proc.task.AdmitInspect? {
      DroppingFollows(m, w, p, proc, proc');
    } else {
      GivingUpFollows(m, w, p, proc, proc');
    }
  }

  lemma SweepFollows(m: L.State, w: World, p: Pid, proc: Proc, a: Action)
    requires SeesLocks(m, w, p, proc) && ProcOk(w, p, proc) && Effect(w, p, proc, a).Some?
    requires SnapshotStep(a) || RepairStep(a) || LookStep(a) || ResumeStep(a)
    ensures Follows(m, p, TaskOf(Effect(w, p, proc, a).value.1))
  {
    hide Effect, SeesLocks, Follows, TaskOf, LeaseOk, LocksOk;
    if SnapshotStep(a) {
      SnapshotTasks(w, p, proc, a);
    } else if RepairStep(a) {
      RepairTasks(w, p, proc, a);
    } else if LookStep(a) {
      LookTasks(w, p, proc, a);
    } else {
      ResumeTasks(w, p, proc, a);
    }
    SweepingFollows(m, w, p, proc, Effect(w, p, proc, a).value.1);
  }

  lemma CheckFollows(m: L.State, w: World, p: Pid, proc: Proc, a: Action)
    requires SeesLocks(m, w, p, proc) && ProcOk(w, p, proc) && Effect(w, p, proc, a).Some? && a.CheckRetire?
    ensures Follows(m, p, TaskOf(Effect(w, p, proc, a).value.1))
  {
    hide L.Free, L.Held, Updated, Finished, Begun, Observed, Created, Prepared, LeaseAfter, LeaseOk, SeenOk, Evictable, MayStart;
  }

  lemma BuildingFollows(m: L.State, w: World, p: Pid, proc: Proc, a: Action)
    requires SeesLocks(m, w, p, proc) && ProcOk(w, p, proc) && Effect(w, p, proc, a).Some?
    requires a.PromoteStaged? || a.AdmitNew? || a.StoreManifest? || a.SpawnChild? || a.ChildExits?
    ensures Follows(m, p, TaskOf(Effect(w, p, proc, a).value.1))
  {
    hide Effect, L.Free, L.Held, Updated, LeaseOk, SeenOk, Evictable, WorldOk;
    if a.PromoteStaged? || a.AdmitNew? {
      CreationEffect(w, p, proc, a);
    } else if a.StoreManifest? {
      StoreEffect(w, p, proc, a);
    } else {
      ChildStepEffect(w, p, proc, a);
    }
  }

  lemma RetiringFollows(m: L.State, w: World, p: Pid, proc: Proc, a: Action)
    requires SeesLocks(m, w, p, proc) && ProcOk(w, p, proc) && Effect(w, p, proc, a).Some?
    requires a.WriteIntent? || a.CreateJournal? || a.MoveToTrash? || a.DeletePiece? || a.DeleteRoot? || a.RemoveJournal?
    ensures Follows(m, p, TaskOf(Effect(w, p, proc, a).value.1))
  {
    hide Effect, L.Free, L.Held, Updated, LeaseOk, SeenOk, Evictable, TaskOk, Prepared;
    if a.WriteIntent? {
      IntentEffect(w, p, proc, a);
    } else if a.CreateJournal? {
      JournalEffect(w, p, proc, a);
    } else if a.MoveToTrash? {
      MoveEffect(w, p, proc, a);
    } else if a.RemoveJournal? {
      JournalRemovalEffect(w, p, proc, a);
    } else {
      DeletionEffect(w, p, proc, a);
    }
  }

  lemma StepFollows(m: L.State, w: World, p: Pid, proc: Proc, a: Action)
    requires SeesLocks(m, w, p, proc) && ProcOk(w, p, proc) && Effect(w, p, proc, a).Some? && !TakesSeveralMoves(a)
    ensures Follows(m, p, TaskOf(Effect(w, p, proc, a).value.1))
  {
    hide Effect, ProcOk, SeesLocks, Follows, TaskOf;
    if a.Request? || a.TakeCollection? || a.ReleaseCollection? {
      CollectionFollows(m, w, p, proc, a);
    } else if AdmissionStep(a) {
      ArenaFollows(m, w, p, proc, a);
    } else if LeaseStep(a) {
      LeaseFollows(m, w, p, proc, a);
    } else if SnapshotStep(a) || RepairStep(a) || LookStep(a) || ResumeStep(a) {
      SweepFollows(m, w, p, proc, a);
    } else if a.CheckRetire? {
      CheckFollows(m, w, p, proc, a);
    } else if a.PromoteStaged? || a.AdmitNew? || a.StoreManifest? || a.SpawnChild? || a.ChildExits? {
      BuildingFollows(m, w, p, proc, a);
    } else {
      RetiringFollows(m, w, p, proc, a);
    }
  }

  // ----- runs -----

  ghost predicate MovesTo(m: L.State, p: Pid, after: L.State) {
    exists next: L.Task :: Follows(m, p, next) && after == L.State(m.tasks[p := next])
  }

  /** States of the lock model in which only `p` moves, one move at a time. */
  ghost predicate IsPath(path: seq<L.State>, p: Pid) {
    path != [] && forall i :: 0 <= i < |path| - 1 ==> MovesTo(path[i], p, path[i + 1])
  }

  lemma OneMove(m: L.State, p: Pid, next: L.Task)
    requires Follows(m, p, next)
    ensures IsPath([m, L.State(m.tasks[p := next])], p)
  {
    hide Follows;
    assert MovesTo(m, p, L.State(m.tasks[p := next]));
  }

  lemma PathsJoin(first: seq<L.State>, second: seq<L.State>, p: Pid)
    requires IsPath(first, p) && IsPath(second, p) && first[|first| - 1] == second[0]
    ensures IsPath(first + second[1..], p) && (first + second[1..])[0] == first[0]
    ensures (first + second[1..])[|first + second[1..]| - 1] == second[|second| - 1]
  {
    hide MovesTo;
    var path := first + second[1..];
    forall i | 0 <= i < |path| - 1
      ensures MovesTo(path[i], p, path[i + 1])
    {
      if i < |first| - 1 {
        assert path[i] == first[i] && path[i + 1] == first[i + 1];
      } else {
        var k := i - (|first| - 1);
        assert path[i] == second[k] && path[i + 1] == second[k + 1];
        assert MovesTo(second[k], p, second[k + 1]);
      }
    }
  }

  lemma SeesTheLocks(s: State, p: Pid)
    requires Inv(s) && AllOwned(s) && p in s.procs
    ensures SeesLocks(LockState(s), s.world, p, s.procs[p])
  {
    hide Inv, AllOwned, L.Free, TaskOf;
    FreeExactly(s, L.Collection);
    FreeExactly(s, L.Arena(0));
    FreeExactly(s, L.Metadata(0));
  }

  lemma ItsTask(s: State, p: Pid)
    requires p in s.procs
    ensures p in LockState(s).tasks && LockState(s).tasks[p] == TaskOf(s.procs[p])
  {
    hide TaskOf;
  }

  lemma OnlyItsTaskChanges(s: State, p: Pid, a: Action, after: State)
    requires p in s.procs && Next(s, Acts(p, a)) == Some(after)
    ensures Effect(s.world, p, s.procs[p], a).Some?
    ensures LockState(after) == L.State(LockState(s).tasks[p := TaskOf(Effect(s.world, p, s.procs[p], a).value.1)])
  {
    hide Effect, TaskOf;
  }

  /** A request for admission waits at the gate, passes it, and goes on to wait for the collection lock. */
  lemma RequestPath(s: State, p: Pid, after: State) returns (path: seq<L.State>)
    requires Inv(s) && p in s.procs && Next(s, Acts(p, Request(Admit))) == Some(after)
    ensures IsPath(path, p) && path[0] == LockState(s) && path[|path| - 1] == LockState(after)
  {
    var m := LockState(s);
    GateIsShared(s);
    OnlyItsTaskChanges(s, p, Request(Admit), after);
    ItsTask(s, p);
    hide Inv, L.Free, TaskOf, IsPath, L.Step, Effect, Next, LockState;
    RequestTasks(s.world, p, s.procs[p]);
    var m1, m2, m3 := RequestMoves(m, p);
    PathsJoin([m, m1], [m1, m2], p);
    path := [m, m1] + [m1, m2][1..];
    PathsJoin(path, [m2, m3], p);
    path := path + [m2, m3][1..];
    assert m3 == LockState(after);
  }

  lemma RequestTasks(w: World, p: Pid, proc: Proc)
    requires Effect(w, p, proc, Request(Admit)).Some?
    ensures TaskOf(proc) == L.Idle && TaskOf(Effect(w, p, proc, Request(Admit)).value.1) == L.AdmitCollection(0, 0)
  {
  }

  lemma RequestMoves(m: L.State, p: Pid) returns (m1: L.State, m2: L.State, m3: L.State)
    requires p in m.tasks && m.tasks[p] == L.Idle && L.Free(m, L.Hold(L.Gate(0), true))
    ensures m3 == L.State(m.tasks[p := L.AdmitCollection(0, 0)])
    ensures IsPath([m, m1], p) && IsPath([m1, m2], p) && IsPath([m2, m3], p)
  {
    m1 := L.State(m.tasks[p := L.AdmitGate(0, 0)]);
    m2 := L.State(m1.tasks[p := L.AdmitCheck(0, 0)]);
    m3 := L.State(m2.tasks[p := L.AdmitCollection(0, 0)]);
    assert L.Free(m1, L.Hold(L.Gate(0), true));
    OneMove(m, p, L.AdmitGate(0, 0));
    OneMove(m1, p, L.AdmitCheck(0, 0));
    OneMove(m2, p, L.AdmitCollection(0, 0));
  }

  /** A waiting admission takes the arena and lets it go again before it waits for the collection lock. */
  lemma RetryPath(s: State, p: Pid, after: State) returns (path: seq<L.State>)
    requires Inv(s) && AllOwned(s) && p in s.procs && Next(s, Acts(p, AdmitRetry)) == Some(after)
    ensures IsPath(path, p) && path[0] == LockState(s) && path[|path| - 1] == LockState(after)
  {
    var m := LockState(s);
    FreeExactly(s, L.Arena(0));
    OnlyItsTaskChanges(s, p, AdmitRetry, after);
    ItsTask(s, p);
    hide Inv, L.Free, AllOwned, TaskOf, IsPath, L.Step, Effect, Next, LockState;
    RetryTasks(s.world, p, s.procs[p]);
    var m1, m2 := RetryMoves(m, p);
    PathsJoin([m, m1], [m1, m2], p);
    path := [m, m1] + [m1, m2][1..];
    assert m2 == LockState(after);
  }

  lemma RetryTasks(w: World, p: Pid, proc: Proc)
    requires Effect(w, p, proc, AdmitRetry).Some?
    ensures TaskOf(proc) == L.AdmitArena(0, 0) && w.arena.None?
    ensures TaskOf(Effect(w, p, proc, AdmitRetry).value.1) == L.AdmitCollection(0, 0)
  {
  }

  lemma RetryMoves(m: L.State, p: Pid) returns (m1: L.State, m2: L.State)
    requires p in m.tasks && m.tasks[p] == L.AdmitArena(0, 0) && L.Free(m, L.Exclusive(L.Arena(0)))
    ensures m1 == L.State(m.tasks[p := L.AdmitRetry(0, 0)]) && m2 == L.State(m1.tasks[p := L.AdmitCollection(0, 0)])
    ensures m2 == L.State(m.tasks[p := L.AdmitCollection(0, 0)])
    ensures IsPath([m, m1], p) && IsPath([m1, m2], p)
  {
    hide L.Free, L.Held;
    m1 := L.State(m.tasks[p := L.AdmitRetry(0, 0)]);
    m2 := L.State(m1.tasks[p := L.AdmitCollection(0, 0)]);
    OneMove(m, p, L.AdmitRetry(0, 0));
    OneMove(m1, p, L.AdmitCollection(0, 0));
  }

  /** Every action of the protocol is a path of its process in the lock model. */
  lemma ActionIsPath(s: State, p: Pid, a: Action, after: State) returns (path: seq<L.State>)
    requires Inv(s) && AllOwned(s) && p in s.procs && Next(s, Acts(p, a)) == Some(after)
    ensures IsPath(path, p) && path[0] == LockState(s) && path[|path| - 1] == LockState(after)
  {
    hide Effect, TaskOf, WorldOk, AllOwned, IsPath, Follows;
    if TakesSeveralMoves(a) {
      if a.AdmitRetry? {
        path := RetryPath(s, p, after);
      } else {
        path := RequestPath(s, p, after);
      }
    } else {
      assert ProcOk(s.world, p, s.procs[p]);
      SeesTheLocks(s, p);
      StepFollows(LockState(s), s.world, p, s.procs[p], a);
      var next := TaskOf(Effect(s.world, p, s.procs[p], a).value.1);
      OneMove(LockState(s), p, next);
      path := [LockState(s), L.State(LockState(s).tasks[p := next])];
      assert path[1] == LockState(after);
    }
  }

  /** Over every run of the protocol its steps are paths of the lock model, and joins and deaths are the same there. */
  lemma RunsAreRunsOfTheLockModel(states: seq<State>, events: seq<Event>, i: nat)
    requires IsRun(states, events) && i < |events|
    ensures var m, after := LockState(states[i]), LockState(states[i + 1]);
      match events[i]
      case Acts(p, _) => exists path: seq<L.State> :: IsPath(path, p) && path[0] == m && path[|path| - 1] == after
      case Joins(p) => L.Happens(m, L.Joins(p), after)
      case Dies(p) => L.Happens(m, L.Dies(p), after)
      case _ => after == m
  {
    hide Effect, TaskOf, Inv, AllOwned, IsPath;
    RunsKeepLocksOwned(states, events, i);
    assert Next(states[i], events[i]) == Some(states[i + 1]);
    match events[i]
    case Acts(p, a) =>
      var path := ActionIsPath(states[i], p, a, states[i + 1]);
    case Joins(p) =>
      IdleIsIdle();
    case _ =>
  }

  lemma IdleIsIdle()
    ensures TaskOf(Proc(NoLease, Idle)) == L.Idle
  {
  }
}
