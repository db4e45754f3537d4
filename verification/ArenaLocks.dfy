/**
 The arena protocol as a run of the lock model: each of its steps is a sequence of steps of the lock
 table, and so no set of its processes is ever deadlocked.
 */
module ArenaLocks {
  import opened Prelude
  import opened ArenaManifests
  import opened ArenaProtocol
  import opened ArenaProtocolProof
  import opened ArenaProtocolTheorems
  import opened LockTables
  import L = Locks

  // ----- a lock that is taken is taken by somebody -----

  predicate HoldsArena(proc: Proc) {
    proc.lease.Leased? || TaskHoldsArena(proc.task)
  }

  /** The locks recorded for `p` are locks it holds. */
  predicate OwnLocks(w: World, p: Pid, proc: Proc) {
    && (w.collection == Some(p) ==> HoldsCollection(proc.task))
    && (w.arena == Some(p) ==> HoldsArena(proc))
    && (w.metadata == Some(p) ==> HoldsMetadata(proc.task))
  }

  /** A lock changes hands only between nobody and `p`. */
  predicate OnlyByOwner(before: Option<Pid>, after: Option<Pid>, p: Pid) {
    after == before || (before in {None, Some(p)} && after in {None, Some(p)})
  }

  predicate OthersLocks(w: World, after: World, p: Pid) {
    && OnlyByOwner(w.collection, after.collection, p) && OnlyByOwner(w.arena, after.arena, p)
    && OnlyByOwner(w.metadata, after.metadata, p)
  }

  predicate LocksStayOwned(w: World, p: Pid, result: (World, Proc)) {
    OwnLocks(result.0, p, result.1) && OthersLocks(w, result.0, p)
  }

  lemma AdmissionStaysOwned(w: World, p: Pid, proc: Proc, a: Action)
    requires ProcOk(w, p, proc) && OwnLocks(w, p, proc) && Effect(w, p, proc, a).Some? && AdmissionStep(a)
    ensures LocksStayOwned(w, p, Effect(w, p, proc, a).value)
  {
    hide Updated, Finished, Begun, Observed, Created, Prepared, LeaseAfter, OutcomeAllowed, LeaseOk, SeenOk, Evictable;
  }

  lemma LeaseStaysOwned(w: World, p: Pid, proc: Proc, a: Action)
    requires ProcOk(w, p, proc) && OwnLocks(w, p, proc) && Effect(w, p, proc, a).Some? && LeaseStep(a)
    ensures LocksStayOwned(w, p, Effect(w, p, proc, a).value)
  {
    hide Updated, Finished, Begun, Observed, Created, Prepared, LeaseAfter, OutcomeAllowed, LeaseOk, SeenOk, Evictable;
  }

  lemma SnapshotStaysOwned(w: World, p: Pid, proc: Proc, a: Action)
    requires ProcOk(w, p, proc) && OwnLocks(w, p, proc) && Effect(w, p, proc, a).Some? && (SnapshotStep(a))
    ensures LocksStayOwned(w, p, Effect(w, p, proc, a).value)
  {
    hide Updated, Finished, Begun, Observed, Created, Prepared, MayStart, LeaseAfter, OutcomeAllowed, LeaseOk, SeenOk, Evictable;
    hide TaskOk;
  }

  lemma RepairStaysOwned(w: World, p: Pid, proc: Proc, a: Action)
    requires ProcOk(w, p, proc) && OwnLocks(w, p, proc) && Effect(w, p, proc, a).Some? && (RepairStep(a))
    ensures LocksStayOwned(w, p, Effect(w, p, proc, a).value)
  {
    hide Updated, Finished, Begun, Observed, Created, Prepared, MayStart, LeaseAfter, OutcomeAllowed, LeaseOk, SeenOk, Evictable;
    hide TaskOk;
  }

  lemma LookStaysOwned(w: World, p: Pid, proc: Proc, a: Action)
    requires ProcOk(w, p, proc) && OwnLocks(w, p, proc) && Effect(w, p, proc, a).Some? && (LookStep(a))
    ensures LocksStayOwned(w, p, Effect(w, p, proc, a).value)
  {
    hide Updated, Finished, Begun, Observed, Created, Prepared, MayStart, LeaseAfter, OutcomeAllowed, LeaseOk, SeenOk, Evictable;
    hide TaskOk;
  }

  lemma ResumeStaysOwned(w: World, p: Pid, proc: Proc, a: Action)
    requires ProcOk(w, p, proc) && OwnLocks(w, p, proc) && Effect(w, p, proc, a).Some? && ResumeStep(a)
    ensures LocksStayOwned(w, p, Effect(w, p, proc, a).value)
  {
    hide Updated, Finished, Begun, Observed, Created, Prepared, MayStart, LeaseAfter, OutcomeAllowed, LeaseOk, SeenOk, Evictable;
    hide TaskOk;
  }

  lemma CheckStaysOwned(w: World, p: Pid, proc: Proc, a: Action)
    requires ProcOk(w, p, proc) && OwnLocks(w, p, proc) && Effect(w, p, proc, a).Some? && a.CheckRetire?
    ensures LocksStayOwned(w, p, Effect(w, p, proc, a).value)
  {
    hide Updated, Finished, Begun, Observed, Created, Prepared, LeaseAfter, OutcomeAllowed, LeaseOk, SeenOk, Evictable, MayStart;
  }

  /** The steps under a lease or at its beginning. */
  lemma BuildingStaysOwned(w: World, p: Pid, proc: Proc, a: Action)
    requires ProcOk(w, p, proc) && OwnLocks(w, p, proc) && Effect(w, p, proc, a).Some?
    requires a.PromoteStaged? || a.AdmitNew? || a.StoreManifest? || a.SpawnChild? || a.ChildExits?
    ensures LocksStayOwned(w, p, Effect(w, p, proc, a).value)
  {
    hide Effect, Updated, LeaseOk, SeenOk, Evictable, WorldOk;
    if a.PromoteStaged? || a.AdmitNew? {
      CreationEffect(w, p, proc, a);
    } else if a.StoreManifest? {
      StoreEffect(w, p, proc, a);
    } else {
      ChildStepEffect(w, p, proc, a);
    }
  }

  /** The steps of a retirement. */
  lemma RetiringStaysOwned(w: World, p: Pid, proc: Proc, a: Action)
    requires ProcOk(w, p, proc) && OwnLocks(w, p, proc) && Effect(w, p, proc, a).Some?
    requires a.WriteIntent? || a.CreateJournal? || a.MoveToTrash? || a.DeletePiece? || a.DeleteRoot? || a.RemoveJournal?
    ensures LocksStayOwned(w, p, Effect(w, p, proc, a).value)
  {
    hide Effect, Updated, LeaseOk, SeenOk, Evictable, TaskOk, Prepared;
    if a.WriteIntent? {
      IntentEffect(w, p, proc, a);
    } else if a.CreateJournal? {
      JournalEffect(w, p, proc, a);
    } else if a.MoveToTrash? {
      MoveEffect(w, p, proc, a);
    } else if a.RemoveJournal? {
      JournalRemovalEffect(w, p, proc, a);
    } else {
      DeletionEffect(w, p, proc, a);
    }
  }

  lemma ChildStepEffect(w: World, p: Pid, proc: Proc, a: Action)
    requires Effect(w, p, proc, a).Some? && (a.SpawnChild? || a.ChildExits?)
    ensures var (after, proc') := Effect(w, p, proc, a).value;
      && after == w.(alive := after.alive) && proc'.task == proc.task && proc.lease.Leased? && proc'.lease.Leased?
  {
    hide Updated, Finished, MayStart, ReleaseHold;
  }

  lemma StepStaysOwned(w: World, p: Pid, proc: Proc, a: Action)
    requires ProcOk(w, p, proc) && OwnLocks(w, p, proc) && Effect(w, p, proc, a).Some?
    ensures LocksStayOwned(w, p, Effect(w, p, proc, a).value)
  {
    hide Effect, ProcOk, OwnLocks, LocksStayOwned;
    if AdmissionStep(a) {
      AdmissionStaysOwned(w, p, proc, a);
    } else if LeaseStep(a) {
      LeaseStaysOwned(w, p, proc, a);
    } else if SnapshotStep(a) {
      SnapshotStaysOwned(w, p, proc, a);
    } else if RepairStep(a) {
      RepairStaysOwned(w, p, proc, a);
    } else if LookStep(a) {
      LookStaysOwned(w, p, proc, a);
    } else if ResumeStep(a) {
      ResumeStaysOwned(w, p, proc, a);
    } else if a.CheckRetire? {
      CheckStaysOwned(w, p, proc, a);
    } else if a.PromoteStaged? || a.AdmitNew? || a.StoreManifest? || a.SpawnChild? || a.ChildExits? {
      BuildingStaysOwned(w, p, proc, a);
    } else {
      RetiringStaysOwned(w, p, proc, a);
    }
  }

  predicate HeldBySomeone(s: State, holder: Option<Pid>) {
    holder.Some? ==> holder.value in s.procs
  }

  /** Every lock that is taken is held by a process that exists. */
  ghost predicate AllOwned(s: State) {
    && HeldBySomeone(s, s.world.collection) && HeldBySomeone(s, s.world.arena) && HeldBySomeone(s, s.world.metadata)
    && forall p :: p in s.procs ==> OwnLocks(s.world, p, s.procs[p])
  }

  lemma EventKeepsOwned(s: State, e: Event)
    requires Inv(s) && AllOwned(s) && Next(s, e).Some?
    ensures AllOwned(Next(s, e).value)
  {
    hide Effect, WorldOk;
    if e.Acts? {
      assert ProcOk(s.world, e.pid, s.procs[e.pid]);
      StepStaysOwned(s.world, e.pid, s.procs[e.pid], e.action);
    }
  }

  lemma {:induction false} RunsKeepLocksOwned(states: seq<State>, events: seq<Event>, i: nat)
    requires IsRun(states, events) && i < |states|
    ensures Inv(states[i]) && AllOwned(states[i])
  {
    hide Inv, AllOwned, Next;
    RunKeepsInv(states, events, i);
    if i > 0 {
      RunsKeepLocksOwned(states, events, i - 1);
      assert Next(states[i - 1], events[i - 1]) == Some(states[i - 1 + 1]);
      EventKeepsOwned(states[i - 1], events[i - 1]);
    } else {
      NobodyOwns();
    }
  }

  lemma NobodyOwns()
    ensures AllOwned(START)
  {
  }

  // ----- the state of the lock model -----

  function LockState(s: State): L.State {
    L.State(map p | p in s.procs :: TaskOf(s.procs[p]))
  }

  function HolderOf(w: World, l: L.Lock): Option<Pid> {
    match l
    case Collection => w.collection
    case Arena(_) => w.arena
    case Metadata(_) => w.metadata
    case _ => None
  }

  predicate Modelled(l: L.Lock) {
    l in {L.Collection, L.Arena(0), L.Metadata(0)}
  }

  /** In the lock model a lock is free exactly when the protocol records nobody. */
  lemma FreeExactly(s: State, l: L.Lock)
    requires Inv(s) && AllOwned(s) && Modelled(l)
    ensures L.Free(LockState(s), L.Exclusive(l)) <==> HolderOf(s.world, l).None?
  {
    hide WorldOk, TaskOf, L.Held;
    forall p | p in s.procs
      ensures Agrees(s.procs[p]) && LocksOk(s.world, p, s.procs[p]) && OwnLocks(s.world, p, s.procs[p])
    {
      assert ProcOk(s.world, p, s.procs[p]);
      ClaimsAgree(s.world, p, s.procs[p]);
    }
    var holder := HolderOf(s.world, l);
    if holder.Some? {
      var q := holder.value;
      assert q in LockState(s).tasks && L.Exclusive(l) in L.Held(LockState(s).tasks[q]);
      assert L.Conflict(L.Exclusive(l), L.Exclusive(l));
    } else {
      forall q, held | q in s.procs && held in L.Held(TaskOf(s.procs[q]))
        ensures !L.Conflict(held, L.Exclusive(l))
      {
      }
    }
  }

  /** Nobody in this protocol takes a gate exclusively. */
  lemma GateIsShared(s: State)
    requires Inv(s)
    ensures L.Free(LockState(s), L.Hold(L.Gate(0), true))
  {
    hide WorldOk, TaskOf, L.Held;
    forall p | p in s.procs
      ensures Agrees(s.procs[p])
    {
      assert ProcOk(s.world, p, s.procs[p]);
      ClaimsAgree(s.world, p, s.procs[p]);
    }
  }

  // ----- freedom from deadlock -----

  /** The process has a step of the protocol. */
  ghost predicate CanAct(s: State, p: Pid) {
    p in s.procs && exists a: Action :: Effect(s.world, p, s.procs[p], a).Some?
  }

  lemma RetiringCanAct(s: State, p: Pid)
    requires p in s.procs && ProcOk(s.world, p, s.procs[p]) && Retires(s.procs[p].task)
    ensures CanAct(s, p)
  {
    var proc := s.procs[p];
    var a :=
      match proc.task
      case RetireIntent(_, _) => WriteIntent(Lost)
      case RetireJournal(_, _) => CreateJournal(Lost)
      case RetireRename(_, _) => MoveToTrash(false, 0)
      case DropJournal(_, _) => RemoveJournal(false)
      case _ => Skip;
    hide Updated, Finished, Begun, Observed, Created, Prepared, LeaseAfter, MayStart, LeaseOk, SeenOk, Evictable, LocksOk;
    assert Effect(s.world, p, proc, a).Some?;
  }

  lemma RewritingCanAct(s: State, p: Pid)
    requires p in s.procs && ProcOk(s.world, p, s.procs[p]) && Rewrites(s.procs[p].task)
    ensures CanAct(s, p)
  {
    var proc := s.procs[p];
    var a := if proc.task.Rewrite? then GiveUp else StoreManifest(Lost);
    hide Updated, LeaseAfter, MayStart, LeaseOk, SeenOk, Evictable, LocksOk;
    assert Effect(s.world, p, proc, a).Some?;
  }

  /** Reconciliation steps go on. */
  predicate Reconciles(t: Task) {
    t.ReconOriginal? || t.ReconBoth? || t.ResumeTry? || t.DeleteTry? || t.RepairSeen? || t.RepairTry? || t.Probing?
  }

  lemma ReconcilingCanAct(s: State, p: Pid)
    requires p in s.procs && Reconciles(s.procs[p].task)
    ensures CanAct(s, p)
  {
    var proc := s.procs[p];
    var a :=
      match proc.task
      case ReconOriginal(_, _, _) => LookTrash
      case ReconBoth(_, _, _, _) => Reconcile
      case ResumeTry(_, _) => TryResume
      case DeleteTry(_) => TryDelete
      case RepairSeen(_) => ProbeIntent
      case RepairTry(_) => TryRepair
      case _ => EndProbe;
    hide Updated, Finished, Begun, Observed, Created, Prepared, LeaseAfter, MayStart;
    assert Effect(s.world, p, proc, a).Some?;
  }

  lemma OtherCanAct(s: State, p: Pid)
    requires p in s.procs && ProcOk(s.world, p, s.procs[p])
    requires !Retires(s.procs[p].task) && !Rewrites(s.procs[p].task) && !Reconciles(s.procs[p].task)
    requires s.procs[p].task.WantCollection? ==> s.world.collection.None?
    requires s.procs[p].task.AdmitWait? ==> s.world.arena.None?
    ensures CanAct(s, p)
  {
    var proc := s.procs[p];
    var a :=
      match proc.task
      case Idle => Request(Collect)
      case WantCollection(_) => TakeCollection
      case AdmitTry => AdmitTryArena
      case AdmitWait => AdmitRetry
      case AdmitInspect => Skip
      case RecoverTry(_) => RecoverTryArena
      case Sweep(_) => ReleaseCollection
      case _ => ProbeSnapshot;
    hide Updated, Finished, Begun, Observed, Created, Prepared, LeaseAfter, MayStart, LeaseOk, SeenOk, Evictable, LocksOk;
    assert Effect(s.world, p, proc, a).Some?;
  }

  /** A process whose lock is free, or that waits for none, has a step. */
  lemma UnblockedCanAct(s: State, p: Pid)
    requires Inv(s) && p in s.procs
    requires WaitOf(s.procs[p].task).Some? ==> HolderOf(s.world, WaitOf(s.procs[p].task).value.l).None?
    ensures CanAct(s, p)
  {
    hide Effect, LocksOk, TaskOk, LeaseOk, CanAct;
    assert ProcOk(s.world, p, s.procs[p]);
    var t := s.procs[p].task;
    if Retires(t) {
      RetiringCanAct(s, p);
    } else if Rewrites(t) {
      RewritingCanAct(s, p);
    } else if Reconciles(t) {
      ReconcilingCanAct(s, p);
    } else {
      OtherCanAct(s, p);
    }
  }

  /** In every reachable state whoever is blocked waits, directly or through others, for a process that has a step. */
  lemma NoArenaDeadlock(states: seq<State>, events: seq<Event>, i: nat, p: Pid) returns (chain: seq<Pid>)
    requires IsRun(states, events) && i < |states| && p in states[i].procs
    requires L.Blocked(LockState(states[i]), p)
    ensures L.IsWaitChain(LockState(states[i]), chain) && chain[0] == p && CanAct(states[i], chain[|chain| - 1])
  {
    hide Effect, L.Held, L.Wants, TaskOf, Agrees, Inv, AllOwned, L.CanStep, L.Step;
    var s := states[i];
    RunsKeepLocksOwned(states, events, i);
    chain := L.BlockedWaitsForSomeoneWhoCanStep(LockState(s), p);
    var q := chain[|chain| - 1];
    L.CanStepMeansFree(LockState(s), q);
    ArenaTableAgrees(states, events, i, q);
    WaitsAreModelled(s.procs[q]);
    var wait := WaitOf(s.procs[q].task);
    if wait.Some? {
      FreeExactly(s, wait.value.l);
    }
    UnblockedCanAct(s, q);
  }

  lemma WaitsAreModelled(proc: Proc)
    requires Agrees(proc)
    ensures L.Wants(TaskOf(proc)) == WaitOf(proc.task)
    ensures WaitOf(proc.task).Some? ==>
      Modelled(WaitOf(proc.task).value.l) && WaitOf(proc.task).value == L.Exclusive(WaitOf(proc.task).value.l)
  {
  }
}
