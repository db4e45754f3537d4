/**
 The lock table agrees with the two protocols: in every state that their runs reach, each process
 holds and waits for exactly what the table says of its task.
 */
module LockTables {
  import opened Prelude
  import opened Locks
  import opened ArenaManifests
  import Arenas = ArenaProtocol
  import Proof = ArenaProtocolProof
  import Theorems = ArenaProtocolTheorems
  import W = Worktree

  // ----- the arena protocol, on arena 0 of worktree 0 -----

  function LeaseOf(lease: Arenas.Lease): Lease {
    if lease.Leased? then Lease(0, 0) else NoLease
  }

  /** The task of the lock table that a process of the arena protocol is at. */
  function TaskOf(proc: Arenas.Proc): Task {
    match proc.task
    case Idle => if proc.lease.Leased? then Leased(0, 0) else Idle
    case WantCollection(goal) => if goal.Admit? then AdmitCollection(0, 0) else WantCollection(LeaseOf(proc.lease))
    case AdmitTry => AdmitTryArena(0, 0)
    case AdmitWait => AdmitArena(0, 0)
    case AdmitInspect => Work(Lease(0, 0))
    case Rewrite(u, home) =>
      if u.Begin? then LeaseMetadata(0, 0, true)
      else if Arenas.LocksArenaItself(u) then OtherMetadata(NoLease, 0)
      else if proc.lease.Leased? then LeaseMetadata(0, 0, home.ToSweep?) else PinMetadata(0)
    case Loaded(u, home, _) =>
      if u.Begin? then LeaseWrite(0, 0, true)
      else if Arenas.LocksArenaItself(u) then OtherWork(NoLease, 0)
      else if proc.lease.Leased? then LeaseWrite(0, 0, home.ToSweep?) else PinWork(0)
    case RetireLocked(_) => OtherMetadata(NoLease, 0)
    case ResumeLocked(_, _) => OtherMetadata(NoLease, 0)
    case RetireIntent(_, _) => OtherWork(NoLease, 0)
    case RetireJournal(_, _) => OtherWork(NoLease, 0)
    case RetireRename(_, _) => OtherWork(NoLease, 0)
    case Deleting(_, hold) => WorkHolding(proc.lease, hold)
    case DropJournal(_, hold) => WorkHolding(proc.lease, hold)
    case Probing => Probing(0)
    case _ => Work(LeaseOf(proc.lease))
  }

  function WorkHolding(lease: Arenas.Lease, hold: Arenas.Hold): Task {
    match hold
    case HoldNothing => Work(LeaseOf(lease))
    case HoldArena => OtherArena(NoLease, 0)
    case HoldBoth => OtherWork(NoLease, 0)
  }

  /** The lock whose release the protocol's next step waits for. */
  function WaitOf(t: Arenas.Task): Option<Hold> {
    match t
    case WantCollection(_) => Some(Exclusive(Collection))
    case AdmitWait => Some(Exclusive(Arena(0)))
    case Rewrite(_, _) => Some(Exclusive(Metadata(0)))
    case RetireLocked(_) => Some(Exclusive(Metadata(0)))
    case ResumeLocked(_, _) => Some(Exclusive(Metadata(0)))
    case _ => None
  }

  /** The table's entry holds the locks the protocol holds, and no others but the gate of the worktree. */
  predicate Agrees(proc: Arenas.Proc) {
    var held := Held(TaskOf(proc));
    && (Exclusive(Collection) in held <==> Arenas.HoldsCollection(proc.task))
    && (Exclusive(Arena(0)) in held <==> proc.lease.Leased? || Arenas.TaskHoldsArena(proc.task))
    && (Exclusive(Metadata(0)) in held <==> Arenas.HoldsMetadata(proc.task))
    && (forall h :: h in held ==> h in {Exclusive(Collection), Exclusive(Arena(0)), Exclusive(Metadata(0)), Hold(Gate(0), true)})
    && Wants(TaskOf(proc)) == WaitOf(proc.task)
  }

  predicate Rewrites(t: Arenas.Task) {
    t.Rewrite? || t.Loaded?
  }

  predicate Retires(t: Arenas.Task) {
    t.RetireLocked? || t.RetireIntent? || t.RetireJournal? || t.RetireRename? || t.ResumeLocked? || t.Deleting? || t.DropJournal?
  }

  lemma RewritesAgree(w: Arenas.World, p: Arenas.Pid, proc: Arenas.Proc)
    requires Proof.LocksOk(w, p, proc) && Proof.TaskOk(w, proc.lease, proc.task) && Rewrites(proc.task)
    ensures Agrees(proc)
  {
    hide Updated, Proof.SeenOk, Proof.Evictable, Matches;
  }

  lemma RetirementsAgree(w: Arenas.World, p: Arenas.Pid, proc: Arenas.Proc)
    requires Proof.LocksOk(w, p, proc) && Retires(proc.task)
    ensures Agrees(proc)
  {
  }

  lemma OthersAgree(w: Arenas.World, p: Arenas.Pid, proc: Arenas.Proc)
    requires Proof.LocksOk(w, p, proc) && Proof.TaskOk(w, proc.lease, proc.task)
    requires !Rewrites(proc.task) && !Retires(proc.task)
    ensures Agrees(proc)
  {
    hide Updated, Proof.SeenOk, Proof.Evictable, Matches;
  }

  lemma ClaimsAgree(w: Arenas.World, p: Arenas.Pid, proc: Arenas.Proc)
    requires Proof.ProcOk(w, p, proc)
    ensures Agrees(proc)
  {
    hide Proof.LocksOk, Proof.TaskOk, Proof.LeaseOk, Agrees;
    if Rewrites(proc.task) {
      RewritesAgree(w, p, proc);
    } else if Retires(proc.task) {
      RetirementsAgree(w, p, proc);
    } else {
      OthersAgree(w, p, proc);
    }
  }

  /** Over every run of the arena protocol the table says what each process holds and waits for. */
  lemma ArenaTableAgrees(states: seq<Arenas.State>, events: seq<Arenas.Event>, i: nat, p: Arenas.Pid)
    requires Arenas.IsRun(states, events) && i < |states| && p in states[i].procs
    ensures Agrees(states[i].procs[p])
  {
    Theorems.RunKeepsInv(states, events, i);
    ClaimsAgree(states[i].world, p, states[i].procs[p]);
  }

  /** A step that takes a lock by waiting is impossible while somebody holds it. */
  lemma WaitingNeedsTheLock(w: Arenas.World, p: Arenas.Pid, proc: Arenas.Proc, a: Arenas.Action)
    requires Arenas.Effect(w, p, proc, a).Some? && WaitOf(proc.task).Some?
    requires Arenas.Effect(w, p, proc, a).value.0 != w && !a.GiveUp? && !a.Skip?
    ensures match WaitOf(proc.task).value.l
            case Collection => w.collection.None?
            case Arena(_) => w.arena.None?
            case _ => w.metadata.None?
  {
    hide Updated, Finished, Begun, Observed, Created, Prepared, Arenas.MayStart, Arenas.LeaseAfter;
  }

  // ----- worktrees -----

  /** The task of the lock table that a process of the worktree protocol is at; of a lease only the gate is seen there. */
  function WorktreeTaskOf(t: W.Task, id: W.Key -> nat): Task {
    match t
    case Idle => Idle
    case WantRegistry(op) => HookRegistry(if W.ByKey(op) then id(op.key) else 0, W.ByKey(op))
    case InRegistry(op) => if W.ByKey(op) then HookGate(id(op.key)) else HookTryGate(0)
    case Found(_, k, _) => HookTryGate(id(k))
    case InGate(op) => if W.ByKey(op) then HookWork(id(op.key)) else HookTryGate(0)
    case NotAliased(op) => if W.ByKey(op) then HookWork(id(op.key)) else HookTryGate(0)
    case Gated(_, k, _) => HookWork(id(k))
    case Writing(k, _, _) => HookWork(id(k))
    case WantShared(k) => AdmitGate(id(k), 0)
    case Admitted(k) => AdmitCheck(id(k), 0)
    case Leased(k) => AdmitCheck(id(k), 0)
  }

  function WorktreeWaitOf(t: W.Task, id: W.Key -> nat): Option<Hold> {
    match t
    case WantRegistry(_) => Some(Exclusive(Registry))
    case InRegistry(op) => if W.ByKey(op) then Some(Exclusive(Gate(id(op.key)))) else None
    case WantShared(k) => Some(Hold(Gate(id(k)), true))
    case _ => None
  }

  /** The same agreement for registry and gates, whatever numbers the table uses for worktrees. */
  lemma WorktreeTableAgrees(t: W.Task, id: W.Key -> nat, k: W.Key)
    requires forall x, y :: id(x) == id(y) ==> x == y
    ensures var held := Held(WorktreeTaskOf(t, id));
      && (Exclusive(Registry) in held <==> W.HoldsRegistry(t))
      && (Exclusive(Gate(id(k))) in held <==> W.GateOf(t) == Some(k))
      && (Hold(Gate(id(k)), true) in held <==> W.SharedGateOf(t) == Some(k))
      && Wants(WorktreeTaskOf(t, id)) == WorktreeWaitOf(t, id)
  {
  }
}
