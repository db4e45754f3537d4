/**
 The protocol every process follows on one arena identity: admission, the lease and its child
 process, collection and retirement, reconciliation of interrupted retirements, pins and
 operator recovery. Any number of processes interleave, each file system call and each lock
 acquisition is one step, and a process may die between any two of its steps.

 A step that reads the manifest keeps its own copy; the copy is only safe to act on because of
 the locks held since. Deleting a retired tree takes many steps.
 */
module ArenaProtocol {
  import opened Prelude
  import opened Runs
  import opened ArenaManifests

  type Pid = nat

  // ----- what is on disk, which locks are held, and whether the arena's Cargo tree may be alive -----

  /** A retired tree: the manifest it carried and the clock when it was renamed, and what is left to delete. */
  datatype Tree = Tree(manifest: Manifest, retiredAt: nat, pieces: nat)

  /**
   What processes share. `alive` says whether some Cargo tree of the arena may be alive; only after a
   stale confirmation can there be two, and then the exit of the newer one clears it for both.
   */
  datatype World = World(
    now: nat,
    collection: Option<Pid>,
    arena: Option<Pid>,
    metadata: Option<Pid>,
    original: Option<Manifest>,
    trash: map<Id, Tree>,
    journals: map<Id, nat>,
    used: set<Id>,
    alive: bool)

  // ----- where a process is -----

  datatype Child = NotTried | Running | Gone

  datatype Lease = NoLease | Leased(stage: Stage, child: Child)

  datatype Goal = Admit | Collect | RecoverSuspect(highWater: nat, measured: Option<nat>)

  /** Where a manifest rewrite returns to: nothing held, or the collection lock still held. */
  datatype Home = ToIdle | ToSweep

  /** The arena lock alone, both arena and metadata locks, or neither. */
  datatype Hold = HoldNothing | HoldArena | HoldBoth

  datatype Task =
    | Idle
    | WantCollection(goal: Goal)
    | AdmitTry | AdmitWait | AdmitInspect
    | RecoverTry(recovery: Goal)
    | Rewrite(update: Update, home: Home)
    | Loaded(update: Update, home: Home, read: Manifest)
    | Sweep(plan: Option<Manifest>)
    | Snapshot(seen: Manifest, observedAt: nat)
    | RetireLocked(planned: Manifest)
    | RetireIntent(current: Manifest, nonce: Id)
    | RetireJournal(nonce: Id, revision: nat)
    | RetireRename(nonce: Id, undo: bool)
    | Deleting(nonce: Id, hold: Hold)
    | DropJournal(nonce: Id, hold: Hold)
    | ReconOriginal(nonce: Id, revision: nat, present: bool)
    | ReconBoth(nonce: Id, revision: nat, present: bool, trashed: bool)
    | ResumeTry(nonce: Id, revision: nat)
    | ResumeLocked(nonce: Id, revision: nat)
    | DeleteTry(nonce: Id)
    | RepairSeen(nonce: Id)
    | RepairTry(nonce: Id)
    | Probing

  datatype Proc = Proc(lease: Lease, task: Task)

  datatype State = State(world: World, procs: map<Pid, Proc>)

  /** The updates performed under an arena lock that the process took for this one rewrite. */
  predicate LocksArenaItself(u: Update) {
    u.Begin? || u.Recover? || u.Clear?
  }

  predicate HoldsCollection(t: Task) {
    match t
    case Idle => false
    case WantCollection(_) => false
    case AdmitWait => false
    case Probing => false
    case Rewrite(_, home) => home.ToSweep?
    case Loaded(_, home, _) => home.ToSweep?
    case _ => true
  }

  predicate TaskHoldsArena(t: Task) {
    match t
    case Probing => true
    case AdmitInspect => true
    case Rewrite(u, _) => LocksArenaItself(u)
    case Loaded(u, _, _) => LocksArenaItself(u)
    case RetireLocked(_) => true
    case RetireIntent(_, _) => true
    case RetireJournal(_, _) => true
    case RetireRename(_, _) => true
    case Deleting(_, hold) => !hold.HoldNothing?
    case DropJournal(_, hold) => !hold.HoldNothing?
    case ResumeLocked(_, _) => true
    case _ => false
  }

  predicate HoldsMetadata(t: Task) {
    match t
    case Loaded(_, _, _) => true
    case RetireIntent(_, _) => true
    case RetireJournal(_, _) => true
    case RetireRename(_, _) => true
    case Deleting(_, hold) => hold.HoldBoth?
    case DropJournal(_, hold) => hold.HoldBoth?
    case _ => false
  }

  // ----- the steps -----

  datatype Action =
    // admission and lease
    | Request(goal: Goal)
    | TakeCollection
    | AdmitTryArena
    | AdmitRetry
    | PromoteStaged(unused: Id, size: nat, finished: nat)
    | AdmitNew(unused: Id, reservation: nat, size: nat)
    | AdmitExisting(reservation: nat, size: nat)
    | StartRewrite(update: Update)
    | GiveUp
    | LoadManifest
    | StoreManifest(write: Write)
    | SpawnChild
    | ChildExits
    | DropLease
    | RecoverTryArena
    // an inventory taken without the collection lock
    | ProbeArena
    | EndProbe
    // collection
    | ReleaseCollection
    | ReadSnapshot
    | ProbeSnapshot
    | TryRetire
    | CheckRetire(unused: Id)
    | WriteIntent(write: Write)
    | CreateJournal(write: Write)
    | MoveToTrash(moved: bool, pieces: nat)
    | DeletePiece
    | DeleteRoot
    | RemoveJournal(removed: bool)
    | Skip
    // reconciliation
    | LookOriginal(journal: Id)
    | LookTrash
    | Reconcile
    | TryResume
    | CheckResume
    | TryDelete
    | LookIntent
    | ProbeIntent
    | TryRepair

  /** The home a lease holder or pinning process returns to. */
  function HomeOf(t: Task): Home {
    if t.Sweep? then ToSweep else ToIdle
  }

  function At(home: Home): Task {
    match home
    case ToIdle => Idle
    case ToSweep => Sweep(None)
  }

  /** Which rewrites a process may start, given its lease. */
  predicate MayStart(lease: Lease, t: Task, u: Update) {
    match u
    case SetPin(_, _) => t.Idle?
    case MarkSpawning => t.Idle? && lease.Leased? && lease.stage.Reserved?
    case MarkSpawned => t.Idle? && lease.Leased? && lease.stage.Spawning? && lease.child.Running?
    case Finish(outcome, _, _, _) =>
      (t.Idle? || t.Sweep?) && lease.Leased? && !lease.child.Running? && OutcomeAllowed(lease.stage, outcome)
    case _ => false
  }

  /** What a completed or failed write of the loaded manifest does to the process's lease. */
  function LeaseAfter(lease: Lease, u: Update, write: Write): Lease {
    match u
    case Begin(_, _, _) => if write.Lost? then lease else Leased(Reserved, NotTried)
    case MarkSpawning => if write.Applied? && lease.Leased? then lease.(stage := Spawning) else lease
    case MarkSpawned => if write.Applied? && lease.Leased? then lease.(stage := Spawned) else lease
    case Finish(_, _, _, _) => if write.Lost? then lease else NoLease
    case _ => lease
  }

  function ReleaseHold(w: World, hold: Hold): World {
    match hold
    case HoldNothing => w
    case HoldArena => w.(arena := None)
    case HoldBoth => w.(arena := None, metadata := None)
  }

  /** One step of process `p`, or None when the step is not possible now. */
  function Effect(w: World, p: Pid, proc: Proc, a: Action): Option<(World, Proc)> {
    match a
    case Request(goal) =>
      if proc.task.Idle? && (!goal.Collect? ==> proc.lease.NoLease?)
      then Some((w, proc.(task := WantCollection(goal)))) else None
    case TakeCollection =>
      if proc.task.WantCollection? && w.collection.None? then
        Some((w.(collection := Some(p)), proc.(task :=
          match proc.task.goal
          case Admit => AdmitTry
          case Collect => Sweep(None)
          case RecoverSuspect(_, _) => RecoverTry(proc.task.goal))))
      else None
    case AdmitTryArena =>
      if !proc.task.AdmitTry? then None
      else if w.arena.None? then Some((w.(arena := Some(p)), proc.(task := AdmitInspect)))
      else Some((w.(collection := None), proc.(task := AdmitWait)))
    case AdmitRetry =>
      if proc.task.AdmitWait? && w.arena.None? then Some((w, proc.(task := WantCollection(Admit)))) else None
    case PromoteStaged(unused, size, finished) =>
      if (proc.task.AdmitInspect? || proc.task == Sweep(None)) && w.original.None? && unused !in w.used then
        var staged := Observed(Begun(Created(0, Some(unused), w.now), 0, w.now), size);
        var m := Finished(staged, NotStarted, size, Some(size), finished).value;
        Some((w.(original := Some(m), used := w.used + {unused}), proc))
      else None
    case AdmitNew(unused, reservation, size) =>
      if proc.task.AdmitInspect? && w.original.None? && unused !in w.used && proc.lease.NoLease? then
        var m := Observed(Begun(Created(0, Some(unused), w.now), reservation, w.now), size);
        Some((w.(original := Some(m), used := w.used + {unused}), Proc(Leased(Reserved, NotTried), Sweep(None))))
      else None
    case AdmitExisting(reservation, size) =>
      if proc.task.AdmitInspect? && w.original.Some? && proc.lease.NoLease?
      then Some((w, proc.(task := Rewrite(Begin(reservation, size, w.now), ToSweep)))) else None
    case StartRewrite(u) =>
      if MayStart(proc.lease, proc.task, u) then Some((w, proc.(task := Rewrite(u, HomeOf(proc.task))))) else None
    case GiveUp =>
      if proc.task.Rewrite? then
        Some((if LocksArenaItself(proc.task.update) then w.(arena := None) else w, proc.(task := At(proc.task.home))))
      else None
    case LoadManifest =>
      if proc.task.Rewrite? && w.metadata.None? && w.original.Some? && Updated(w.original.value, proc.task.update).Some?
         && w.original.value.revision < U64_MAX then
        Some((w.(metadata := Some(p)), proc.(task := Loaded(proc.task.update, proc.task.home, w.original.value))))
      else None
    case StoreManifest(write) =>
      if proc.task.Loaded? && Updated(proc.task.read, proc.task.update).Some? then
        var u := proc.task.update;
        var lease := LeaseAfter(proc.lease, u, write);
        var written := if write.Lost? then w else w.(original := Updated(proc.task.read, u));
        var freed := if lease.NoLease? && (LocksArenaItself(u) || u.Finish?) then written.(arena := None) else written;
        Some((freed.(metadata := None), Proc(lease, At(proc.task.home))))
      else None
    case SpawnChild =>
      if proc.task.Idle? && proc.lease == Leased(Spawning, NotTried)
      then Some((w.(alive := true), proc.(lease := Leased(Spawning, Running)))) else None
    case ChildExits =>
      if proc.task.Idle? && proc.lease.Leased? && proc.lease.child.Running?
      then Some((w.(alive := false), proc.(lease := proc.lease.(child := Gone)))) else None
    case DropLease =>
      if (proc.task.Idle? || proc.task.Sweep?) && proc.lease.Leased?
      then Some((w.(arena := None), proc.(lease := NoLease))) else None
    case RecoverTryArena =>
      if !proc.task.RecoverTry? || !proc.task.recovery.RecoverSuspect? then None
      else if w.arena.None? then
        var g := proc.task.recovery;
        Some((w.(arena := Some(p)), proc.(task := Rewrite(Recover(g.highWater, g.measured, w.now), ToSweep))))
      else Some((w, proc.(task := Sweep(None))))
    case ProbeArena =>
      if proc.task.Idle? && proc.lease.NoLease? && w.arena.None?
      then Some((w.(arena := Some(p)), proc.(task := Probing))) else None
    case EndProbe =>
      if proc.task.Probing? then Some((w.(arena := None), proc.(task := Idle))) else None
    case ReleaseCollection =>
      if proc.task.Sweep? then Some((w.(collection := None), proc.(task := Idle))) else None
    case ReadSnapshot =>
      if proc.task.Sweep? && w.original.Some?
      then Some((w, proc.(task := Snapshot(w.original.value, w.now)))) else None
    case ProbeSnapshot =>
      if proc.task.Snapshot? then
        var m := proc.task.seen;
        var candidate := w.arena.None? && !m.IsUnfinished() && m.retirementId.None? && !m.IsPinnedAt(proc.task.observedAt);
        Some((w, proc.(task := Sweep(if candidate then Some(m) else None))))
      else None
    case TryRetire =>
      if !proc.task.Sweep? || proc.task.plan.None? then None
      else if w.arena.None? then Some((w.(arena := Some(p)), proc.(task := RetireLocked(proc.task.plan.value))))
      else Some((w, proc.(task := Sweep(None))))
    case CheckRetire(unused) =>
      if proc.task.RetireLocked? && w.metadata.None? && w.original.Some?
         && w.original.value.revision == proc.task.planned.revision && w.original.value.revision < U64_MAX
         && !w.original.value.IsPinnedAt(w.now) && unused !in w.used then
        Some((w.(metadata := Some(p), used := w.used + {unused}), proc.(task := RetireIntent(w.original.value, unused))))
      else None
    case WriteIntent(write) =>
      if proc.task.RetireIntent? then
        var m := Prepared(proc.task.current, proc.task.nonce);
        var written := if write.Lost? then w else w.(original := Some(m));
        if write.Applied? then Some((written, proc.(task := RetireJournal(proc.task.nonce, m.revision))))
        else Some((ReleaseHold(written, HoldBoth), proc.(task := Sweep(None))))
      else None
    case CreateJournal(write) =>
      if proc.task.RetireJournal? then
        var written := if write.Lost? then w else w.(journals := w.journals[proc.task.nonce := proc.task.revision]);
        if write.Applied? then Some((written, proc.(task := RetireRename(proc.task.nonce, true))))
        else Some((ReleaseHold(written, HoldBoth), proc.(task := Sweep(None))))
      else None
    case MoveToTrash(moved, pieces) =>
      if proc.task.RetireRename? && w.original.Some? then
        var n := proc.task.nonce;
        if moved then
          Some((w.(original := None, trash := w.trash[n := Tree(w.original.value, w.now, pieces)]),
                proc.(task := Deleting(n, HoldBoth))))
        else if proc.task.undo then Some((w, proc.(task := DropJournal(n, HoldBoth))))
        else Some((ReleaseHold(w, HoldBoth), proc.(task := Sweep(None))))
      else None
    case DeletePiece =>
      if proc.task.Deleting? && proc.task.nonce in w.trash && w.trash[proc.task.nonce].pieces > 0 then
        var tree := w.trash[proc.task.nonce];
        Some((w.(trash := w.trash[proc.task.nonce := tree.(pieces := tree.pieces - 1)]), proc))
      else None
    case DeleteRoot =>
      if proc.task.Deleting? && proc.task.nonce in w.trash && w.trash[proc.task.nonce].pieces == 0 then
        Some((w.(trash := w.trash - {proc.task.nonce}), proc.(task := DropJournal(proc.task.nonce, proc.task.hold))))
      else None
    case RemoveJournal(removed) =>
      if proc.task.DropJournal? then
        var written := if removed then w.(journals := w.journals - {proc.task.nonce}) else w;
        Some((ReleaseHold(written, proc.task.hold), proc.(task := Sweep(None))))
      else None
    case Skip =>
      match proc.task {
        case RetireLocked(_) => Some((ReleaseHold(w, HoldArena), proc.(task := Sweep(None))))
        case ResumeLocked(_, _) => Some((ReleaseHold(w, HoldArena), proc.(task := Sweep(None))))
        case Deleting(_, hold) => Some((ReleaseHold(w, hold), proc.(task := Sweep(None))))
        case AdmitInspect => Some((ReleaseHold(w, HoldArena), proc.(task := Sweep(None))))
        case _ => None
      }
    case LookOriginal(n) =>
      if proc.task.Sweep? && n in w.journals
      then Some((w, proc.(task := ReconOriginal(n, w.journals[n], w.original.Some?)))) else None
    case LookTrash =>
      if proc.task.ReconOriginal? then
        var t := proc.task;
        Some((w, proc.(task := ReconBoth(t.nonce, t.revision, t.present, t.nonce in w.trash))))
      else None
    case Reconcile =>
      if proc.task.ReconBoth? then
        var t := proc.task;
        var next :=
          if !t.present && !t.trashed then DropJournal(t.nonce, HoldNothing)
          else if t.present && !t.trashed then ResumeTry(t.nonce, t.revision)
          else if t.present && w.original.Some? && w.original.value.retirementId == Some(t.nonce)
                  && w.original.value.revision == t.revision then Sweep(None)
          else DeleteTry(t.nonce);
        Some((w, proc.(task := next)))
      else None
    case TryResume =>
      if !proc.task.ResumeTry? then None
      else if w.arena.None? then
        Some((w.(arena := Some(p)), proc.(task := ResumeLocked(proc.task.nonce, proc.task.revision))))
      else Some((w, proc.(task := Sweep(None))))
    case CheckResume =>
      if proc.task.ResumeLocked? && w.metadata.None? && w.original.Some?
         && w.original.value.retirementId == Some(proc.task.nonce) && w.original.value.revision == proc.task.revision then
        Some((w.(metadata := Some(p)), proc.(task := RetireRename(proc.task.nonce, false))))
      else None
    case TryDelete =>
      if !proc.task.DeleteTry? then None
      else if w.arena.None? then Some((w.(arena := Some(p)), proc.(task := Deleting(proc.task.nonce, HoldArena))))
      else Some((w, proc.(task := Sweep(None))))
    case LookIntent =>
      if proc.task.Sweep? && w.original.Some? && w.original.value.retirementId.Some?
      then Some((w, proc.(task := RepairSeen(w.original.value.retirementId.value)))) else None
    case ProbeIntent =>
      if proc.task.RepairSeen? then
        Some((w, proc.(task := if proc.task.nonce in w.journals then Sweep(None) else RepairTry(proc.task.nonce))))
      else None
    case TryRepair =>
      if !proc.task.RepairTry? then None
      else if w.arena.None? then
        Some((w.(arena := Some(p)), proc.(task := Rewrite(Clear(proc.task.nonce), ToSweep))))
      else Some((w, proc.(task := Sweep(None))))
  }

  function ReleasedBy(holder: Option<Pid>, p: Pid): Option<Pid> {
    if holder == Some(p) then None else holder
  }

  /** Locks vanish with the process that holds them; documents and directories do not. */
  function AfterDeath(w: World, p: Pid): World {
    w.(collection := ReleasedBy(w.collection, p), arena := ReleasedBy(w.arena, p), metadata := ReleasedBy(w.metadata, p))
  }

  datatype Event =
    | Acts(pid: Pid, action: Action)
    | Joins(pid: Pid)
    | Dies(pid: Pid)
    | TimePasses(to: nat)
    | TreeExits

  /** The state after an event, or None when the event cannot happen. */
  function Next(s: State, e: Event): Option<State> {
    match e
    case Acts(p, a) =>
      if p !in s.procs then None
      else
        match Effect(s.world, p, s.procs[p], a) {
          case Some((w, proc)) => Some(State(w, s.procs[p := proc]))
          case None => None
        }
    case Joins(p) => if p in s.procs then None else Some(s.(procs := s.procs[p := Proc(NoLease, Idle)]))
    case Dies(p) => if p in s.procs then Some(State(AfterDeath(s.world, p), s.procs - {p})) else None
    case TimePasses(to) => if s.world.now <= to then Some(s.(world := s.world.(now := to))) else None
    case TreeExits => Some(s.(world := s.world.(alive := false)))
  }

  const START: State := State(World(0, None, None, None, None, map[], map[], {}, false), map[])

  /** A run: the states of any interleaving of any number of processes, with deaths anywhere. */
  ghost predicate IsRun(states: seq<State>, events: seq<Event>) {
    IsRunOf(START, Next, states, events)
  }
}
