/**
 The invariant of the arena protocol, proved by rely and guarantee: each process relies only on
 what its locks protect, and each step of any process leaves every other process's reliance intact.
 */
module ArenaProtocolProof {
  import opened Prelude
  import opened ArenaManifests
  import opened ArenaProtocol

  // ----- what holds of the documents and directories in every reachable state -----

  /** Not pinned now, and so at no later time. */
  predicate Evictable(m: Manifest, now: nat) {
    !m.IsUnfinished() && !m.IsPinnedAt(now)
  }

  /** A retired tree is journalled, was renamed under exactly its journal, and is no part of a newer arena. */
  ghost predicate TrashOk(w: World, n: Id)
    requires n in w.trash
  {
    var m := w.trash[n].manifest;
    && n in w.journals && Matches(m, n, w.journals[n])
    && w.trash[n].retiredAt <= w.now && Evictable(m, w.trash[n].retiredAt)
    && m.initializationId.Some? && m.initializationId.value in w.used
    && (w.original.Some? ==> w.original.value.initializationId != m.initializationId && w.original.value.retirementId != Some(n))
  }

  /** An arena that still matches a journal may be retired; one that was changed since never matches again. */
  ghost predicate JournalOk(w: World, n: Id)
    requires n in w.journals
  {
    w.original.Some? && w.original.value.retirementId == Some(n) ==>
      && w.journals[n] <= w.original.value.revision
      && (w.journals[n] == w.original.value.revision ==> Evictable(w.original.value, w.now))
  }

  ghost predicate OriginalOk(w: World) {
    w.original.Some? ==>
      && Coherent(w.original.value)
      && w.original.value.initializationId.Some? && w.original.value.initializationId.value in w.used
      && (w.original.value.retirementId.Some? ==> w.original.value.retirementId.value in w.used)
  }

  ghost predicate WorldOk(w: World) {
    && OriginalOk(w)
    && w.journals.Keys <= w.used && w.trash.Keys <= w.used
    && (forall n :: n in w.trash ==> TrashOk(w, n))
    && (forall n, k :: n in w.trash && k in w.trash && n != k ==>
          w.trash[n].manifest.initializationId != w.trash[k].manifest.initializationId)
    && (forall n :: n in w.journals ==> JournalOk(w, n))
  }

  // ----- what each process may rely on -----

  ghost predicate LocksOk(w: World, p: Pid, proc: Proc) {
    && (HoldsCollection(proc.task) ==> w.collection == Some(p))
    && (proc.lease.Leased? || TaskHoldsArena(proc.task) ==> w.arena == Some(p))
    && (HoldsMetadata(proc.task) ==> w.metadata == Some(p))
    && !(proc.lease.Leased? && TaskHoldsArena(proc.task))
  }

  /** The stage in memory may lag the manifest by one write that was reported as an error. */
  predicate StageMatches(memory: Stage, durable: Stage) {
    match memory
    case Reserved => durable in {Reserved, Spawning}
    case Spawning => durable in {Spawning, Spawned}
    case Spawned => durable == Spawned
    case Finalized => false
  }

  ghost predicate LeaseOk(w: World, lease: Lease) {
    lease.Leased? ==>
      && w.original.Some? && w.original.value.IsUnfinished()
      && StageMatches(lease.stage, w.original.value.EffectiveStage())
      && (lease.stage.Reserved? ==> lease.child.NotTried?)
  }

  /** The planned manifest is still the arena's manifest whenever the revisions agree. */
  ghost predicate SeenOk(w: World, seen: Manifest) {
    w.original.Some? ==>
      && seen.revision <= w.original.value.revision
      && (seen.revision == w.original.value.revision ==> seen == w.original.value)
  }

  predicate RewriteOk(lease: Lease, u: Update, home: Home) {
    match u
    case SetPin(_, _) => home.ToIdle?
    case MarkSpawning => lease.Leased? && lease.stage.Reserved?
    case MarkSpawned => lease.Leased? && lease.stage.Spawning? && lease.child.Running?
    case Finish(_, _, _, _) => lease.Leased? && !lease.child.Running?
    case Prepare(_) => false
    case _ => lease.NoLease? && home.ToSweep?
  }

  ghost predicate TaskOk(w: World, lease: Lease, t: Task) {
    match t
    case WantCollection(goal) => goal.Collect? || lease.NoLease?
    case AdmitTry => lease.NoLease?
    case AdmitWait => lease.NoLease?
    case RecoverTry(goal) => goal.RecoverSuspect? && lease.NoLease?
    case Rewrite(u, home) => RewriteOk(lease, u, home)
    case Loaded(u, home, m) =>
      && RewriteOk(lease, u, home) && w.original == Some(m) && Updated(m, u).Some? && m.revision < U64_MAX
    case Sweep(plan) => plan.Some? ==> !plan.value.IsUnfinished() && plan.value.retirementId.None? && SeenOk(w, plan.value)
    case Snapshot(seen, _) => SeenOk(w, seen)
    case RetireLocked(planned) => !planned.IsUnfinished() && planned.retirementId.None? && SeenOk(w, planned)
    case RetireIntent(m, n) =>
      && w.original == Some(m) && Evictable(m, w.now) && m.retirementId.None? && m.revision < U64_MAX
      && n in w.used && n !in w.journals && n !in w.trash
    case RetireJournal(n, revision) =>
      && w.original.Some? && Matches(w.original.value, n, revision) && Evictable(w.original.value, w.now)
      && n in w.used && n !in w.journals && n !in w.trash
    case RetireRename(n, _) => w.original.Some? && n in w.journals && Matches(w.original.value, n, w.journals[n])
    case Deleting(n, _) => n in w.trash
    case DeleteTry(n) => n in w.trash
    case DropJournal(n, _) => n !in w.trash
    case ReconOriginal(n, revision, present) =>
      n in w.journals && w.journals[n] == revision && present == w.original.Some?
    case ReconBoth(n, revision, present, trashed) =>
      n in w.journals && w.journals[n] == revision && present == w.original.Some? && trashed == (n in w.trash)
    case ResumeTry(n, revision) => n in w.journals && w.journals[n] == revision
    case ResumeLocked(n, revision) => n in w.journals && w.journals[n] == revision
    case _ => true
  }

  ghost predicate ProcOk(w: World, p: Pid, proc: Proc) {
    LocksOk(w, p, proc) && LeaseOk(w, proc.lease) && TaskOk(w, proc.lease, proc.task)
  }

  ghost predicate Inv(s: State) {
    WorldOk(s.world) && forall p :: p in s.procs ==> ProcOk(s.world, p, s.procs[p])
  }

  // ----- rely and guarantee -----

  /** What a step of anyone else leaves intact for `q`, lock by lock. */
  ghost predicate Rely(w: World, after: World, q: Pid) {
    && w.now <= after.now && w.used <= after.used
    && (w.collection == Some(q) ==>
          && after.collection == Some(q) && after.journals == w.journals && after.trash == w.trash
          && after.original.Some? == w.original.Some?
          && (w.original.Some? ==>
                after.original == w.original || after.original.value.revision > w.original.value.revision))
    && (w.metadata == Some(q) ==> after.metadata == Some(q) && (w.original.Some? ==> after.original == w.original))
    && (w.arena == Some(q) ==>
          && after.arena == Some(q)
          && (w.original.Some? ==>
                && after.original.Some?
                && after.original.value.EffectiveStage() == w.original.value.EffectiveStage()
                && after.original.value.IsUnfinished() == w.original.value.IsUnfinished()))
  }

  lemma RelyKeepsProc(w: World, after: World, q: Pid, proc: Proc)
    requires ProcOk(w, q, proc) && Rely(w, after, q)
    ensures ProcOk(after, q, proc)
  {
  }

  /** A step of `p` keeps the documents sound, its own claims true and everyone else's reliance intact. */
  ghost predicate Safe(w: World, p: Pid, result: (World, Proc)) {
    && WorldOk(result.0)
    && ProcOk(result.0, p, result.1)
    && forall q :: q != p ==> Rely(w, result.0, q)
  }

  /** Only locks change, and only between free and held by `p`. */
  predicate OnlyLocks(w: World, after: World, p: Pid) {
    && after == w.(collection := after.collection, arena := after.arena, metadata := after.metadata)
    && (after.collection == w.collection || (w.collection in {None, Some(p)} && after.collection in {None, Some(p)}))
    && (after.arena == w.arena || (w.arena in {None, Some(p)} && after.arena in {None, Some(p)}))
    && (after.metadata == w.metadata || (w.metadata in {None, Some(p)} && after.metadata in {None, Some(p)}))
  }

  lemma LocksAreSafe(w: World, after: World, p: Pid, proc: Proc)
    requires WorldOk(w) && OnlyLocks(w, after, p) && ProcOk(after, p, proc)
    ensures Safe(w, p, (after, proc))
  {
  }

  predicate AdmissionStep(a: Action) {
    a.Request? || a.TakeCollection? || a.AdmitTryArena? || a.AdmitRetry? || a.AdmitExisting? || a.RecoverTryArena?
    || a.ReleaseCollection? || a.ProbeArena? || a.EndProbe?
  }

  predicate LeaseStep(a: Action) {
    a.StartRewrite? || a.GiveUp? || a.LoadManifest? || a.DropLease?
  }

  predicate SnapshotStep(a: Action) {
    a.ReadSnapshot? || a.ProbeSnapshot? || a.TryRetire? || a.Skip?
  }

  predicate RepairStep(a: Action) {
    a.LookIntent? || a.ProbeIntent? || a.TryRepair?
  }

  predicate LookStep(a: Action) {
    a.LookOriginal? || a.LookTrash? || a.Reconcile?
  }

  predicate ResumeStep(a: Action) {
    a.TryResume? || a.CheckResume? || a.TryDelete?
  }

  lemma AdmissionKeepsOwnClaims(w: World, p: Pid, proc: Proc, a: Action)
    requires ProcOk(w, p, proc) && Effect(w, p, proc, a).Some? && AdmissionStep(a)
    ensures var (after, proc') := Effect(w, p, proc, a).value; OnlyLocks(w, after, p) && ProcOk(after, p, proc')
  {
    hide Updated, Finished, Begun, Observed, Created, Prepared, MayStart, LeaseAfter, OutcomeAllowed;
  }

  lemma LeaseKeepsOwnClaims(w: World, p: Pid, proc: Proc, a: Action)
    requires ProcOk(w, p, proc) && Effect(w, p, proc, a).Some? && LeaseStep(a)
    ensures var (after, proc') := Effect(w, p, proc, a).value; OnlyLocks(w, after, p) && ProcOk(after, p, proc')
  {
    hide Finished, Begun, Observed, Created, Prepared, LeaseAfter, OutcomeAllowed;
  }

  lemma SnapshotKeepsOwnClaims(w: World, p: Pid, proc: Proc, a: Action)
    requires ProcOk(w, p, proc) && Effect(w, p, proc, a).Some? && SnapshotStep(a)
    ensures var (after, proc') := Effect(w, p, proc, a).value; OnlyLocks(w, after, p) && ProcOk(after, p, proc')
  {
    hide Updated, Finished, Begun, Observed, Created, Prepared, MayStart, LeaseAfter, OutcomeAllowed;
  }

  lemma RepairKeepsOwnClaims(w: World, p: Pid, proc: Proc, a: Action)
    requires ProcOk(w, p, proc) && Effect(w, p, proc, a).Some? && RepairStep(a)
    ensures var (after, proc') := Effect(w, p, proc, a).value; OnlyLocks(w, after, p) && ProcOk(after, p, proc')
  {
    hide Updated, Finished, Begun, Observed, Created, Prepared, MayStart, LeaseAfter, OutcomeAllowed;
  }

  lemma LookKeepsOwnClaims(w: World, p: Pid, proc: Proc, a: Action)
    requires ProcOk(w, p, proc) && Effect(w, p, proc, a).Some? && LookStep(a)
    ensures var (after, proc') := Effect(w, p, proc, a).value; OnlyLocks(w, after, p) && ProcOk(after, p, proc')
  {
    hide Updated, Finished, Begun, Observed, Created, Prepared, MayStart, LeaseAfter, OutcomeAllowed;
  }

  lemma ResumeKeepsOwnClaims(w: World, p: Pid, proc: Proc, a: Action)
    requires ProcOk(w, p, proc) && Effect(w, p, proc, a).Some? && ResumeStep(a)
    ensures var (after, proc') := Effect(w, p, proc, a).value; OnlyLocks(w, after, p) && ProcOk(after, p, proc')
  {
    hide Updated, Finished, Begun, Observed, Created, Prepared, MayStart, LeaseAfter, OutcomeAllowed;
  }

  /** The steps that only read, remember, and take or release locks. */
  predicate ReadingStep(a: Action) {
    AdmissionStep(a) || LeaseStep(a) || SnapshotStep(a) || RepairStep(a) || LookStep(a) || ResumeStep(a)
  }

  lemma ReadingIsSafe(w: World, p: Pid, proc: Proc, a: Action)
    requires WorldOk(w) && ProcOk(w, p, proc) && Effect(w, p, proc, a).Some? && ReadingStep(a)
    ensures Safe(w, p, Effect(w, p, proc, a).value)
  {
    hide Safe, WorldOk, ProcOk, Effect, OnlyLocks;
    if AdmissionStep(a) {
      AdmissionKeepsOwnClaims(w, p, proc, a);
    } else if LeaseStep(a) {
      LeaseKeepsOwnClaims(w, p, proc, a);
    } else if SnapshotStep(a) {
      SnapshotKeepsOwnClaims(w, p, proc, a);
    } else if RepairStep(a) {
      RepairKeepsOwnClaims(w, p, proc, a);
    } else if LookStep(a) {
      LookKeepsOwnClaims(w, p, proc, a);
    } else {
      ResumeKeepsOwnClaims(w, p, proc, a);
    }
    var (after, proc') := Effect(w, p, proc, a).value;
    LocksAreSafe(w, after, p, proc');
  }

  // ----- the steps that write -----

  /** A new manifest carries the fresh initialization id and no intent. */
  lemma CreationEffect(w: World, p: Pid, proc: Proc, a: Action)
    requires Effect(w, p, proc, a).Some? && (a.PromoteStaged? || a.AdmitNew?)
    ensures var (after, proc') := Effect(w, p, proc, a).value;
      && w.original.None? && a.unused !in w.used && HoldsCollection(proc.task)
      && after == w.(original := after.original, used := w.used + {a.unused})
      && after.original.Some? && Coherent(after.original.value)
      && after.original.value.initializationId == Some(a.unused) && after.original.value.retirementId.None?
      && (a.PromoteStaged? ==> proc' == proc && (proc.task.AdmitInspect? || proc.task == Sweep(None)))
      && (a.AdmitNew? ==>
            && proc.task.AdmitInspect? && proc.lease.NoLease? && proc' == Proc(Leased(Reserved, NotTried), Sweep(None))
            && after.original.value.IsUnfinished() && after.original.value.EffectiveStage() == Reserved)
  {
    hide MayStart, ReleaseHold;
  }

  /** A new arena appears only where there was none, with an initialization id nothing else carries. */
  lemma CreationIsSafe(w: World, p: Pid, proc: Proc, a: Action)
    requires WorldOk(w) && ProcOk(w, p, proc) && Effect(w, p, proc, a).Some? && (a.PromoteStaged? || a.AdmitNew?)
    ensures Safe(w, p, Effect(w, p, proc, a).value)
  {
    hide Effect;
    CreationEffect(w, p, proc, a);
  }

  lemma ChildIsSafe(w: World, p: Pid, proc: Proc, a: Action)
    requires WorldOk(w) && ProcOk(w, p, proc) && Effect(w, p, proc, a).Some? && (a.SpawnChild? || a.ChildExits?)
    ensures Safe(w, p, Effect(w, p, proc, a).value)
  {
  }

  /** The documents stay sound under a rewrite of the manifest that was read and is still current. */
  lemma RewriteKeepsWorld(w: World, m: Manifest, u: Update, after: World)
    requires WorldOk(w) && w.original == Some(m) && Updated(m, u).Some? && m.revision < U64_MAX
    requires !u.Prepare?
    requires after == w.(original := Updated(m, u), arena := after.arena, metadata := after.metadata)
    ensures WorldOk(after)
  {
    var next := Updated(m, u).value;
    CoherenceIsKept(m, u);
    assert next == m || next.revision > m.revision;
    assert next.initializationId == m.initializationId;
    assert next.retirementId == m.retirementId || next.retirementId.None?;
    forall n | n in w.journals
      ensures JournalOk(after, n)
    {
      assert JournalOk(w, n);
    }
    forall n | n in w.trash
      ensures TrashOk(after, n)
    {
      assert TrashOk(w, n);
    }
  }

  /** What the read-modify-write of the manifest does to the world. */
  lemma StoreEffect(w: World, p: Pid, proc: Proc, a: Action)
    requires Effect(w, p, proc, a).Some? && a.StoreManifest?
    ensures proc.task.Loaded? && Updated(proc.task.read, proc.task.update).Some?
    ensures var (after, proc') := Effect(w, p, proc, a).value;
      var u, lease := proc.task.update, LeaseAfter(proc.lease, proc.task.update, a.write);
      && proc' == Proc(lease, At(proc.task.home))
      && after == w.(original := if a.write.Lost? then w.original else Updated(proc.task.read, u),
                     arena := if lease.NoLease? && (LocksArenaItself(u) || u.Finish?) then None else w.arena,
                     metadata := None)
  {
    hide Updated, Finished, MayStart, LeaseAfter, ReleaseHold;
  }

  /** The writer's own claims after the rewrite. */
  lemma StoreKeepsOwnClaims(w: World, p: Pid, proc: Proc, a: Action)
    requires ProcOk(w, p, proc) && Effect(w, p, proc, a).Some? && a.StoreManifest?
    ensures ProcOk(Effect(w, p, proc, a).value.0, p, Effect(w, p, proc, a).value.1)
  {
    hide Effect;
    StoreEffect(w, p, proc, a);
  }

  /** Everyone's reliance after the rewrite. */
  lemma StoreKeepsReliance(w: World, p: Pid, proc: Proc, a: Action)
    requires ProcOk(w, p, proc) && Effect(w, p, proc, a).Some? && a.StoreManifest?
    ensures forall q :: q != p ==> Rely(w, Effect(w, p, proc, a).value.0, q)
  {
    hide Effect;
    StoreEffect(w, p, proc, a);
  }

  /** The read-modify-write of the manifest under its metadata lock. */
  lemma StoreIsSafe(w: World, p: Pid, proc: Proc, a: Action)
    requires WorldOk(w) && ProcOk(w, p, proc) && Effect(w, p, proc, a).Some? && a.StoreManifest?
    ensures Safe(w, p, Effect(w, p, proc, a).value)
  {
    hide Effect, WorldOk, Rely;
    StoreEffect(w, p, proc, a);
    StoreKeepsOwnClaims(w, p, proc, a);
    StoreKeepsReliance(w, p, proc, a);
    if a.write.Lost? {
      LocksKeepWorld(w, Effect(w, p, proc, a).value.0);
    } else {
      RewriteKeepsWorld(w, proc.task.read, proc.task.update, Effect(w, p, proc, a).value.0);
    }
  }

  lemma LocksKeepWorld(w: World, after: World)
    requires WorldOk(w) && after == w.(collection := after.collection, arena := after.arena, metadata := after.metadata)
    ensures WorldOk(after)
  {
  }

  lemma CheckRetireIsSafe(w: World, p: Pid, proc: Proc, a: Action)
    requires WorldOk(w) && ProcOk(w, p, proc) && Effect(w, p, proc, a).Some? && a.CheckRetire?
    ensures Safe(w, p, Effect(w, p, proc, a).value)
  {
  }

  /** A new retirement intent never coincides with a journal or a retired tree. */
  lemma IntentKeepsWorld(w: World, m: Manifest, n: Id, after: World)
    requires WorldOk(w) && w.original == Some(m) && Evictable(m, w.now) && m.revision < U64_MAX
    requires n in w.used && n !in w.journals && n !in w.trash
    requires after == w.(original := Some(Prepared(m, n)), arena := after.arena, metadata := after.metadata)
    ensures WorldOk(after)
  {
    forall k | k in w.trash
      ensures TrashOk(after, k)
    {
      assert TrashOk(w, k);
    }
  }

  /** What writing the intent does to the world. */
  lemma IntentEffect(w: World, p: Pid, proc: Proc, a: Action)
    requires Effect(w, p, proc, a).Some? && a.WriteIntent?
    ensures var (after, proc') := Effect(w, p, proc, a).value;
      && proc.task.RetireIntent?
      && var m := Prepared(proc.task.current, proc.task.nonce);
         var written := if a.write.Lost? then w else w.(original := Some(m));
         && after == (if a.write.Applied? then written else ReleaseHold(written, HoldBoth))
         && proc' == proc.(task := if a.write.Applied? then RetireJournal(proc.task.nonce, m.revision) else Sweep(None))
  {
    hide Updated, Finished, MayStart, ReleaseHold, Prepared;
  }

  lemma IntentIsSafe(w: World, p: Pid, proc: Proc, a: Action)
    requires WorldOk(w) && ProcOk(w, p, proc) && Effect(w, p, proc, a).Some? && a.WriteIntent?
    ensures Safe(w, p, Effect(w, p, proc, a).value)
  {
    hide Effect, WorldOk;
    IntentEffect(w, p, proc, a);
    var after := Effect(w, p, proc, a).value.0;
    if a.write.Lost? {
      LocksKeepWorld(w, after);
    } else {
      IntentKeepsWorld(w, proc.task.current, proc.task.nonce, after);
    }
  }

  /** What writing the journal does to the world. */
  lemma JournalEffect(w: World, p: Pid, proc: Proc, a: Action)
    requires Effect(w, p, proc, a).Some? && a.CreateJournal?
    ensures var (after, proc') := Effect(w, p, proc, a).value;
      && proc.task.RetireJournal?
      && var written := if a.write.Lost? then w else w.(journals := w.journals[proc.task.nonce := proc.task.revision]);
         && after == (if a.write.Applied? then written else ReleaseHold(written, HoldBoth))
         && proc' == proc.(task := if a.write.Applied? then RetireRename(proc.task.nonce, true) else Sweep(None))
  {
    hide Updated, Finished, MayStart, ReleaseHold;
  }

  lemma JournalIsSafe(w: World, p: Pid, proc: Proc, a: Action)
    requires WorldOk(w) && ProcOk(w, p, proc) && Effect(w, p, proc, a).Some? && a.CreateJournal?
    ensures Safe(w, p, Effect(w, p, proc, a).value)
  {
    hide Effect;
    JournalEffect(w, p, proc, a);
  }

  /** What the rename to trash does to the world. */
  lemma MoveEffect(w: World, p: Pid, proc: Proc, a: Action)
    requires Effect(w, p, proc, a).Some? && a.MoveToTrash?
    ensures var (after, proc') := Effect(w, p, proc, a).value;
      && proc.task.RetireRename? && w.original.Some?
      && var n := proc.task.nonce;
         if a.moved then
           && after == w.(original := None, trash := w.trash[n := Tree(w.original.value, w.now, a.pieces)])
           && proc' == proc.(task := Deleting(n, HoldBoth))
         else if proc.task.undo then after == w && proc' == proc.(task := DropJournal(n, HoldBoth))
         else after == ReleaseHold(w, HoldBoth) && proc' == proc.(task := Sweep(None))
  {
    hide Updated, Finished, MayStart, ReleaseHold;
  }

  lemma MoveIsSafe(w: World, p: Pid, proc: Proc, a: Action)
    requires WorldOk(w) && ProcOk(w, p, proc) && Effect(w, p, proc, a).Some? && a.MoveToTrash?
    ensures Safe(w, p, Effect(w, p, proc, a).value)
  {
    hide Effect;
    MoveEffect(w, p, proc, a);
  }

  /** Shrinking or removing the tree under deletion, or dropping the journal of a tree that is gone. */
  lemma RemovalKeepsWorld(w: World, after: World)
    requires WorldOk(w)
    requires after == w.(trash := after.trash, journals := after.journals, arena := after.arena, metadata := after.metadata)
    requires after.trash.Keys <= w.trash.Keys && after.journals.Keys <= w.journals.Keys
    requires forall k :: k in after.trash ==>
      k in after.journals && after.trash[k] == w.trash[k].(pieces := after.trash[k].pieces)
    requires forall k :: k in after.journals ==> after.journals[k] == w.journals[k]
    ensures WorldOk(after)
  {
    forall k | k in after.trash
      ensures TrashOk(after, k)
    {
      assert TrashOk(w, k);
    }
    forall k | k in after.journals
      ensures JournalOk(after, k)
    {
      assert JournalOk(w, k);
    }
  }

  /** What one step of the recursive deletion does to the world. */
  lemma DeletionEffect(w: World, p: Pid, proc: Proc, a: Action)
    requires Effect(w, p, proc, a).Some? && (a.DeletePiece? || a.DeleteRoot?)
    ensures var (after, proc') := Effect(w, p, proc, a).value;
      && proc.task.Deleting? && proc.task.nonce in w.trash
      && var n := proc.task.nonce;
         if a.DeletePiece? then
           && w.trash[n].pieces > 0 && proc' == proc
           && after == w.(trash := w.trash[n := w.trash[n].(pieces := w.trash[n].pieces - 1)])
         else
           && after == w.(trash := w.trash - {n}) && proc' == proc.(task := DropJournal(n, proc.task.hold))
  {
    hide Updated, Finished, MayStart, ReleaseHold;
  }

  lemma DeletionIsSafe(w: World, p: Pid, proc: Proc, a: Action)
    requires WorldOk(w) && ProcOk(w, p, proc) && Effect(w, p, proc, a).Some? && (a.DeletePiece? || a.DeleteRoot?)
    ensures Safe(w, p, Effect(w, p, proc, a).value)
  {
    hide Effect, TrashOk, WorldOk, Updated, Finished, MayStart;
    DeletionEffect(w, p, proc, a);
    TrashIsJournalled(w);
    RemovalKeepsWorld(w, Effect(w, p, proc, a).value.0);
  }

  lemma TrashIsJournalled(w: World)
    requires WorldOk(w)
    ensures w.trash.Keys <= w.journals.Keys && forall n :: n in w.trash ==> TrashOk(w, n)
  {
  }

  /** What dropping a journal does to the world. */
  lemma JournalRemovalEffect(w: World, p: Pid, proc: Proc, a: Action)
    requires Effect(w, p, proc, a).Some? && a.RemoveJournal?
    ensures var (after, proc') := Effect(w, p, proc, a).value;
      && proc.task.DropJournal? && proc' == proc.(task := Sweep(None))
      && after == ReleaseHold(if a.removed then w.(journals := w.journals - {proc.task.nonce}) else w, proc.task.hold)
  {
    hide Updated, Finished, MayStart, ReleaseHold;
  }

  lemma JournalRemovalIsSafe(w: World, p: Pid, proc: Proc, a: Action)
    requires WorldOk(w) && ProcOk(w, p, proc) && Effect(w, p, proc, a).Some? && a.RemoveJournal?
    ensures Safe(w, p, Effect(w, p, proc, a).value)
  {
    hide Effect, TrashOk, WorldOk, Updated, Finished, MayStart;
    JournalRemovalEffect(w, p, proc, a);
    TrashIsJournalled(w);
    RemovalKeepsWorld(w, Effect(w, p, proc, a).value.0);
  }

  lemma StepIsSafe(w: World, p: Pid, proc: Proc, a: Action)
    requires WorldOk(w) && ProcOk(w, p, proc) && Effect(w, p, proc, a).Some?
    ensures Safe(w, p, Effect(w, p, proc, a).value)
  {
    hide Safe, WorldOk, ProcOk;
    if ReadingStep(a) {
      ReadingIsSafe(w, p, proc, a);
    } else if a.PromoteStaged? || a.AdmitNew? {
      CreationIsSafe(w, p, proc, a);
    } else if a.SpawnChild? || a.ChildExits? {
      ChildIsSafe(w, p, proc, a);
    } else if a.StoreManifest? {
      StoreIsSafe(w, p, proc, a);
    } else if a.CheckRetire? {
      CheckRetireIsSafe(w, p, proc, a);
    } else if a.WriteIntent? {
      IntentIsSafe(w, p, proc, a);
    } else if a.CreateJournal? {
      JournalIsSafe(w, p, proc, a);
    } else if a.MoveToTrash? {
      MoveIsSafe(w, p, proc, a);
    } else if a.DeletePiece? || a.DeleteRoot? {
      DeletionIsSafe(w, p, proc, a);
    } else {
      JournalRemovalIsSafe(w, p, proc, a);
    }
  }
}
