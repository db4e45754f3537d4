/**
 Cargo trees that may be alive. An operator's confirmation that a suspect tree is gone names an
 arena and not a build, so it may be stale; live trees are protected exactly in the runs in which
 no recovery is stored while a tree is alive.
 */
module ArenaProtocolLive {
  import opened Prelude
  import opened ArenaManifests
  import opened ArenaProtocol
  import opened ArenaProtocolProof
  import opened ArenaProtocolTheorems

  /** A Cargo tree that may be alive belongs to an arena in place whose manifest says so. */
  predicate AliveOk(w: World) {
    w.alive ==> w.original.Some? && w.original.value.EffectiveStage() in {Spawning, Spawned}
  }

  /** A lease without a running child, and a build about to begin, exclude a live tree. */
  predicate QuietProc(w: World, proc: Proc) {
    && (proc.lease.Leased? && !proc.lease.child.Running? ==> !w.alive)
    && (proc.task.Loaded? && proc.task.update.Begin? ==> !w.alive)
  }

  ghost predicate LiveOk(s: State) {
    AliveOk(s.world) && forall p :: p in s.procs ==> QuietProc(s.world, s.procs[p])
  }

  /** The event stores the outcome of a confirmed recovery. */
  predicate StoresRecovery(s: State, e: Event) {
    e.Acts? && e.action.StoreManifest? && !e.action.write.Lost?
    && e.pid in s.procs && s.procs[e.pid].task.Loaded? && s.procs[e.pid].task.update.Recover?
  }

  /** Every confirmed recovery is stored while no tree is alive. */
  ghost predicate ConfirmationsAreCurrent(states: seq<State>, events: seq<Event>)
    requires |events| < |states|
  {
    forall i :: 0 <= i < |events| && StoresRecovery(states[i], events[i]) ==> !states[i].world.alive
  }

  /** A tree that may be alive has its arena in place and recorded as unfinished: nobody may lease or retire it. */
  predicate Protected(s: State) {
    s.world.alive ==> s.world.original.Some? && s.world.original.value.IsUnfinished()
  }

  // ----- one step -----

  /** Only the children's steps change whether a tree is alive. */
  lemma AliveFootprint(w: World, p: Pid, proc: Proc, a: Action)
    requires Effect(w, p, proc, a).Some?
    ensures Effect(w, p, proc, a).value.0.alive == (if a.SpawnChild? then true else if a.ChildExits? then false else w.alive)
    ensures a.SpawnChild? ==> proc.lease == Leased(Spawning, NotTried)
  {
    hide Updated, Finished, Begun, Observed, Created, Prepared, MayStart, LeaseAfter, At, HomeOf;
  }

  /** A rewrite keeps a live tree's manifest spawning or spawned, unless it is a recovery. */
  lemma RewriteKeepsLiveStage(m: Manifest, u: Update)
    requires Updated(m, u).Some? && m.EffectiveStage() in {Spawning, Spawned} && m.IsUnfinished()
    requires !u.Finish? && !u.Recover?
    ensures Updated(m, u).value.EffectiveStage() in {Spawning, Spawned} && !u.Begin?
  {
  }

  lemma StepKeepsAliveOk(w: World, p: Pid, proc: Proc, a: Action)
    requires WorldOk(w) && ProcOk(w, p, proc) && AliveOk(w) && QuietProc(w, proc) && Effect(w, p, proc, a).Some?
    requires a.StoreManifest? && !a.write.Lost? && proc.task.Loaded? && proc.task.update.Recover? ==> !w.alive
    ensures AliveOk(Effect(w, p, proc, a).value.0)
  {
    hide Effect, Updated;
    AliveFootprint(w, p, proc, a);
    Footprint(w, p, proc, a);
    if a.StoreManifest? {
      StoreEffect(w, p, proc, a);
      if w.alive {
        assert proc.task.update.Finish? ==> proc.lease.Leased?;
        if !proc.task.update.Finish? && !proc.task.update.Recover? {
          RewriteKeepsLiveStage(proc.task.read, proc.task.update);
        }
      }
    } else if a.WriteIntent? {
      IntentEffect(w, p, proc, a);
    } else if a.MoveToTrash? {
      MoveFootprint(w, p, proc, a);
    } else if a.PromoteStaged? || a.AdmitNew? {
      CreationNeedsAbsence(w, p, proc, a);
    }
  }

  /** Apart from a few steps nobody gains a lease, changes what it knows of its child, or loads a manifest. */
  lemma LeaseStays(w: World, p: Pid, proc: Proc, a: Action)
    requires Effect(w, p, proc, a).Some?
    requires !a.LoadManifest? && !a.StoreManifest? && !a.AdmitNew? && !a.SpawnChild? && !a.ChildExits?
    ensures var proc' := Effect(w, p, proc, a).value.1;
      (proc'.lease == proc.lease || proc'.lease.NoLease?) && !proc'.task.Loaded?
  {
    hide Updated, Finished, Begun, Observed, Created, Prepared, MayStart, LeaseAfter, HomeOf, ReleaseHold;
  }

  lemma LoadEffect(w: World, p: Pid, proc: Proc, a: Action)
    requires Effect(w, p, proc, a).Some? && a.LoadManifest?
    ensures proc.task.Rewrite? && w.original.Some? && Updated(w.original.value, proc.task.update).Some?
    ensures Effect(w, p, proc, a).value.0 == w.(metadata := Some(p))
    ensures Effect(w, p, proc, a).value.1 == proc.(task := Loaded(proc.task.update, proc.task.home, w.original.value))
  {
    hide Updated, Finished, MayStart, ReleaseHold;
  }

  lemma ChildEffect(w: World, p: Pid, proc: Proc, a: Action)
    requires Effect(w, p, proc, a).Some? && (a.SpawnChild? || a.ChildExits?)
    ensures proc.task.Idle? && proc.lease.Leased?
    ensures Effect(w, p, proc, a).value.1 == proc.(lease := proc.lease.(child := if a.SpawnChild? then Running else Gone))
  {
    hide Updated, Finished, MayStart, ReleaseHold;
  }

  /** A process that ends up leased without a child, or about to begin a build, was already so, or found no live tree. */
  lemma NewQuiet(w: World, p: Pid, proc: Proc, a: Action)
    requires AliveOk(w) && QuietProc(w, proc) && Effect(w, p, proc, a).Some?
    ensures QuietProc(Effect(w, p, proc, a).value.0, Effect(w, p, proc, a).value.1)
  {
    hide Effect;
    AliveFootprint(w, p, proc, a);
    if a.LoadManifest? {
      LoadEffect(w, p, proc, a);
    } else if a.StoreManifest? {
      StoreEffect(w, p, proc, a);
    } else if a.AdmitNew? {
      CreationEffect(w, p, proc, a);
    } else if a.SpawnChild? || a.ChildExits? {
      ChildEffect(w, p, proc, a);
    } else {
      LeaseStays(w, p, proc, a);
    }
  }

  lemma EventKeepsLive(s: State, e: Event)
    requires Inv(s) && LiveOk(s) && Next(s, e).Some?
    requires StoresRecovery(s, e) ==> !s.world.alive
    ensures LiveOk(Next(s, e).value)
  {
    hide Effect;
    if e.Acts? {
      var w, proc, a := s.world, s.procs[e.pid], e.action;
      assert ProcOk(w, e.pid, proc) && QuietProc(w, proc);
      StepKeepsAliveOk(w, e.pid, proc, a);
      NewQuiet(w, e.pid, proc, a);
      AliveFootprint(w, e.pid, proc, a);
      forall q | q in s.procs && q != e.pid
        ensures QuietProc(Effect(w, e.pid, proc, a).value.0, s.procs[q])
      {
        assert ProcOk(w, q, s.procs[q]) && QuietProc(w, s.procs[q]);
      }
    }
  }

  lemma {:induction false} CurrentRunKeepsLive(states: seq<State>, events: seq<Event>, i: nat)
    requires IsRun(states, events) && ConfirmationsAreCurrent(states, events) && i < |states|
    ensures Inv(states[i]) && LiveOk(states[i])
  {
    RunKeepsInv(states, events, i);
    if i > 0 {
      CurrentRunKeepsLive(states, events, i - 1);
      assert Next(states[i - 1], events[i - 1]) == Some(states[i - 1 + 1]);
      EventKeepsLive(states[i - 1], events[i - 1]);
    }
  }

  // ----- over runs -----

  lemma RecoveryFinalizes(s: State, e: Event)
    requires Inv(s) && Next(s, e).Some? && StoresRecovery(s, e)
    ensures var after := Next(s, e).value;
      after.world.alive == s.world.alive && after.world.original.Some? && !after.world.original.value.IsUnfinished()
  {
    hide Effect;
    var w, proc := s.world, s.procs[e.pid];
    assert ProcOk(w, e.pid, proc);
    StoreEffect(w, e.pid, proc, e.action);
    AliveFootprint(w, e.pid, proc, e.action);
  }

  /** Trees that may be alive stay protected throughout a run exactly when its confirmations are current. */
  lemma LiveTreesAreProtectedExactlyByCurrentConfirmations(states: seq<State>, events: seq<Event>)
    requires IsRun(states, events)
    ensures (forall i :: 0 <= i < |states| ==> Protected(states[i])) <==> ConfirmationsAreCurrent(states, events)
  {
    hide Inv, Next;
    if ConfirmationsAreCurrent(states, events) {
      forall i | 0 <= i < |states|
        ensures Protected(states[i])
      {
        CurrentRunKeepsLive(states, events, i);
      }
    } else {
      var i :| 0 <= i < |events| && StoresRecovery(states[i], events[i]) && states[i].world.alive;
      RunKeepsInv(states, events, i);
      assert Next(states[i], events[i]) == Some(states[i + 1]);
      RecoveryFinalizes(states[i], events[i]);
      assert !Protected(states[i + 1]);
    }
  }

  predicate HoldsLease(s: State, q: Pid) {
    q in s.procs && s.procs[q].lease.Leased?
  }

  lemma AliveArenaStays(s: State, e: Event)
    requires Inv(s) && LiveOk(s) && Next(s, e).Some? && s.world.alive && Next(s, e).value.world.alive
    requires !StoresRecovery(s, e)
    ensures var after := Next(s, e).value;
      && s.world.original.Some? && after.world.original.Some?
      && after.world.original.value.initializationId == s.world.original.value.initializationId
      && after.world.trash.Keys <= s.world.trash.Keys
      && forall q :: HoldsLease(after, q) ==> HoldsLease(s, q)
  {
    hide Effect;
    if e.Acts? {
      var w, proc, a := s.world, s.procs[e.pid], e.action;
      assert ProcOk(w, e.pid, proc) && QuietProc(w, proc);
      Footprint(w, e.pid, proc, a);
      if proc.lease.NoLease? && Effect(w, e.pid, proc, a).value.1.lease.Leased? {
        LeaseFootprint(w, e.pid, proc, a);
      }
      if a.StoreManifest? || a.WriteIntent? {
        RewriteFootprint(w, e.pid, proc, a);
      } else if a.MoveToTrash? {
        MoveFootprint(w, e.pid, proc, a);
      } else if a.DeletePiece? || a.DeleteRoot? {
        DeletionFootprint(w, e.pid, proc, a);
      } else if a.PromoteStaged? || a.AdmitNew? {
        CreationNeedsAbsence(w, e.pid, proc, a);
      }
    }
  }

  /**
   While a Cargo tree may be alive, its arena is neither moved to trash nor leased again, however
   leases, collectors, current recoveries and deaths interleave.
   */
  lemma {:induction false} AliveTreeIsNeverRetiredNorLeased(states: seq<State>, events: seq<Event>, i: nat, j: nat)
    requires IsRun(states, events) && ConfirmationsAreCurrent(states, events) && i <= j < |states|
    requires forall k :: i <= k <= j ==> states[k].world.alive
    ensures states[i].world.original.Some? && states[j].world.original.Some?
    ensures states[j].world.original.value.IsUnfinished()
    ensures states[j].world.original.value.initializationId == states[i].world.original.value.initializationId
    ensures forall n :: n in states[j].world.trash ==>
      states[j].world.trash[n].manifest.initializationId != states[i].world.original.value.initializationId
    ensures forall q :: HoldsLease(states[j], q) ==> HoldsLease(states[i], q)
  {
    hide Inv, LiveOk, Next, IsRun, ConfirmationsAreCurrent;
    RunLength(states, events);
    CurrentRunKeepsLive(states, events, j);
    AliveIsProtected(states[j]);
    if i < j {
      AliveTreeIsNeverRetiredNorLeased(states, events, i, j - 1);
      CurrentRunKeepsLive(states, events, j - 1);
      StepOfRun(states, events, j - 1);
      AliveArenaStays(states[j - 1], events[j - 1]);
    }
    TrashIsOtherArenas(states[j]);
  }

  lemma RunLength(states: seq<State>, events: seq<Event>)
    requires IsRun(states, events)
    ensures |states| == |events| + 1
  {
    hide Next;
  }

  lemma AliveIsProtected(s: State)
    requires LiveOk(s) && s.world.alive
    ensures s.world.original.Some? && s.world.original.value.IsUnfinished()
  {
  }

  lemma StepOfRun(states: seq<State>, events: seq<Event>, i: nat)
    requires IsRun(states, events) && ConfirmationsAreCurrent(states, events) && i < |events|
    ensures Next(states[i], events[i]) == Some(states[i + 1])
    ensures StoresRecovery(states[i], events[i]) ==> !states[i].world.alive
  {
    hide Next, StoresRecovery;
  }
}
