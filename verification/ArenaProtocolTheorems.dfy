/** What the arena protocol guarantees over every run. */
module ArenaProtocolTheorems {
  import opened Prelude
  import opened ArenaManifests
  import opened ArenaProtocol
  import opened ArenaProtocolProof

  // ----- the invariant over runs -----

  lemma EventKeepsInv(s: State, e: Event)
    requires Inv(s) && Next(s, e).Some?
    ensures Inv(Next(s, e).value)
  {
    var after := Next(s, e).value;
    match e
    case Acts(p, a) =>
      StepIsSafe(s.world, p, s.procs[p], a);
      forall q | q in after.procs
        ensures ProcOk(after.world, q, after.procs[q])
      {
        if q != p {
          RelyKeepsProc(s.world, after.world, q, s.procs[q]);
        }
      }
    case Joins(_) =>
    case Dies(p) =>
      forall q | q in after.procs
        ensures ProcOk(after.world, q, after.procs[q])
      {
        RelyKeepsProc(s.world, after.world, q, s.procs[q]);
      }
    case TimePasses(_) =>
      forall q | q in after.procs
        ensures ProcOk(after.world, q, after.procs[q])
      {
        RelyKeepsProc(s.world, after.world, q, s.procs[q]);
      }
    case TreeExits =>
      forall q | q in after.procs
        ensures ProcOk(after.world, q, after.procs[q])
      {
        RelyKeepsProc(s.world, after.world, q, s.procs[q]);
      }
  }

  lemma {:induction false} RunKeepsInv(states: seq<State>, events: seq<Event>, i: nat)
    requires IsRun(states, events) && i < |states|
    ensures Inv(states[i])
  {
    if i > 0 {
      RunKeepsInv(states, events, i - 1);
      assert Next(states[i - 1], events[i - 1]) == Some(states[i - 1 + 1]);
      EventKeepsInv(states[i - 1], events[i - 1]);
    }
  }

  // ----- which steps touch what -----

  predicate WritesOriginal(a: Action) {
    a.PromoteStaged? || a.AdmitNew? || a.StoreManifest? || a.WriteIntent? || a.MoveToTrash?
  }

  predicate WritesTrash(a: Action) {
    a.MoveToTrash? || a.DeletePiece? || a.DeleteRoot?
  }

  /** Admission and lease steps that do not write change nothing but locks. */
  lemma AdmissionFootprint(w: World, p: Pid, proc: Proc, a: Action)
    requires Effect(w, p, proc, a).Some? && (AdmissionStep(a) || LeaseStep(a))
    ensures var after := Effect(w, p, proc, a).value.0;
      after == w.(collection := after.collection, arena := after.arena, metadata := after.metadata)
  {
    hide Updated, Finished, Begun, Observed, Created, Prepared, MayStart, LeaseAfter, At, HomeOf;
  }

  /** Neither do the steps of a sweep that do not write. */
  lemma SweepFootprint(w: World, p: Pid, proc: Proc, a: Action)
    requires Effect(w, p, proc, a).Some? && (SnapshotStep(a) || RepairStep(a) || LookStep(a) || ResumeStep(a))
    ensures var after := Effect(w, p, proc, a).value.0;
      after == w.(collection := after.collection, arena := after.arena, metadata := after.metadata)
  {
    hide Updated, Finished, Begun, Observed, Created, Prepared, MayStart, LeaseAfter, At, HomeOf;
  }

  /** The check before a retirement reserves its nonce, and the children's steps touch no document. */
  lemma OtherFootprint(w: World, p: Pid, proc: Proc, a: Action)
    requires Effect(w, p, proc, a).Some? && (a.CheckRetire? || a.SpawnChild? || a.ChildExits?)
    ensures var after := Effect(w, p, proc, a).value.0;
      after == w.(used := after.used, alive := after.alive, metadata := after.metadata)
  {
    hide Updated, Finished, Begun, Observed, Created, Prepared, MayStart, LeaseAfter, At, HomeOf, ReleaseHold;
  }

  lemma Footprint(w: World, p: Pid, proc: Proc, a: Action)
    requires Effect(w, p, proc, a).Some?
    ensures var (after, proc') := Effect(w, p, proc, a).value;
      && after.now == w.now
      && (!WritesOriginal(a) ==> after.original == w.original)
      && (!WritesTrash(a) ==> after.trash == w.trash)
      && (!a.CreateJournal? && !a.RemoveJournal? ==> after.journals == w.journals)
  {
    hide Effect;
    if AdmissionStep(a) || LeaseStep(a) {
      AdmissionFootprint(w, p, proc, a);
    } else if ReadingStep(a) {
      SweepFootprint(w, p, proc, a);
    } else if a.PromoteStaged? || a.AdmitNew? {
      CreationEffect(w, p, proc, a);
    } else if a.StoreManifest? {
      StoreEffect(w, p, proc, a);
    } else if a.WriteIntent? {
      IntentEffect(w, p, proc, a);
    } else if a.CreateJournal? {
      JournalEffect(w, p, proc, a);
    } else if a.MoveToTrash? {
      MoveEffect(w, p, proc, a);
    } else if a.DeletePiece? || a.DeleteRoot? {
      DeletionEffect(w, p, proc, a);
    } else if a.RemoveJournal? {
      JournalRemovalEffect(w, p, proc, a);
    } else {
      OtherFootprint(w, p, proc, a);
    }
  }

  lemma LeaseFootprint(w: World, p: Pid, proc: Proc, a: Action)
    requires Effect(w, p, proc, a).Some? && proc.lease.NoLease? && Effect(w, p, proc, a).value.1.lease.Leased?
    ensures a.AdmitNew? || (a.StoreManifest? && proc.task.Loaded? && proc.task.update.Begin?)
  {
  }

  /** What the steps that write the manifest in place do to it. */
  lemma RewriteFootprint(w: World, p: Pid, proc: Proc, a: Action)
    requires WorldOk(w) && ProcOk(w, p, proc) && Effect(w, p, proc, a).Some? && (a.StoreManifest? || a.WriteIntent?)
    ensures var after := Effect(w, p, proc, a).value.0;
      && w.original.Some? && after.original.Some? && after.trash == w.trash
      && after.original.value.initializationId == w.original.value.initializationId
      && (a.StoreManifest? ==>
            && proc.task.Loaded? && w.original == Some(proc.task.read) && Updated(proc.task.read, proc.task.update).Some?
            && (a.write.Applied? ==> after.original == Updated(proc.task.read, proc.task.update)))
      && ((a.StoreManifest? && !a.write.Lost? && proc.task.update.SetPin?)
          || (after.original.value.pinned == w.original.value.pinned
              && after.original.value.pinExpiresAt == w.original.value.pinExpiresAt))
  {
    hide Effect, WorldOk, LeaseOk, SeenOk;
    if a.StoreManifest? {
      StoreEffect(w, p, proc, a);
    } else {
      IntentEffect(w, p, proc, a);
    }
  }

  /** The rename to trash takes exactly the manifest in place, and only an evictable one. */
  lemma MoveFootprint(w: World, p: Pid, proc: Proc, a: Action)
    requires WorldOk(w) && ProcOk(w, p, proc) && Effect(w, p, proc, a).Some? && a.MoveToTrash?
    ensures var after := Effect(w, p, proc, a).value.0;
      && proc.task.RetireRename? && w.original.Some? && Evictable(w.original.value, w.now)
      && proc.task.nonce in w.journals && Matches(w.original.value, proc.task.nonce, w.journals[proc.task.nonce])
      && after.journals == w.journals
      && (a.moved ==> after.trash == w.trash[proc.task.nonce := Tree(w.original.value, w.now, a.pieces)])
      && (!a.moved ==> after.trash == w.trash && after.original == w.original)
  {
    assert JournalOk(w, proc.task.nonce);
  }

  lemma CreationNeedsAbsence(w: World, p: Pid, proc: Proc, a: Action)
    requires Effect(w, p, proc, a).Some? && (a.PromoteStaged? || a.AdmitNew?)
    ensures w.original.None?
  {
  }

  lemma DeletionFootprint(w: World, p: Pid, proc: Proc, a: Action)
    requires Effect(w, p, proc, a).Some? && (a.DeletePiece? || a.DeleteRoot?)
    ensures var after := Effect(w, p, proc, a).value.0;
      && after.trash.Keys <= w.trash.Keys
      && forall n :: n in after.trash ==> after.trash[n].manifest == w.trash[n].manifest
  {
  }

  // ----- recovery -----

  /** In no run does recovery meet an unfinished manifest that it has to refuse. */
  lemma RecoveryIsNeverRefused(states: seq<State>, events: seq<Event>, i: nat, highWater: nat, measured: Option<nat>)
    requires IsRun(states, events) && i < |states|
    requires states[i].world.original.Some? && states[i].world.original.value.IsUnfinished()
    ensures var m := states[i].world.original.value;
      var recovered := Updated(m, Recover(highWater, measured, states[i].world.now));
      && recovered.Some? && !recovered.value.IsUnfinished()
      && recovered.value.lastOutcome == Some(if m.EffectiveStage().Reserved? then NotStarted else Terminated)
  {
    RunKeepsInv(states, events, i);
    RecoverySucceedsExactlyWhenCoherent(states[i].world.original.value, highWater, measured, states[i].world.now);
  }

  // ----- pins -----

  /** The event stores a pin or unpin of the arena. */
  predicate StoresPin(s: State, e: Event) {
    e.Acts? && e.action.StoreManifest? && !e.action.write.Lost?
    && e.pid in s.procs && s.procs[e.pid].task.Loaded? && s.procs[e.pid].task.update.SetPin?
  }

  /** A pin that was stored and reported as done. */
  predicate PinReturnedOk(s: State, e: Event, expiresAt: Option<nat>) {
    e.Acts? && e.action == StoreManifest(Applied)
    && e.pid in s.procs && s.procs[e.pid].task.Loaded? && s.procs[e.pid].task.update == SetPin(true, expiresAt)
  }

  predicate InPlaceWithPin(s: State, initializationId: Option<Id>, expiresAt: Option<nat>) {
    && s.world.original.Some?
    && s.world.original.value.initializationId == initializationId
    && s.world.original.value.pinned && s.world.original.value.pinExpiresAt == expiresAt
  }

  predicate Unexpired(expiresAt: Option<nat>, now: nat) {
    expiresAt.None? || now < expiresAt.value
  }

  lemma PinnedArenaStays(s: State, e: Event, initializationId: Option<Id>, expiresAt: Option<nat>)
    requires Inv(s) && Next(s, e).Some? && !StoresPin(s, e)
    requires InPlaceWithPin(s, initializationId, expiresAt) && Unexpired(expiresAt, s.world.now)
    ensures InPlaceWithPin(Next(s, e).value, initializationId, expiresAt)
  {
    hide Effect;
    if e.Acts? {
      var w, proc, a := s.world, s.procs[e.pid], e.action;
      assert ProcOk(w, e.pid, proc);
      Footprint(w, e.pid, proc, a);
      if a.StoreManifest? || a.WriteIntent? {
        RewriteFootprint(w, e.pid, proc, a);
      } else if a.MoveToTrash? {
        MoveFootprint(w, e.pid, proc, a);
      } else if a.PromoteStaged? || a.AdmitNew? {
        CreationNeedsAbsence(w, e.pid, proc, a);
      }
    }
  }

  lemma ClockIsMonotone(s: State, e: Event)
    requires Next(s, e).Some?
    ensures s.world.now <= Next(s, e).value.world.now
  {
    hide Effect;
    if e.Acts? {
      Footprint(s.world, e.pid, s.procs[e.pid], e.action);
    }
  }

  /** What the store of a successful pin leaves in place. */
  lemma PinIsStored(s: State, e: Event, expiresAt: Option<nat>)
    requires Inv(s) && Next(s, e).Some? && PinReturnedOk(s, e, expiresAt)
    ensures s.world.original.Some?
    ensures InPlaceWithPin(Next(s, e).value, s.world.original.value.initializationId, expiresAt)
  {
    var w, proc := s.world, s.procs[e.pid];
    assert ProcOk(w, e.pid, proc);
    RewriteFootprint(w, e.pid, proc, e.action);
  }

  /**
   A pin that returned Ok keeps its arena in place until it expires or another pin operation is
   stored, whatever retirements, interrupted retirements and resumptions run beside it.
   */
  lemma {:induction false} PinKeepsArenaInPlace(
      states: seq<State>, events: seq<Event>, i: nat, j: nat, expiresAt: Option<nat>)
    requires IsRun(states, events) && i < j < |states|
    requires PinReturnedOk(states[i], events[i], expiresAt)
    requires forall k :: i < k < j ==> !StoresPin(states[k], events[k])
    requires j > i + 1 ==> Unexpired(expiresAt, states[j - 1].world.now)
    ensures states[i].world.original.Some?
    ensures InPlaceWithPin(states[j], states[i].world.original.value.initializationId, expiresAt)
    ensures forall n :: n in states[j].world.trash ==>
      states[j].world.trash[n].manifest.initializationId != states[j].world.original.value.initializationId
  {
    hide Effect, Inv;
    RunKeepsInv(states, events, i);
    assert Next(states[i], events[i]) == Some(states[i + 1]);
    PinIsStored(states[i], events[i], expiresAt);
    var initializationId := states[i].world.original.value.initializationId;
    if j > i + 1 {
      if j > i + 2 {
        assert Next(states[j - 2], events[j - 2]) == Some(states[j - 2 + 1]);
        ClockIsMonotone(states[j - 2], events[j - 2]);
      }
      PinKeepsArenaInPlace(states, events, i, j - 1, expiresAt);
      RunKeepsInv(states, events, j - 1);
      assert Next(states[j - 1], events[j - 1]) == Some(states[j - 1 + 1]);
      PinnedArenaStays(states[j - 1], events[j - 1], initializationId, expiresAt);
    }
    RunKeepsInv(states, events, j);
    TrashIsOtherArenas(states[j]);
  }

  /** An unpin that was stored and reported as done. */
  predicate UnpinReturnedOk(s: State, e: Event) {
    e.Acts? && e.action == StoreManifest(Applied)
    && e.pid in s.procs && s.procs[e.pid].task.Loaded?
    && s.procs[e.pid].task.update.SetPin? && !s.procs[e.pid].task.update.pin
  }

  /** The arena with this initialization id is in place. */
  predicate InPlace(s: State, initializationId: Option<Id>) {
    s.world.original.Some? && s.world.original.value.initializationId == initializationId
  }

  /** Only pin operations change the pin of an arena that stays in place. */
  lemma OnlyPinsChangePins(s: State, e: Event, initializationId: Option<Id>)
    requires Inv(s) && Next(s, e).Some? && !StoresPin(s, e)
    requires InPlace(s, initializationId) && InPlace(Next(s, e).value, initializationId)
    ensures Next(s, e).value.world.original.value.pinned == s.world.original.value.pinned
    ensures Next(s, e).value.world.original.value.pinExpiresAt == s.world.original.value.pinExpiresAt
  {
    hide Effect;
    if e.Acts? {
      var w, proc, a := s.world, s.procs[e.pid], e.action;
      assert ProcOk(w, e.pid, proc);
      Footprint(w, e.pid, proc, a);
      if a.StoreManifest? || a.WriteIntent? {
        RewriteFootprint(w, e.pid, proc, a);
      } else if a.MoveToTrash? {
        MoveEffect(w, e.pid, proc, a);
      } else if a.PromoteStaged? || a.AdmitNew? {
        CreationNeedsAbsence(w, e.pid, proc, a);
      }
    }
  }

  /** What the store of a successful unpin leaves in place. */
  lemma UnpinIsStored(s: State, e: Event)
    requires Inv(s) && Next(s, e).Some? && UnpinReturnedOk(s, e)
    ensures s.world.original.Some?
    ensures var after := Next(s, e).value;
      && InPlace(after, s.world.original.value.initializationId)
      && !after.world.original.value.pinned && after.world.original.value.pinExpiresAt.None?
  {
    hide Effect, Updated;
    var w, proc := s.world, s.procs[e.pid];
    assert ProcOk(w, e.pid, proc);
    RewriteFootprint(w, e.pid, proc, e.action);
    PinIsWhatWasAsked(w.original.value, false, proc.task.update.expiresAt);
  }

  /**
   After an unpin that returned Ok, and as long as the arena stays in place and no other pin operation is
   stored, the arena is not pinned at any time.
   */
  lemma {:induction false} UnpinFreesTheArena(states: seq<State>, events: seq<Event>, i: nat, j: nat, initializationId: Option<Id>)
    requires IsRun(states, events) && i < j < |states|
    requires UnpinReturnedOk(states[i], events[i])
    requires forall k :: i < k < j ==> !StoresPin(states[k], events[k])
    requires forall k :: i < k <= j ==> InPlace(states[k], initializationId)
    ensures InPlace(states[j], initializationId)
    ensures forall now: nat :: !states[j].world.original.value.IsPinnedAt(now)
    ensures !states[j].world.original.value.pinned && states[j].world.original.value.pinExpiresAt.None?
  {
    hide Effect, Inv;
    if j == i + 1 {
      RunKeepsInv(states, events, i);
      assert Next(states[i], events[i]) == Some(states[i + 1]);
      UnpinIsStored(states[i], events[i]);
    } else {
      UnpinFreesTheArena(states, events, i, j - 1, initializationId);
      RunKeepsInv(states, events, j - 1);
      assert Next(states[j - 1], events[j - 1]) == Some(states[j - 1 + 1]);
      OnlyPinsChangePins(states[j - 1], events[j - 1], initializationId);
    }
  }

  lemma TrashIsOtherArenas(s: State)
    requires Inv(s) && s.world.original.Some?
    ensures forall n :: n in s.world.trash ==>
      s.world.trash[n].manifest.initializationId != s.world.original.value.initializationId
  {
    forall n | n in s.world.trash
      ensures s.world.trash[n].manifest.initializationId != s.world.original.value.initializationId
    {
      assert TrashOk(s.world, n);
    }
  }

  // ----- intents -----

  /**
   A new intent is only ever written over a finished, unpinned manifest without one: no retirement takes
   over the intent of another.
   */
  lemma NoIntentIsOverwritten(states: seq<State>, events: seq<Event>, i: nat)
    requires IsRun(states, events) && i < |events| && events[i].Acts? && events[i].action.WriteIntent?
    ensures var m := states[i].world.original;
      && m.Some? && m.value.retirementId.None? && !m.value.IsUnfinished()
      && (m.value.pinned ==> m.value.pinExpiresAt.Some? && m.value.pinExpiresAt.value <= states[i].world.now)
  {
    RunKeepsInv(states, events, i);
    assert Next(states[i], events[i]) == Some(states[i + 1]);
    assert ProcOk(states[i].world, events[i].pid, states[i].procs[events[i].pid]);
  }

  // ----- retired trees -----

  /** Step `k` renamed the arena into trash under nonce `n` while its manifest matched the journal. */
  predicate RenamedAt(states: seq<State>, events: seq<Event>, k: nat, n: Id, m: Manifest, revision: nat)
    requires k < |events| && k < |states|
  {
    && events[k].Acts? && events[k].action.MoveToTrash? && events[k].action.moved
    && states[k].world.original == Some(m) && Matches(m, n, revision)
    && n in states[k].world.journals && states[k].world.journals[n] == revision
  }

  lemma JournalFootprint(w: World, p: Pid, proc: Proc, a: Action)
    requires WorldOk(w) && ProcOk(w, p, proc) && Effect(w, p, proc, a).Some? && (a.CreateJournal? || a.RemoveJournal?)
    ensures var after := Effect(w, p, proc, a).value.0;
      forall n :: n in w.journals && n in after.journals ==> after.journals[n] == w.journals[n]
  {
  }

  lemma TreeComesFromRename(s: State, e: Event, n: Id)
    requires Inv(s) && Next(s, e).Some? && n in Next(s, e).value.world.trash
    ensures var after := Next(s, e).value.world;
      && n in after.journals
      && (n in s.world.trash ==>
            after.trash[n].manifest == s.world.trash[n].manifest && n in s.world.journals && after.journals[n] == s.world.journals[n])
      && (n !in s.world.trash ==>
            && e.Acts? && e.action.MoveToTrash? && e.action.moved
            && s.world.original == Some(after.trash[n].manifest)
            && n in s.world.journals && after.journals[n] == s.world.journals[n]
            && Matches(after.trash[n].manifest, n, after.journals[n]))
  {
    hide Effect;
    EventKeepsInv(s, e);
    assert TrashOk(Next(s, e).value.world, n);
    if n in s.world.trash {
      assert TrashOk(s.world, n);
    }
    if e.Acts? {
      var w, proc, a := s.world, s.procs[e.pid], e.action;
      assert ProcOk(w, e.pid, proc);
      Footprint(w, e.pid, proc, a);
      if a.MoveToTrash? {
        MoveFootprint(w, e.pid, proc, a);
      } else if a.DeletePiece? || a.DeleteRoot? {
        DeletionFootprint(w, e.pid, proc, a);
      } else if a.CreateJournal? || a.RemoveJournal? {
        JournalFootprint(w, e.pid, proc, a);
      }
    }
  }

  /**
   At every instant each retired tree has a journal with its nonce, was renamed while its manifest
   carried exactly that nonce and revision, and shares its initialization id with no arena in
   place: a newer arena with the same identity is never the tree that gets deleted.
   */
  lemma {:induction false} RetiredTreeIsTheJournalledArena(states: seq<State>, events: seq<Event>, i: nat, n: Id)
    requires IsRun(states, events) && i < |states| && n in states[i].world.trash
    ensures n in states[i].world.journals
    ensures exists k: nat :: k < i && RenamedAt(states, events, k, n, states[i].world.trash[n].manifest, states[i].world.journals[n])
    ensures states[i].world.original.Some? ==>
      && states[i].world.original.value.initializationId != states[i].world.trash[n].manifest.initializationId
      && !Matches(states[i].world.original.value, n, states[i].world.journals[n])
  {
    RunKeepsInv(states, events, i);
    assert TrashOk(states[i].world, n);
    if i > 0 {
      RunKeepsInv(states, events, i - 1);
      TreeComesFromRename(states[i - 1], events[i - 1], n);
      if n in states[i - 1].world.trash {
        RetiredTreeIsTheJournalledArena(states, events, i - 1, n);
        var k: nat :| k < i - 1 && RenamedAt(states, events, k, n, states[i - 1].world.trash[n].manifest, states[i - 1].world.journals[n]);
        assert RenamedAt(states, events, k, n, states[i].world.trash[n].manifest, states[i].world.journals[n]);
      } else {
        assert RenamedAt(states, events, i - 1, n, states[i].world.trash[n].manifest, states[i].world.journals[n]);
      }
    }
  }

  /** Reconciliation never meets its error case of an original and a trash directory that both match. */
  lemma BothDirectoriesNeverMatch(states: seq<State>, events: seq<Event>, i: nat, p: Pid)
    requires IsRun(states, events) && i < |states| && p in states[i].procs
    requires var t := states[i].procs[p].task; t.ReconBoth? && t.present && t.trashed
    ensures var t := states[i].procs[p].task;
      states[i].world.original.Some? && !Matches(states[i].world.original.value, t.nonce, t.revision)
  {
    RunKeepsInv(states, events, i);
    assert TrashOk(states[i].world, states[i].procs[p].task.nonce);
  }
}
