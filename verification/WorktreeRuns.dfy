/** Runs that exist: a worktree can be registered, built in, drained and removed. */
module WorktreeRuns {
  import opened Prelude
  import opened Runs
  import opened Worktree

  /** Some run ends in the state. */
  ghost predicate Reachable(s: State) {
    Reaches(START, Next, s)
  }

  /** A step of the only process. */
  lemma Alone(s: State, t: Task, a: Action) returns (after: State)
    requires Reachable(s) && s.tasks == map[0 := t] && Effect(s.world, 0, t, a).Some?
    ensures Reachable(after)
    ensures after.world == Effect(s.world, 0, t, a).value.0 && after.tasks == map[0 := Effect(s.world, 0, t, a).value.1]
  {
    hide Reaches, Effect;
    after := Go(START, Next, s, Acts(0, a));
    assert map[0 := t][0 := Effect(s.world, 0, t, a).value.1] == map[0 := Effect(s.world, 0, t, a).value.1];
  }

  const HERE: Key := Key(1, 2)

  const NO_METADATA: Metadata := Metadata(None, None, None)

  /** The worktree `HERE` is registered in the given state, and process 0 is alone and idle. */
  predicate Registered(s: State, state: IntegrationState) {
    && s.tasks == map[0 := Idle] && s.world.registry.None? && s.world.exclusive == map[] && s.world.shared == {}
    && s.world.records.Keys == {HERE} && s.world.records[HERE].state == state && s.world.present == {}
    && s.world.records[HERE].metadata == NO_METADATA
  }

  lemma ReleasesEverything(w: World)
    requires w.registry in {None, Some(0)} && w.exclusive == map[HERE := 0] && w.shared == {}
    ensures Released(w, 0) == w.(registry := None, exclusive := map[])
  {
    assert Released(w, 0).exclusive == map[];
    assert Released(w, 0).shared == {};
  }

  const REGISTRATION: Op := MakeReady(HERE, NO_METADATA, None)

  lemma AHookCanTakeItsGate() returns (s: State)
    ensures Reachable(s) && s.tasks == map[0 := InGate(REGISTRATION)]
    ensures s.world == World(Some(0), map[HERE := 0], {}, map[], {})
  {
    hide Reaches, Released;
    StartIsReached(START, Next);
    s := Go(START, Next, START, Joins(0));
    hide Next;
    s := Alone(s, Idle, Hook(REGISTRATION));
    s := Alone(s, WantRegistry(REGISTRATION), TakeRegistry);
    s := Alone(s, InRegistry(REGISTRATION), TakeGate);
  }

  lemma AWorktreeCanBeRegistered() returns (s: State)
    ensures Reachable(s) && Registered(s, Ready)
  {
    hide Reaches, Released, Next;
    s := AHookCanTakeItsGate();
    s := Alone(s, InGate(REGISTRATION), RejectAlias);
    s := Alone(s, NotAliased(REGISTRATION), ReadRecord);
    s := Alone(s, Gated(REGISTRATION, HERE, None), Decide(1));
    ReleasesEverything(s.world.(records := s.world.records[HERE := s.tasks[0].next]));
    s := Alone(s, s.tasks[0], WriteRecord(Applied));
  }

  /** A hook that finds the record by path carries out its transition when nobody is building. */
  lemma AHookCanChangeIt(s: State, op: Op, target: IntegrationState) returns (t: State)
    requires Reachable(s) && exists state :: Registered(s, state)
    requires (op == PrepareRemove(HERE.path, None) && s.world.records[HERE].state.Ready? && target.Draining?)
          || (op == ConfirmRemoved(HERE.path, None) && s.world.records[HERE].state.Draining? && target.Removed?)
    ensures Reachable(t) && Registered(t, target)
  {
    hide Reaches, Released, Next;
    var record := s.world.records[HERE];
    t := Alone(s, Idle, Hook(op));
    t := Alone(t, WantRegistry(op), TakeRegistry);
    assert !SeveralLive(t.world.records, HERE.path);
    t := Alone(t, InRegistry(op), FindPath(Some(HERE)));
    t := Alone(t, Found(op, HERE, record), TryGate);
    t := Alone(t, Gated(op, HERE, Some(record)), Decide(record.updatedAt));
    ReleasesEverything(t.world.(records := t.world.records[HERE := t.tasks[0].next]));
    t := Alone(t, t.tasks[0], WriteRecord(Applied));
  }

  lemma ABuildCanHoldIt(s: State) returns (t: State)
    requires Reachable(s) && Registered(s, Ready)
    ensures Reachable(t) && t.tasks == map[0 := Leased(HERE)]
  {
    hide Reaches, Released, Next;
    t := Alone(s, Idle, Admit(HERE));
    t := Alone(t, WantShared(HERE), TakeShared);
    t := Alone(t, Admitted(HERE), CheckRecord);
  }

  /** Some runs lease a registered worktree, and some drain and remove it. */
  lemma AWorktreeCanBeBuiltInAndRemoved()
    ensures exists built, removed ::
      && Reachable(built) && built.tasks == map[0 := Leased(HERE)]
      && Reachable(removed) && Registered(removed, Removed)
  {
    hide Reaches;
    var s := AWorktreeCanBeRegistered();
    var built := ABuildCanHoldIt(s);
    var draining := AHookCanChangeIt(s, PrepareRemove(HERE.path, None), Draining);
    var removed := AHookCanChangeIt(draining, ConfirmRemoved(HERE.path, None), Removed);
  }
}
