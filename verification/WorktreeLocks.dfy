/**
 The worktree protocol as a run of the lock model: each of its steps is at most one move of the lock
 table, and so no set of its processes is ever deadlocked.
 */
module WorktreeLocks {
  import opened Prelude
  import opened Worktree
  import opened LockTables
  import L = Locks

  /** Worktrees are numbered, each with its own number. */
  ghost predicate Numbers(id: Key -> nat) {
    forall x, y :: id(x) == id(y) ==> x == y
  }

  // ----- a lock that is taken is taken by somebody -----

  /** The locks recorded for `p` are locks its task holds. */
  ghost predicate OwnLocks(w: World, p: Pid, t: Task) {
    && (w.registry == Some(p) ==> HoldsRegistry(t))
    && (forall k :: k in w.exclusive && w.exclusive[k] == p ==> GateOf(t) == Some(k))
    && (forall k :: (k, p) in w.shared ==> SharedGateOf(t) == Some(k))
  }

  /** Nobody but `p` takes a lock. */
  ghost predicate OthersTakeNothing(w: World, after: World, p: Pid) {
    && (after.registry in {w.registry, None, Some(p)})
    && (forall k :: k in after.exclusive && after.exclusive[k] != p ==> k in w.exclusive && w.exclusive[k] == after.exclusive[k])
    && (forall holder :: holder in after.shared && holder.1 != p ==> holder in w.shared)
  }

  lemma StepKeepsOwned(w: World, p: Pid, t: Task, a: Action)
    requires OwnLocks(w, p, t) && TaskOk(w, t) && Effect(w, p, t, a).Some?
    ensures OwnLocks(Effect(w, p, t, a).value.0, p, Effect(w, p, t, a).value.1)
  {
    hide IsFound, SeveralLive, NoAlias, Decision, Lawful;
  }

  lemma StepTakesForItself(w: World, p: Pid, t: Task, a: Action)
    requires Effect(w, p, t, a).Some?
    ensures OthersTakeNothing(w, Effect(w, p, t, a).value.0, p)
  {
    hide IsFound, SeveralLive, NoAlias, Decision, Lawful;
  }

  /** Every lock that is taken is held by a process that exists. */
  ghost predicate AllOwned(s: State) {
    && (s.world.registry.Some? ==> s.world.registry.value in s.tasks)
    && (forall k :: k in s.world.exclusive ==> s.world.exclusive[k] in s.tasks)
    && (forall holder :: holder in s.world.shared ==> holder.1 in s.tasks)
    && (forall p :: p in s.tasks ==> OwnLocks(s.world, p, s.tasks[p]))
  }

  lemma EventKeepsOwned(s: State, e: Event)
    requires Inv(s) && AllOwned(s) && Next(s, e).Some?
    ensures AllOwned(Next(s, e).value)
  {
    hide Effect, WorldOk, TaskOk, LocksOk, HoldsRegistry, GateOf, SharedGateOf;
    if e.Acts? {
      assert ProcOk(s.world, e.pid, s.tasks[e.pid]);
      StepKeepsOwned(s.world, e.pid, s.tasks[e.pid], e.action);
      StepTakesForItself(s.world, e.pid, s.tasks[e.pid], e.action);
    }
  }

  lemma {:induction false} RunsKeepLocksOwned(states: seq<State>, events: seq<Event>, i: nat)
    requires IsRun(states, events) && i < |states|
    ensures Inv(states[i]) && AllOwned(states[i])
  {
    hide Inv, Next;
    RunKeepsInv(states, events, i);
    if i > 0 {
      RunsKeepLocksOwned(states, events, i - 1);
      assert Next(states[i - 1], events[i - 1]) == Some(states[i - 1 + 1]);
      hide AllOwned;
      EventKeepsOwned(states[i - 1], events[i - 1]);
    }
  }

  // ----- the state of the lock model -----

  function LockState(s: State, id: Key -> nat): L.State {
    L.State(map p | p in s.tasks :: WorktreeTaskOf(s.tasks[p], id))
  }

  /** What a task holds in the lock model, all of it. */
  lemma HoldsOnly(t: Task, id: Key -> nat, h: L.Hold)
    requires Numbers(id) && h in L.Held(WorktreeTaskOf(t, id))
    ensures h.l.Registry? ==> HoldsRegistry(t)
    ensures h.l.Gate? && !h.shared ==> GateOf(t).Some? && h.l == L.Gate(id(GateOf(t).value))
    ensures h.l.Gate? && h.shared ==> SharedGateOf(t).Some? && h.l == L.Gate(id(SharedGateOf(t).value))
  {
  }

  lemma RegistryFreeExactly(s: State, id: Key -> nat)
    requires Inv(s) && AllOwned(s) && Numbers(id)
    ensures L.Free(LockState(s, id), L.Exclusive(L.Registry)) <==> s.world.registry.None?
  {
    hide WorldOk, TaskOk, L.Held, WorktreeTaskOf;
    if s.world.registry.Some? {
      var q := s.world.registry.value;
      assert OwnLocks(s.world, q, s.tasks[q]);
      WorktreeTableAgrees(s.tasks[q], id, Key(0, 0));
      assert q in LockState(s, id).tasks && L.Exclusive(L.Registry) in L.Held(LockState(s, id).tasks[q]);
      assert L.Conflict(L.Exclusive(L.Registry), L.Exclusive(L.Registry));
    } else {
      forall q, held | q in s.tasks && held in L.Held(WorktreeTaskOf(s.tasks[q], id))
        ensures !L.Conflict(held, L.Exclusive(L.Registry))
      {
        HoldsOnly(s.tasks[q], id, held);
        assert ProcOk(s.world, q, s.tasks[q]);
      }
    }
  }

  lemma GateFreeExactly(s: State, id: Key -> nat, k: Key)
    requires Inv(s) && AllOwned(s) && Numbers(id)
    ensures L.Free(LockState(s, id), L.Exclusive(L.Gate(id(k)))) <==> GateIsFree(s.world, k)
  {
    hide WorldOk, TaskOk, L.Held, WorktreeTaskOf;
    var gate := L.Exclusive(L.Gate(id(k)));
    if !GateIsFree(s.world, k) {
      var q: Pid;
      if k in s.world.exclusive {
        q := s.world.exclusive[k];
      } else {
        var holder :| holder in s.world.shared && holder.0 == k;
        q := holder.1;
      }
      assert OwnLocks(s.world, q, s.tasks[q]);
      WorktreeTableAgrees(s.tasks[q], id, k);
      assert q in LockState(s, id).tasks;
      assert L.Conflict(gate, gate) && L.Conflict(L.Hold(L.Gate(id(k)), true), gate);
    } else {
      forall q, held | q in s.tasks && held in L.Held(WorktreeTaskOf(s.tasks[q], id))
        ensures !L.Conflict(held, gate)
      {
        HoldsOnly(s.tasks[q], id, held);
        assert ProcOk(s.world, q, s.tasks[q]);
      }
    }
  }

  lemma SharedGateFreeExactly(s: State, id: Key -> nat, k: Key)
    requires Inv(s) && AllOwned(s) && Numbers(id)
    ensures L.Free(LockState(s, id), L.Hold(L.Gate(id(k)), true)) <==> k !in s.world.exclusive
  {
    hide WorldOk, TaskOk, L.Held, WorktreeTaskOf;
    var gate := L.Hold(L.Gate(id(k)), true);
    if k in s.world.exclusive {
      var q := s.world.exclusive[k];
      assert OwnLocks(s.world, q, s.tasks[q]);
      WorktreeTableAgrees(s.tasks[q], id, k);
      assert q in LockState(s, id).tasks;
      assert L.Conflict(L.Exclusive(L.Gate(id(k))), gate);
    } else {
      forall q, held | q in s.tasks && held in L.Held(WorktreeTaskOf(s.tasks[q], id))
        ensures !L.Conflict(held, gate)
      {
        HoldsOnly(s.tasks[q], id, held);
        assert ProcOk(s.world, q, s.tasks[q]);
      }
    }
  }

  // ----- simulation -----

  /** What the process sees of the locks it may take. */
  ghost predicate SeesLocks(m: L.State, w: World, p: Pid, t: Task, id: Key -> nat) {
    && p in m.tasks && m.tasks[p] == WorktreeTaskOf(t, id)
    && (L.Free(m, L.Exclusive(L.Registry)) <==> w.registry.None?)
    && (forall k :: L.Free(m, L.Exclusive(L.Gate(id(k)))) <==> GateIsFree(w, k))
    && (forall k :: L.Free(m, L.Hold(L.Gate(id(k)), true)) <==> k !in w.exclusive)
  }

  /** At most one move of the lock model. */
  predicate Follows(m: L.State, p: Pid, next: L.Task) {
    p in m.tasks && (next == m.tasks[p] || L.Step(m, p, next))
  }

  lemma StepFollows(m: L.State, w: World, p: Pid, t: Task, a: Action, id: Key -> nat)
    requires SeesLocks(m, w, p, t, id) && TaskOk(w, t) && Effect(w, p, t, a).Some?
    ensures Follows(m, p, WorktreeTaskOf(Effect(w, p, t, a).value.1, id))
  {
    hide L.Free, L.Held, GateIsFree, IsFound, SeveralLive, NoAlias, Decision, Lawful, Released;
  }

  /** Over every run of the protocol its steps are moves of the lock model, and joins and deaths are the same there. */
  lemma RunsAreRunsOfTheLockModel(states: seq<State>, events: seq<Event>, i: nat, id: Key -> nat)
    requires IsRun(states, events) && i < |events| && Numbers(id)
    ensures var m, after := LockState(states[i], id), LockState(states[i + 1], id);
      match events[i]
      case Acts(p, _) =>
        p in after.tasks && Follows(m, p, after.tasks[p]) && after == L.State(m.tasks[p := after.tasks[p]])
      case Joins(p) => L.Happens(m, L.Joins(p), after)
      case Dies(p) => L.Happens(m, L.Dies(p), after)
      case _ => after == m
  {
    hide Effect, WorktreeTaskOf, AllOwned, WorldOk, LocksOk, L.Step, L.Free;
    RunsKeepLocksOwned(states, events, i);
    assert Next(states[i], events[i]) == Some(states[i + 1]);
    var s := states[i];
    match events[i]
    case Acts(p, a) =>
      assert ProcOk(s.world, p, s.tasks[p]);
      RegistryFreeExactly(s, id);
      forall k
        ensures L.Free(LockState(s, id), L.Exclusive(L.Gate(id(k)))) <==> GateIsFree(s.world, k)
        ensures L.Free(LockState(s, id), L.Hold(L.Gate(id(k)), true)) <==> k !in s.world.exclusive
      {
        GateFreeExactly(s, id, k);
        SharedGateFreeExactly(s, id, k);
      }
      StepFollows(LockState(s, id), s.world, p, s.tasks[p], a, id);
    case Joins(p) =>
      IdleIsIdle(id);
    case _ =>
  }

  lemma IdleIsIdle(id: Key -> nat)
    ensures WorktreeTaskOf(Idle, id) == L.Idle
  {
  }

  // ----- freedom from deadlock -----

  /** The process has a step of the protocol. */
  ghost predicate CanAct(s: State, p: Pid) {
    p in s.tasks && exists a: Action :: Effect(s.world, p, s.tasks[p], a).Some?
  }

  /** The lock its next step waits for is free, if it waits for one. */
  predicate Unhindered(w: World, t: Task) {
    && (t.WantRegistry? ==> w.registry.None?)
    && (t.InRegistry? && ByKey(t.op) ==> GateIsFree(w, t.op.key))
    && (t.WantShared? ==> t.key !in w.exclusive)
  }

  /** What a lookup by path finds, in a registry without several live records of it. */
  lemma SomethingIsFound(records: Records, path: Path) returns (found: Option<Key>)
    requires !SeveralLive(records, path)
    ensures IsFound(records, path, found)
  {
    var claims := set k | k in records && k.path == path;
    if live :| live in claims && IsLive(records, live) {
      found := Some(live);
    } else {
      found := LatestOf(records, claims);
      forall k | k in records && k.path == path
        ensures k in claims && records[k].state.Removed?
      {
        assert k in claims;
      }
    }
  }

  /** The record updated last among some. */
  lemma {:induction false} LatestOf(records: Records, keys: set<Key>) returns (latest: Option<Key>)
    requires keys <= records.Keys
    ensures latest.None? ==> keys == {}
    ensures latest.Some? ==> latest.value in keys && forall k :: k in keys ==> records[k].updatedAt <= records[latest.value].updatedAt
    decreases keys
  {
    if keys == {} {
      latest := None;
    } else {
      var k :| k in keys;
      var rest := LatestOf(records, keys - {k});
      latest := if rest.Some? && records[rest.value].updatedAt >= records[k].updatedAt then rest else Some(k);
      forall other | other in keys
        ensures records[other].updatedAt <= records[latest.value].updatedAt
      {
        assert other == k || other in keys - {k};
      }
    }
  }

  lemma NeverSeveral(w: World, path: Path)
    requires WorldOk(w)
    ensures !SeveralLive(w.records, path)
  {
  }

  lemma UnhinderedCanAct(s: State, p: Pid)
    requires Inv(s) && p in s.tasks && Unhindered(s.world, s.tasks[p])
    ensures CanAct(s, p)
  {
    var w, t := s.world, s.tasks[p];
    assert ProcOk(w, p, t);
    if t.InRegistry? && !ByKey(t.op) {
      NeverSeveral(w, t.op.path);
      var found := SomethingIsFound(w.records, t.op.path);
      hide IsFound, SeveralLive, Decision, NoAlias, Lawful, Released, GateIsFree;
      assert Effect(w, p, t, FindPath(found)).Some?;
    } else {
      hide IsFound, SeveralLive, Decision, NoAlias, Lawful, Released, GateIsFree;
      var a :=
        match t
        case Idle => Admit(Key(0, 0))
        case WantRegistry(_) => TakeRegistry
        case InRegistry(_) => TakeGate
        case Found(_, _, _) => TryGate
        case InGate(op) => if op.MakeReady? then RejectAlias else ReadRecord
        case NotAliased(_) => ReadRecord
        case Gated(_, _, _) => Decide(0)
        case Writing(_, _, _) => WriteRecord(Lost)
        case WantShared(_) => TakeShared
        case Admitted(_) => CheckRecord
        case Leased(_) => DropLease;
      assert Effect(w, p, t, a).Some?;
    }
  }

  /** In every reachable state whoever is blocked waits, directly or through others, for a process that has a step. */
  lemma NoWorktreeDeadlock(states: seq<State>, events: seq<Event>, i: nat, p: Pid, id: Key -> nat) returns (chain: seq<Pid>)
    requires IsRun(states, events) && i < |states| && p in states[i].tasks && Numbers(id)
    requires L.Blocked(LockState(states[i], id), p)
    ensures L.IsWaitChain(LockState(states[i], id), chain) && chain[0] == p && CanAct(states[i], chain[|chain| - 1])
  {
    hide Effect, L.Held, L.Wants, WorktreeTaskOf, Inv, AllOwned, L.CanStep, L.Step, L.Free, GateIsFree;
    var s := states[i];
    RunsKeepLocksOwned(states, events, i);
    chain := L.BlockedWaitsForSomeoneWhoCanStep(LockState(s, id), p);
    var q := chain[|chain| - 1];
    L.CanStepMeansFree(LockState(s, id), q);
    WorktreeTableAgrees(s.tasks[q], id, Key(0, 0));
    RegistryFreeExactly(s, id);
    if s.tasks[q].InRegistry? && ByKey(s.tasks[q].op) {
      GateFreeExactly(s, id, s.tasks[q].op.key);
    } else if s.tasks[q].WantShared? {
      SharedGateFreeExactly(s, id, s.tasks[q].key);
    }
    UnhinderedCanAct(s, q);
  }
}
