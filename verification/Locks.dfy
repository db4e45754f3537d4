/**
 Lock order. Each task says which locks it holds and which one it is waiting for, as the store
 acquires and drops them; a held lock vanishes with its process. An arena lock is only tried
 while the collection lock is held, and admission lets the collection lock go before it waits
 for an arena.
 */
module Locks {
  import opened Prelude

  type Pid = nat

  datatype Lock = Registry | Gate(worktree: nat) | Arena(id: nat) | Collection | Metadata(of: nat) | History
  {
    function Rank(): nat {
      match this
      case Registry => 0
      case Gate(_) => 1
      case Arena(_) => 2
      case Collection => 3
      case Metadata(_) => 4
      case History => 5
    }
  }

  /** A lock in shared or exclusive mode. */
  datatype Hold = Hold(l: Lock, shared: bool)

  predicate Conflict(x: Hold, y: Hold) {
    x.l == y.l && !(x.shared && y.shared)
  }

  function Exclusive(l: Lock): Hold {
    Hold(l, false)
  }

  // ----- what each task holds and waits for -----

  /** The lease of a build: its worktree's gate and its arena. */
  datatype Lease = NoLease | Lease(worktree: nat, arena: nat)

  datatype Task =
    | Idle
    // hooks
    | HookRegistry(worktree: nat, byKey: bool)
    | HookGate(worktree: nat)
    | HookTryGate(worktree: nat)
    | HookWork(worktree: nat)
    // admission and the lease
    | AdmitGate(worktree: nat, arena: nat)
    | AdmitCheck(worktree: nat, arena: nat)
    | AdmitCollection(worktree: nat, arena: nat)
    | AdmitTryArena(worktree: nat, arena: nat)
    | AdmitArena(worktree: nat, arena: nat)
    | AdmitRetry(worktree: nat, arena: nat)
    | Leased(worktree: nat, arena: nat)
    | LeaseMetadata(worktree: nat, arena: nat, inCollection: bool)
    | LeaseWrite(worktree: nat, arena: nat, inCollection: bool)
    // work under the collection lock: reconciliation, collection, recovery, trash
    | WantCollection(lease: Lease)
    | Work(lease: Lease)
    | OtherArena(lease: Lease, other: nat)
    | OtherMetadata(lease: Lease, other: nat)
    | OtherWork(lease: Lease, other: nat)
    // the moment in which a lock is probed without the collection lock
    | Probing(arena: nat)
    // pins and history
    | PinMetadata(arena: nat)
    | PinWork(arena: nat)
    | WantHistory(inCollection: bool)
    | Persist(inCollection: bool)

  function LeaseHolds(lease: Lease): set<Hold> {
    match lease
    case NoLease => {}
    case Lease(k, a) => {Hold(Gate(k), true), Exclusive(Arena(a))}
  }

  function CollectionIf(inCollection: bool): set<Hold> {
    if inCollection then {Exclusive(Collection)} else {}
  }

  function Held(t: Task): set<Hold> {
    match t
    case Idle => {}
    case HookRegistry(_, _) => {}
    case HookGate(_) => {Exclusive(Registry)}
    case HookTryGate(_) => {Exclusive(Registry)}
    case HookWork(k) => {Exclusive(Registry), Exclusive(Gate(k))}
    case AdmitGate(_, _) => {}
    case AdmitCheck(k, _) => {Hold(Gate(k), true)}
    case AdmitCollection(k, _) => {Hold(Gate(k), true)}
    case AdmitTryArena(k, _) => {Hold(Gate(k), true), Exclusive(Collection)}
    case AdmitArena(k, _) => {Hold(Gate(k), true)}
    case AdmitRetry(k, a) => LeaseHolds(Lease(k, a))
    case Leased(k, a) => LeaseHolds(Lease(k, a))
    case LeaseMetadata(k, a, c) => LeaseHolds(Lease(k, a)) + CollectionIf(c)
    case LeaseWrite(k, a, c) => LeaseHolds(Lease(k, a)) + CollectionIf(c) + {Exclusive(Metadata(a))}
    case WantCollection(lease) => LeaseHolds(lease)
    case Work(lease) => LeaseHolds(lease) + {Exclusive(Collection)}
    case OtherArena(lease, v) => LeaseHolds(lease) + {Exclusive(Collection), Exclusive(Arena(v))}
    case OtherMetadata(lease, v) => LeaseHolds(lease) + {Exclusive(Collection), Exclusive(Arena(v))}
    case OtherWork(lease, v) => LeaseHolds(lease) + {Exclusive(Collection), Exclusive(Arena(v)), Exclusive(Metadata(v))}
    case Probing(a) => {Exclusive(Arena(a))}
    case PinMetadata(_) => {}
    case PinWork(a) => {Exclusive(Metadata(a))}
    case WantHistory(c) => CollectionIf(c)
    case Persist(c) => CollectionIf(c) + {Exclusive(History)}
  }

  /** The lock a task is blocked on, if its next call is a blocking acquisition. */
  function Wants(t: Task): Option<Hold> {
    match t
    case HookRegistry(_, _) => Some(Exclusive(Registry))
    case HookGate(k) => Some(Exclusive(Gate(k)))
    case AdmitGate(k, _) => Some(Hold(Gate(k), true))
    case AdmitCollection(_, _) => Some(Exclusive(Collection))
    case AdmitArena(_, a) => Some(Exclusive(Arena(a)))
    case LeaseMetadata(_, a, _) => Some(Exclusive(Metadata(a)))
    case WantCollection(_) => Some(Exclusive(Collection))
    case OtherMetadata(_, v) => Some(Exclusive(Metadata(v)))
    case PinMetadata(a) => Some(Exclusive(Metadata(a)))
    case WantHistory(_) => Some(Exclusive(History))
    case _ => None
  }

  // ----- processes -----

  datatype State = State(tasks: map<Pid, Task>)

  /** Nobody, this process included, holds the lock in a conflicting mode. */
  predicate Free(s: State, h: Hold) {
    forall q :: q in s.tasks ==> forall held :: held in Held(s.tasks[q]) ==> !Conflict(held, h)
  }

  /** What process `p` may do next. */
  predicate MayBecome(s: State, t: Task, next: Task) {
    match t
    case Idle =>
      || next.HookRegistry? || next.AdmitGate? || next == WantCollection(NoLease) || next.PinMetadata?
      || next == WantHistory(false) || (next.Probing? && Free(s, Exclusive(Arena(next.arena))))
    case Probing(_) => next == Idle
    case HookRegistry(k, byKey) => next == if byKey then HookGate(k) else HookTryGate(k)
    case HookGate(k) => next == HookWork(k)
    case HookTryGate(k) =>
      // The record of a path may name another worktree, or none; the gate of its worktree is only tried.
      next.HookTryGate? || next == Idle || next == WantHistory(false) || (next == HookWork(k) && Free(s, Exclusive(Gate(k))))
    case HookWork(_) => next == WantHistory(false) || next == Idle
    case AdmitGate(k, a) => next == AdmitCheck(k, a)
    case AdmitCheck(k, a) => next == AdmitCollection(k, a) || next == Idle
    case AdmitCollection(k, a) => next == AdmitTryArena(k, a)
    case AdmitTryArena(k, a) =>
      if Free(s, Exclusive(Arena(a))) then next == Work(Lease(k, a)) else next == AdmitArena(k, a)
    case AdmitArena(k, a) => next == AdmitRetry(k, a)
    case AdmitRetry(k, a) => next == AdmitCollection(k, a)
    case Leased(k, a) => next == LeaseMetadata(k, a, false) || next == WantCollection(Lease(k, a)) || next == Idle
    case LeaseMetadata(k, a, c) => next == LeaseWrite(k, a, c)
    case LeaseWrite(k, a, c) =>
      if c then next == Work(Lease(k, a)) || next == WantHistory(true) || next == Work(NoLease)
      else next == Leased(k, a) || next == WantHistory(false) || next == Idle
    case WantCollection(lease) => next == Work(lease)
    case Work(lease) =>
      || next == Work(lease) || next == Work(NoLease)
      || (lease.Lease? &&
            (next == LeaseMetadata(lease.worktree, lease.arena, true) || next == Leased(lease.worktree, lease.arena)))
      || (lease.NoLease? && (next == Idle || next == WantHistory(false)))
      || ((next.OtherArena? || next.OtherMetadata?) && next.lease == lease && Free(s, Exclusive(Arena(next.other))))
    case OtherArena(lease, _) => next == Work(lease)
    case OtherMetadata(lease, v) => next == OtherWork(lease, v)
    case OtherWork(lease, _) => next == Work(lease) || (lease.NoLease? && next == WantHistory(false))
    case PinMetadata(a) => next == PinWork(a)
    case PinWork(_) => next == Idle
    case WantHistory(c) => next == Persist(c)
    case Persist(c) => next == WantHistory(c) || next == if c then Work(NoLease) else Idle
  }

  /** A process moves when it is not waiting, or when the lock it waits for is free. */
  predicate Step(s: State, p: Pid, next: Task) {
    && p in s.tasks && MayBecome(s, s.tasks[p], next)
    && (Wants(s.tasks[p]).Some? ==> Free(s, Wants(s.tasks[p]).value))
  }

  /** A process that is about to wait returns with an error instead, and at most drops locks. */
  predicate Withdrawal(s: State, p: Pid, next: Task) {
    p in s.tasks && Wants(s.tasks[p]).Some? && Wants(next).None? && Held(next) <= Held(s.tasks[p])
  }

  datatype Event = Moves(pid: Pid, next: Task) | Withdraws(pid: Pid, next: Task) | Joins(pid: Pid) | Dies(pid: Pid)

  predicate Happens(s: State, e: Event, after: State) {
    match e
    case Moves(p, next) => Step(s, p, next) && after == State(s.tasks[p := next])
    case Withdraws(p, next) => Withdrawal(s, p, next) && after == State(s.tasks[p := next])
    case Joins(p) => p !in s.tasks && after == State(s.tasks[p := Idle])
    case Dies(p) => p in s.tasks && after == State(s.tasks - {p})
  }

  ghost predicate IsRun(states: seq<State>, events: seq<Event>) {
    && |states| == |events| + 1 && states[0] == State(map[])
    && forall i :: 0 <= i < |events| ==> Happens(states[i], events[i], states[i + 1])
  }

  // ----- mutual exclusion -----

  ghost predicate Apart(x: Task, y: Task) {
    forall g, h :: g in Held(x) && h in Held(y) ==> !Conflict(g, h)
  }

  /** No two processes hold a lock in conflicting modes. */
  ghost predicate MutuallyExclusive(s: State) {
    forall p, q :: p in s.tasks && q in s.tasks && p != q ==> Apart(s.tasks[p], s.tasks[q])
  }

  predicate UnderCollection(t: Task) {
    t.WantCollection? || t.Work? || t.OtherArena? || t.OtherMetadata? || t.OtherWork?
  }

  lemma NewHoldsUnderCollection(s: State, p: Pid, next: Task, h: Hold)
    requires Step(s, p, next) && h in Held(next) && h !in Held(s.tasks[p]) && UnderCollection(s.tasks[p])
    ensures Free(s, h)
  {
    hide Free, Conflict;
  }

  predicate InLease(t: Task) {
    t.AdmitTryArena? || t.AdmitRetry? || t.Leased? || t.LeaseMetadata? || t.LeaseWrite?
  }

  lemma NewHoldsInLease(s: State, p: Pid, next: Task, h: Hold)
    requires Step(s, p, next) && h in Held(next) && h !in Held(s.tasks[p]) && InLease(s.tasks[p])
    ensures Free(s, h)
  {
    hide Free, Conflict;
  }

  lemma NewHoldsElsewhere(s: State, p: Pid, next: Task, h: Hold)
    requires Step(s, p, next) && h in Held(next) && h !in Held(s.tasks[p])
    requires !UnderCollection(s.tasks[p]) && !InLease(s.tasks[p])
    ensures Free(s, h)
  {
    hide Free, Conflict;
  }

  /** Whatever a step newly holds was waited for or tried, and was free. */
  lemma NewHoldsWereFree(s: State, p: Pid, next: Task, h: Hold)
    requires Step(s, p, next) && h in Held(next) && h !in Held(s.tasks[p])
    ensures Free(s, h)
  {
    hide Free, Held, MayBecome;
    if UnderCollection(s.tasks[p]) {
      NewHoldsUnderCollection(s, p, next, h);
    } else if InLease(s.tasks[p]) {
      NewHoldsInLease(s, p, next, h);
    } else {
      NewHoldsElsewhere(s, p, next, h);
    }
  }

  lemma EventKeepsExclusion(s: State, e: Event, after: State)
    requires MutuallyExclusive(s) && Happens(s, e, after)
    ensures MutuallyExclusive(after)
  {
    hide Held, Free, MayBecome;
    forall p, q | p in after.tasks && q in after.tasks && p != q
      ensures Apart(after.tasks[p], after.tasks[q])
    {
      if (e.Moves? || e.Withdraws?) && (p == e.pid || q == e.pid) {
        var other := if p == e.pid then q else p;
        assert Apart(s.tasks[e.pid], s.tasks[other]);
        forall g, h | g in Held(e.next) && h in Held(s.tasks[other])
          ensures !Conflict(g, h)
        {
          if g !in Held(s.tasks[e.pid]) {
            NewHoldsWereFree(s, e.pid, e.next, g);
            FreeMeansFree(s, g, other, h);
          }
        }
      } else if e.Joins? && (p == e.pid || q == e.pid) {
        IdleHoldsNothing();
      }
    }
  }

  lemma FreeMeansFree(s: State, g: Hold, q: Pid, h: Hold)
    requires Free(s, g) && q in s.tasks && h in Held(s.tasks[q])
    ensures !Conflict(g, h)
  {
  }

  lemma IdleHoldsNothing()
    ensures Held(Idle) == {}
  {
  }

  lemma OnlyGatesAreShared(s: State)
    ensures forall p, x :: p in s.tasks && x in Held(s.tasks[p]) && x.shared ==> x.l.Gate?
  {
  }

  /** Over every run a lock that two processes hold is a gate that both hold in shared mode. */
  lemma {:induction false} RunsExclude(states: seq<State>, events: seq<Event>, i: nat)
    requires IsRun(states, events) && i < |states|
    ensures MutuallyExclusive(states[i])
    ensures forall p, q, x, y ::
      && p in states[i].tasks && q in states[i].tasks && p != q
      && x in Held(states[i].tasks[p]) && y in Held(states[i].tasks[q]) && x.l == y.l
      ==> x.shared && y.shared && x.l.Gate?
  {
    hide Happens, Held;
    OnlyGatesAreShared(states[i]);
    if i > 0 {
      RunsExclude(states, events, i - 1);
      assert Happens(states[i - 1], events[i - 1], states[i - 1 + 1]);
      EventKeepsExclusion(states[i - 1], events[i - 1], states[i]);
    }
  }

  // ----- freedom from deadlock -----

  /** Every blocking acquisition holds only locks of lower rank. */
  lemma BlockingFollowsTheOrder(t: Task, h: Hold)
    requires Wants(t).Some? && h in Held(t)
    ensures h.l.Rank() < Wants(t).value.l.Rank()
  {
  }

  predicate Blocked(s: State, p: Pid) {
    p in s.tasks && Wants(s.tasks[p]).Some? && !Free(s, Wants(s.tasks[p]).value)
  }

  /** `p` waits for a lock that `q` holds. */
  predicate WaitsFor(s: State, p: Pid, q: Pid) {
    && p in s.tasks && q in s.tasks && Wants(s.tasks[p]).Some?
    && exists h :: h in Held(s.tasks[q]) && Conflict(h, Wants(s.tasks[p]).value)
  }

  /** The process can go on to something else. */
  ghost predicate CanStep(s: State, p: Pid) {
    exists next: Task :: Step(s, p, next) && next != s.tasks[p]
  }

  lemma CanStepMeansFree(s: State, p: Pid)
    requires CanStep(s, p)
    ensures p in s.tasks && (Wants(s.tasks[p]).Some? ==> Free(s, Wants(s.tasks[p]).value))
  {
  }

  lemma UnblockedCanStep(s: State, p: Pid)
    requires p in s.tasks && !Blocked(s, p)
    ensures CanStep(s, p)
  {
    var t := s.tasks[p];
    var next :=
      match t
      case Idle => WantCollection(NoLease)
      case Probing(_) => Idle
      case HookRegistry(k, byKey) => if byKey then HookGate(k) else HookTryGate(k)
      case HookGate(k) => HookWork(k)
      case HookTryGate(_) => WantHistory(false)
      case HookWork(_) => WantHistory(false)
      case AdmitGate(k, a) => AdmitCheck(k, a)
      case AdmitCheck(k, a) => AdmitCollection(k, a)
      case AdmitCollection(k, a) => AdmitTryArena(k, a)
      case AdmitTryArena(k, a) => if Free(s, Exclusive(Arena(a))) then Work(Lease(k, a)) else AdmitArena(k, a)
      case AdmitArena(k, a) => AdmitRetry(k, a)
      case AdmitRetry(k, a) => AdmitCollection(k, a)
      case Leased(k, a) => LeaseMetadata(k, a, false)
      case LeaseMetadata(k, a, c) => LeaseWrite(k, a, c)
      case LeaseWrite(k, a, c) => if c then Work(Lease(k, a)) else Leased(k, a)
      case WantCollection(lease) => Work(lease)
      case Work(lease) => if lease.Lease? then Leased(lease.worktree, lease.arena) else Idle
      case OtherArena(lease, _) => Work(lease)
      case OtherMetadata(lease, v) => OtherWork(lease, v)
      case OtherWork(lease, _) => Work(lease)
      case PinMetadata(a) => PinWork(a)
      case PinWork(_) => Idle
      case WantHistory(c) => Persist(c)
      case Persist(c) => if c then Work(NoLease) else Idle;
    assert Step(s, p, next);
  }

  lemma BlockedWaitsUpward(s: State, p: Pid) returns (q: Pid)
    requires Blocked(s, p)
    ensures WaitsFor(s, p, q)
    ensures Wants(s.tasks[q]).Some? ==> Wants(s.tasks[p]).value.l.Rank() < Wants(s.tasks[q]).value.l.Rank()
  {
    hide Held, Wants;
    var wanted := Wants(s.tasks[p]).value;
    q :| q in s.tasks && exists h :: h in Held(s.tasks[q]) && Conflict(h, wanted);
    var h :| h in Held(s.tasks[q]) && Conflict(h, wanted);
    if Wants(s.tasks[q]).Some? {
      BlockingFollowsTheOrder(s.tasks[q], h);
    }
  }

  /** Each process of the chain waits for a lock held by the next. */
  predicate IsWaitChain(s: State, chain: seq<Pid>) {
    chain != [] && forall i :: 0 <= i < |chain| - 1 ==> WaitsFor(s, chain[i], chain[i + 1])
  }

  /** Whoever is blocked waits, directly or through others, for a process that can go on. */
  lemma {:induction false} BlockedWaitsForSomeoneWhoCanStep(s: State, p: Pid) returns (chain: seq<Pid>)
    requires Blocked(s, p)
    ensures IsWaitChain(s, chain) && chain[0] == p && CanStep(s, chain[|chain| - 1])
    decreases 6 - Wants(s.tasks[p]).value.l.Rank()
  {
    hide Held, Wants, CanStep, Step;
    var q := BlockedWaitsUpward(s, p);
    if Blocked(s, q) {
      var rest := BlockedWaitsForSomeoneWhoCanStep(s, q);
      chain := [p] + rest;
      forall i | 0 <= i < |chain| - 1
        ensures WaitsFor(s, chain[i], chain[i + 1])
      {
        if i > 0 {
          assert WaitsFor(s, rest[i - 1], rest[i - 1 + 1]);
        }
      }
      assert chain[|chain| - 1] == rest[|rest| - 1];
    } else {
      chain := [p, q];
      UnblockedCanStep(s, q);
    }
  }

  /** No set of processes is deadlocked: one of its members waits for nobody in it, or not at all. */
  lemma {:induction false} NoSetIsDeadlocked(s: State, stuck: set<Pid>, p: Pid)
    requires p in stuck && p in s.tasks && Wants(s.tasks[p]).Some?
    ensures exists r :: r in stuck && r in s.tasks && forall q :: q in stuck ==> !WaitsFor(s, r, q)
    decreases 6 - Wants(s.tasks[p]).value.l.Rank()
  {
    hide Held, Wants;
    if exists q :: q in stuck && WaitsFor(s, p, q) {
      var q :| q in stuck && WaitsFor(s, p, q);
      if Wants(s.tasks[q]).Some? {
        var h :| h in Held(s.tasks[q]) && Conflict(h, Wants(s.tasks[p]).value);
        BlockingFollowsTheOrder(s.tasks[q], h);
        NoSetIsDeadlocked(s, stuck, q);
      }
    }
  }
}
