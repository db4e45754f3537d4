/**
 Worktree registrations and the gates that keep builds and removal apart. Hooks hold the registry
 lock and then one worktree's gate exclusively; a build holds the gate of its worktree shared for
 as long as its lease lives. Any number of processes interleave and may die between two steps.
 */
module Worktree {
  import opened Prelude
  import opened Runs

  type Pid = nat

  type Path = nat

  /** A registration is keyed by its repository and canonical path, whose derived identities are taken to be unique. */
  datatype Key = Key(repository: nat, path: Path)

  datatype IntegrationState = Ready | Draining | Removed

  datatype Metadata = Metadata(manager: Option<string>, caption: Option<string>, session: Option<string>)

  datatype Record = Record(state: IntegrationState, revision: nat, metadata: Metadata, head: Option<string>, updatedAt: nat)

  type Records = map<Key, Record>

  datatype Op =
    | MakeReady(key: Key, offered: Metadata, head: Option<string>)
    | PrepareRemove(path: Path, manager: Option<string>)
    | ConfirmRemoved(path: Path, manager: Option<string>)
    | CancelRemove(key: Key, manager: Option<string>)

  // ----- registry.rs -----

  function Lookup(records: Records, k: Key): Option<Record> {
    if k in records then Some(records[k]) else None
  }

  predicate IsLive(records: Records, k: Key) {
    k in records && !records[k].state.Removed?
  }

  /** `reject_alias` finds no other live registration of the same path. */
  predicate NoAlias(records: Records, k: Key) {
    forall other :: other in records && other.path == k.path && other != k ==> records[other].state.Removed?
  }

  /** `find_path` reports that several live records claim the path. */
  predicate SeveralLive(records: Records, path: Path) {
    exists k, other :: k in records && other in records && k.path == other.path == path && k != other
      && IsLive(records, k) && IsLive(records, other)
  }

  /** `find_path` answers the live record of the path, or else the removed one updated last, or nothing. */
  predicate IsFound(records: Records, path: Path, found: Option<Key>) {
    && !SeveralLive(records, path)
    && match found
       case None => forall k :: k in records ==> k.path != path
       case Some(k) =>
         && k in records && k.path == path
         && (records[k].state.Removed? ==>
               forall other :: other in records && other.path == path ==>
                 records[other].state.Removed? && records[other].updatedAt <= records[k].updatedAt)
  }

  // ----- transitions.rs -----

  /** What a hook decides to do with the record: write a new version, or only report. */
  datatype Verdict = WriteNext(next: Record) | Unchanged | Attention

  function CommitUpdate(original: Record, updated: Record, now: nat): Verdict {
    if original == updated then Unchanged
    else WriteNext(updated.(revision := if original.revision < U64_MAX then original.revision + 1 else U64_MAX, updatedAt := now))
  }

  function Merge(was: Option<string>, offered: Option<string>): Option<string> {
    if offered.Some? then offered else was
  }

  function MergeMetadata(was: Metadata, offered: Metadata): Metadata {
    Metadata(Merge(was.manager, offered.manager), Merge(was.caption, offered.caption), Merge(was.session, offered.session))
  }

  predicate AllowedTransition(op: Op, state: IntegrationState) {
    op.PrepareRemove? || op.CancelRemove? ==> !state.Removed?
  }

  function Transition(op: Op, record: Record, manager: Option<string>, target: IntegrationState, now: nat): Verdict {
    if !AllowedTransition(op, record.state) then Attention
    else
      CommitUpdate(
        record,
        record.(state := target, metadata := record.metadata.(manager := Merge(record.metadata.manager, manager))), now)
  }

  function Decision(op: Op, existing: Option<Record>, present: bool, now: nat): Verdict {
    match op
    case MakeReady(_, offered, head) => (
      match existing
      case None => WriteNext(Record(Ready, 1, offered, head, now))
      case Some(record) =>
        if record.state.Draining? then Attention
        else CommitUpdate(
          record, record.(state := Ready, head := head, metadata := MergeMetadata(record.metadata, offered)), now))
    case PrepareRemove(_, manager) =>
      if existing.None? then Attention else Transition(op, existing.value, manager, Draining, now)
    case ConfirmRemoved(_, manager) =>
      if existing.None? then Attention
      else if existing.value.state.Removed? then Unchanged
      else if !existing.value.state.Draining? || present then Attention
      else Transition(op, existing.value, manager, Removed, now)
    case CancelRemove(_, manager) =>
      if existing.None? then Attention else Transition(op, existing.value, manager, Ready, now)
  }

  // ----- exactly when each hook writes, and what -----

  /** An offered value replaces the old one. */
  predicate Replaces(was: Option<string>, offered: Option<string>, next: Option<string>) {
    next == if offered.Some? then offered else was
  }

  /** The value offered is not the one there is. */
  predicate Differs(was: Option<string>, offered: Option<string>) {
    offered.Some? && offered != was
  }

  /** A new version of the record: the next revision at the given time. */
  predicate IsVersion(was: Record, next: Record, now: nat) {
    next.updatedAt == now && next.revision == (if was.revision < U64_MAX then was.revision + 1 else U64_MAX)
  }

  /** The target state, the manager replaced if one is given, and everything else but the version kept. */
  predicate MovesTo(was: Record, next: Record, state: IntegrationState, manager: Option<string>, now: nat) {
    && IsVersion(was, next, now) && next.state == state && next.head == was.head
    && Replaces(was.metadata.manager, manager, next.metadata.manager)
    && next.metadata.caption == was.metadata.caption && next.metadata.session == was.metadata.session
  }

  /** A worktree is recorded as removed exactly when it was draining and its path is absent. */
  lemma ConfirmRemovedExactly(path: Path, manager: Option<string>, existing: Option<Record>, present: bool, now: nat)
    ensures var verdict := Decision(ConfirmRemoved(path, manager), existing, present, now);
      && (verdict.WriteNext? <==> existing.Some? && existing.value.state == Draining && !present)
      && (verdict.Unchanged? <==> existing.Some? && existing.value.state == Removed)
      && (verdict.WriteNext? ==> MovesTo(existing.value, verdict.next, Removed, manager, now))
  {
  }

  /** Removal is prepared for any record that is not removed; a draining one is only given another manager. */
  lemma PrepareRemoveExactly(path: Path, manager: Option<string>, existing: Option<Record>, present: bool, now: nat)
    ensures var verdict := Decision(PrepareRemove(path, manager), existing, present, now);
      && (verdict.WriteNext? <==>
            existing.Some? && (existing.value.state == Ready
                               || (existing.value.state == Draining && Differs(existing.value.metadata.manager, manager))))
      && (verdict.Attention? <==> existing.None? || existing.value.state == Removed)
      && (verdict.WriteNext? ==> MovesTo(existing.value, verdict.next, Draining, manager, now))
  {
  }

  /** Removal is cancelled for any record that is not removed; a ready one is only given another manager. */
  lemma CancelRemoveExactly(k: Key, manager: Option<string>, existing: Option<Record>, present: bool, now: nat)
    ensures var verdict := Decision(CancelRemove(k, manager), existing, present, now);
      && (verdict.WriteNext? <==>
            existing.Some? && (existing.value.state == Draining
                               || (existing.value.state == Ready && Differs(existing.value.metadata.manager, manager))))
      && (verdict.Attention? <==> existing.None? || existing.value.state == Removed)
      && (verdict.WriteNext? ==> MovesTo(existing.value, verdict.next, Ready, manager, now))
  {
  }

  /**
   A worktree becomes ready unless it is draining: a first registration carries what was offered, a later
   one replaces the offered values and the head, and a ready one is written only if something differs.
   */
  lemma MakeReadyExactly(k: Key, offered: Metadata, head: Option<string>, existing: Option<Record>, present: bool, now: nat)
    ensures var verdict := Decision(MakeReady(k, offered, head), existing, present, now);
      && (verdict.Attention? <==> existing.Some? && existing.value.state == Draining)
      && (existing.None? ==> verdict == WriteNext(Record(Ready, 1, offered, head, now)))
      && (existing.Some? && existing.value.state == Removed ==> verdict.WriteNext?)
      && (existing.Some? && existing.value.state == Ready ==>
            (verdict.WriteNext? <==>
               || head != existing.value.head || Differs(existing.value.metadata.manager, offered.manager)
               || Differs(existing.value.metadata.caption, offered.caption)
               || Differs(existing.value.metadata.session, offered.session)))
      && (existing.Some? && verdict.WriteNext? ==>
            && IsVersion(existing.value, verdict.next, now) && verdict.next.state == Ready && verdict.next.head == head
            && Replaces(existing.value.metadata.manager, offered.manager, verdict.next.metadata.manager)
            && Replaces(existing.value.metadata.caption, offered.caption, verdict.next.metadata.caption)
            && Replaces(existing.value.metadata.session, offered.session, verdict.next.metadata.session))
  {
  }

  /** A hook that changed the record changes nothing when it is repeated at once. */
  lemma HooksAreIdempotent(op: Op, existing: Option<Record>, present: bool, now: nat, later: nat)
    requires Decision(op, existing, present, now).WriteNext?
    ensures Decision(op, Some(Decision(op, existing, present, now).next), present, later) == Unchanged
  {
  }

  /** Cancelling a removal gives back the registration it drained, two revisions on. */
  lemma CancelUndoesPrepare(k: Key, record: Record, present: bool, now: nat, later: nat)
    requires record.state.Ready? && record.revision < U64_MAX - 1
    ensures var drained := Decision(PrepareRemove(k.path, None), Some(record), present, now);
      && drained.WriteNext? && drained.next.state.Draining?
      && Decision(CancelRemove(k, None), Some(drained.next), present, later)
         == WriteNext(record.(revision := record.revision + 2, updatedAt := later))
  {
  }

  // ----- processes, locks and steps -----

  datatype Task =
    | Idle
    | WantRegistry(op: Op)
    | InRegistry(op: Op)
    | Found(op: Op, key: Key, record: Record)
    | InGate(op: Op)
    | NotAliased(op: Op)
    | Gated(op: Op, key: Key, existing: Option<Record>)
    | Writing(key: Key, existing: Option<Record>, next: Record)
    | WantShared(key: Key)
    | Admitted(key: Key)
    | Leased(key: Key)

  datatype World = World(
    registry: Option<Pid>, exclusive: map<Key, Pid>, shared: set<(Key, Pid)>, records: Records, present: set<Path>)

  datatype State = State(world: World, tasks: map<Pid, Task>)

  datatype Action =
    | Hook(op: Op)
    | TakeRegistry
    | FindPath(found: Option<Key>)
    | FindSeveral
    | TryGate
    | TakeGate
    | RejectAlias
    | ReadRecord
    | Decide(now: nat)
    | WriteRecord(write: Write)
    | Admit(key: Key)
    | TakeShared
    | CheckRecord
    | DropLease

  predicate ByKey(op: Op) {
    op.MakeReady? || op.CancelRemove?
  }

  predicate HoldsRegistry(t: Task) {
    t.InRegistry? || t.Found? || t.InGate? || t.NotAliased? || t.Gated? || t.Writing?
  }

  /** The gate a task holds exclusively. */
  function GateOf(t: Task): Option<Key> {
    match t
    case InGate(op) => if ByKey(op) then Some(op.key) else None
    case NotAliased(op) => if ByKey(op) then Some(op.key) else None
    case Gated(_, k, _) => Some(k)
    case Writing(k, _, _) => Some(k)
    case _ => None
  }

  /** The gate a task holds shared. */
  function SharedGateOf(t: Task): Option<Key> {
    match t
    case Admitted(k) => Some(k)
    case Leased(k) => Some(k)
    case _ => None
  }

  predicate GateIsFree(w: World, k: Key) {
    k !in w.exclusive && forall holder :: holder in w.shared ==> holder.0 != k
  }

  /** The locks of `p` are released. */
  function Released(w: World, p: Pid): World {
    w.(registry := if w.registry == Some(p) then None else w.registry,
       exclusive := map k | k in w.exclusive && w.exclusive[k] != p :: w.exclusive[k],
       shared := set holder | holder in w.shared && holder.1 != p)
  }

  /** One step of process `p`, or None when the step is not possible now. */
  function Effect(w: World, p: Pid, t: Task, a: Action): Option<(World, Task)> {
    match a
    case Hook(op) => if t.Idle? then Some((w, WantRegistry(op))) else None
    case TakeRegistry =>
      if t.WantRegistry? && w.registry.None? then Some((w.(registry := Some(p)), InRegistry(t.op))) else None
    case FindPath(found) =>
      if t.InRegistry? && !ByKey(t.op) && IsFound(w.records, t.op.path, found) then
        match found {
          case None => Some((Released(w, p), Idle))
          case Some(k) => Some((w, Found(t.op, k, w.records[k])))
        }
      else None
    case FindSeveral =>
      if t.InRegistry? && !ByKey(t.op) && SeveralLive(w.records, t.op.path) then Some((Released(w, p), Idle)) else None
    case TryGate =>
      if !t.Found? then None
      else if GateIsFree(w, t.key) then
        Some((w.(exclusive := w.exclusive[t.key := p]), Gated(t.op, t.key, Some(t.record))))
      else Some((Released(w, p), Idle))
    case TakeGate =>
      if t.InRegistry? && ByKey(t.op) && GateIsFree(w, t.op.key)
      then Some((w.(exclusive := w.exclusive[t.op.key := p]), InGate(t.op))) else None
    case RejectAlias =>
      if !t.InGate? || !t.op.MakeReady? then None
      else if NoAlias(w.records, t.op.key) then Some((w, NotAliased(t.op)))
      else Some((Released(w, p), Idle))
    case ReadRecord =>
      if (t.InGate? && t.op.CancelRemove?) || (t.NotAliased? && ByKey(t.op))
      then Some((w, Gated(t.op, t.op.key, Lookup(w.records, t.op.key)))) else None
    case Decide(now) =>
      if !t.Gated? then None
      else
        match Decision(t.op, t.existing, t.key.path in w.present, now) {
          case WriteNext(next) => Some((w, Writing(t.key, t.existing, next)))
          case _ => Some((Released(w, p), Idle))
        }
    case WriteRecord(write) =>
      if t.Writing?
      then Some((Released(if write.Lost? then w else w.(records := w.records[t.key := t.next]), p), Idle)) else None
    case Admit(k) => if t.Idle? then Some((w, WantShared(k))) else None
    case TakeShared =>
      if t.WantShared? && t.key !in w.exclusive
      then Some((w.(shared := w.shared + {(t.key, p)}), Admitted(t.key))) else None
    case CheckRecord =>
      if !t.Admitted? then None
      else if t.key in w.records && !w.records[t.key].state.Ready? then Some((Released(w, p), Idle))
      else Some((w, Leased(t.key)))
    case DropLease => if t.Leased? then Some((Released(w, p), Idle)) else None
  }

  datatype Event = Acts(pid: Pid, action: Action) | Joins(pid: Pid) | Dies(pid: Pid) | PathsChange(present: set<Path>)

  function Next(s: State, e: Event): Option<State> {
    match e
    case Acts(p, a) =>
      if p !in s.tasks then None
      else
        match Effect(s.world, p, s.tasks[p], a) {
          case Some((w, t)) => Some(State(w, s.tasks[p := t]))
          case None => None
        }
    case Joins(p) => if p in s.tasks then None else Some(s.(tasks := s.tasks[p := Idle]))
    case Dies(p) => if p in s.tasks then Some(State(Released(s.world, p), s.tasks - {p})) else None
    case PathsChange(present) => Some(s.(world := s.world.(present := present)))
  }

  const START: State := State(World(None, map[], {}, map[], {}), map[])

  ghost predicate IsRun(states: seq<State>, events: seq<Event>) {
    IsRunOf(START, Next, states, events)
  }

  // ----- the invariant -----

  ghost predicate OneLivePerPath(records: Records) {
    forall k :: IsLive(records, k) ==> NoAlias(records, k)
  }

  ghost predicate WorldOk(w: World) {
    OneLivePerPath(w.records) && forall holder :: holder in w.shared ==> holder.0 !in w.exclusive
  }

  ghost predicate LocksOk(w: World, p: Pid, t: Task) {
    && (HoldsRegistry(t) ==> w.registry == Some(p))
    && (GateOf(t).Some? ==> GateOf(t).value in w.exclusive && w.exclusive[GateOf(t).value] == p)
    && (SharedGateOf(t).Some? ==> (SharedGateOf(t).value, p) in w.shared)
  }

  /** The next version of a record: new, with fresh metadata, draining, back to ready, removed from draining, or revived. */
  predicate Lawful(existing: Option<Record>, next: Record) {
    match existing
    case None => next.state.Ready? && next.revision == 1
    case Some(record) =>
      && next.revision == (if record.revision < U64_MAX then record.revision + 1 else U64_MAX)
      && match record.state
         case Ready => next.state.Ready? || next.state.Draining?
         case Draining => true
         case Removed => next.state.Ready?
  }

  ghost predicate TaskOk(w: World, t: Task) {
    match t
    case Found(op, k, record) => !ByKey(op) && Lookup(w.records, k) == Some(record)
    case InGate(op) => ByKey(op)
    case NotAliased(op) => op.MakeReady? && NoAlias(w.records, op.key)
    case Gated(op, k, existing) => existing == Lookup(w.records, k) && (op.MakeReady? ==> NoAlias(w.records, k))
    case Writing(k, existing, next) =>
      && existing == Lookup(w.records, k) && Lawful(existing, next)
      && (!next.state.Removed? ==> NoAlias(w.records, k))
    case Leased(k) => k in w.records ==> w.records[k].state.Ready?
    case _ => true
  }

  ghost predicate ProcOk(w: World, p: Pid, t: Task) {
    LocksOk(w, p, t) && TaskOk(w, t)
  }

  ghost predicate Inv(s: State) {
    WorldOk(s.world) && forall p :: p in s.tasks ==> ProcOk(s.world, p, s.tasks[p])
  }

  /** What a step of anyone else leaves intact for `q`, lock by lock. */
  ghost predicate Rely(w: World, after: World, q: Pid) {
    && (w.registry == Some(q) ==> after.registry == Some(q) && after.records == w.records)
    && (forall k :: k in w.exclusive && w.exclusive[k] == q ==> k in after.exclusive && after.exclusive[k] == q)
    && (forall k :: (k, q) in w.shared ==> (k, q) in after.shared && Lookup(after.records, k) == Lookup(w.records, k))
  }

  lemma RelyKeepsProc(w: World, after: World, q: Pid, t: Task)
    requires ProcOk(w, q, t) && Rely(w, after, q)
    ensures ProcOk(after, q, t)
  {
  }

  lemma DecisionIsLawful(op: Op, existing: Option<Record>, present: bool, now: nat)
    requires Decision(op, existing, present, now).WriteNext?
    ensures Lawful(existing, Decision(op, existing, present, now).next)
    ensures !op.MakeReady? && !Decision(op, existing, present, now).next.state.Removed? ==>
      existing.Some? && !existing.value.state.Removed?
  {
  }

  /** A new version of the record of `k` keeps every path with at most one live record. */
  lemma WriteKeepsOneLive(records: Records, k: Key, existing: Option<Record>, next: Record)
    requires OneLivePerPath(records) && existing == Lookup(records, k)
    requires !next.state.Removed? ==> NoAlias(records, k)
    ensures OneLivePerPath(records[k := next])
  {
    var after := records[k := next];
    forall j | IsLive(after, j)
      ensures NoAlias(after, j)
    {
      if j != k {
        assert IsLive(records, j);
      }
    }
  }

  lemma StepKeepsOneLive(w: World, p: Pid, t: Task, a: Action)
    requires WorldOk(w) && ProcOk(w, p, t) && Effect(w, p, t, a).Some?
    ensures WorldOk(Effect(w, p, t, a).value.0)
  {
    hide OneLivePerPath, NoAlias, IsFound, SeveralLive, Decision, Lawful, IsLive;
    if a.WriteRecord? {
      WriteKeepsOneLive(w.records, t.key, t.existing, t.next);
    }
  }

  lemma StepKeepsOwnClaims(w: World, p: Pid, t: Task, a: Action)
    requires WorldOk(w) && ProcOk(w, p, t) && Effect(w, p, t, a).Some?
    ensures ProcOk(Effect(w, p, t, a).value.0, p, Effect(w, p, t, a).value.1)
  {
    hide SeveralLive, Decision, Lawful, NoAlias;
    if a.Decide? {
      var verdict := Decision(t.op, t.existing, t.key.path in w.present, a.now);
      if verdict.WriteNext? {
        DecisionIsLawful(t.op, t.existing, t.key.path in w.present, a.now);
        assert !t.op.MakeReady? && !verdict.next.state.Removed? ==> IsLive(w.records, t.key);
      }
    }
  }

  lemma StepKeepsReliance(w: World, p: Pid, t: Task, a: Action, q: Pid)
    requires WorldOk(w) && ProcOk(w, p, t) && Effect(w, p, t, a).Some? && q != p
    ensures Rely(w, Effect(w, p, t, a).value.0, q)
  {
    hide OneLivePerPath, NoAlias, IsFound, SeveralLive, Decision, Lawful, IsLive;
  }

  lemma EventKeepsInv(s: State, e: Event)
    requires Inv(s) && Next(s, e).Some?
    ensures Inv(Next(s, e).value)
  {
    hide Effect, TaskOk, LocksOk, OneLivePerPath;
    var after := Next(s, e).value;
    if e.Acts? {
      StepKeepsOneLive(s.world, e.pid, s.tasks[e.pid], e.action);
      StepKeepsOwnClaims(s.world, e.pid, s.tasks[e.pid], e.action);
    }
    forall q | q in after.tasks
      ensures ProcOk(after.world, q, after.tasks[q])
    {
      if e.Joins? && q == e.pid {
        IdleIsOk(after.world, q);
      } else if !(e.Acts? && q == e.pid) {
        if e.Acts? {
          StepKeepsReliance(s.world, e.pid, s.tasks[e.pid], e.action, q);
        }
        RelyKeepsProc(s.world, after.world, q, s.tasks[q]);
      }
    }
  }

  lemma IdleIsOk(w: World, q: Pid)
    ensures ProcOk(w, q, Idle)
  {
  }

  lemma {:induction false} RunKeepsInv(states: seq<State>, events: seq<Event>, i: nat)
    requires IsRun(states, events) && i < |states|
    ensures Inv(states[i])
  {
    if i > 0 {
      RunKeepsInv(states, events, i - 1);
      assert Next(states[i - 1], events[i - 1]) == Some(states[i - 1 + 1]);
      EventKeepsInv(states[i - 1], events[i - 1]);
    }
  }

  // ----- what holds over every run -----

  /** A live lease never coexists with a draining or removed record of its worktree. */
  lemma LeaseNeverMeetsRemoval(states: seq<State>, events: seq<Event>, i: nat, p: Pid)
    requires IsRun(states, events) && i < |states|
    requires p in states[i].tasks && states[i].tasks[p].Leased?
    ensures var k := states[i].tasks[p].key;
      k in states[i].world.records ==> states[i].world.records[k].state == Ready
  {
    RunKeepsInv(states, events, i);
    assert ProcOk(states[i].world, p, states[i].tasks[p]);
  }

  /** At most one record that is not removed ever claims a path, so the lookup by path never finds several. */
  lemma OneLiveRecordPerPath(states: seq<State>, events: seq<Event>, i: nat, path: Path)
    requires IsRun(states, events) && i < |states|
    ensures !SeveralLive(states[i].world.records, path)
    ensures forall p :: p in states[i].tasks ==> Effect(states[i].world, p, states[i].tasks[p], FindSeveral).None?
  {
    RunKeepsInv(states, events, i);
    forall any: Path
      ensures !SeveralLive(states[i].world.records, any)
    {
      assert OneLivePerPath(states[i].world.records);
    }
  }

  lemma OwnStepsKeepRecords(w: World, p: Pid, t: Task, a: Action)
    requires Effect(w, p, t, a).Some? && HoldsRegistry(Effect(w, p, t, a).value.1)
    ensures Effect(w, p, t, a).value.0.records == w.records
  {
    hide IsFound, SeveralLive, Decision, NoAlias;
  }

  lemma EventFreezesRecords(s: State, e: Event, p: Pid)
    requires Inv(s) && Next(s, e).Some?
    requires p in s.tasks && HoldsRegistry(s.tasks[p])
    requires p in Next(s, e).value.tasks && HoldsRegistry(Next(s, e).value.tasks[p])
    ensures Next(s, e).value.world.records == s.world.records
  {
    hide Effect, TaskOk, WorldOk;
    assert ProcOk(s.world, p, s.tasks[p]);
    if e.Acts? {
      if e.pid == p {
        OwnStepsKeepRecords(s.world, p, s.tasks[p], e.action);
      } else {
        StepKeepsReliance(s.world, e.pid, s.tasks[e.pid], e.action, p);
      }
    }
  }

  /** While a process holds the registry lock nobody else writes a record, so its scan may take its time. */
  lemma {:induction false} RegistryLockFreezesRecords(states: seq<State>, events: seq<Event>, i: nat, j: nat, p: Pid)
    requires IsRun(states, events) && i <= j < |states|
    requires forall k :: i <= k <= j ==> p in states[k].tasks && HoldsRegistry(states[k].tasks[p])
    ensures states[j].world.records == states[i].world.records
    decreases j - i
  {
    if i < j {
      hide Inv, HoldsRegistry;
      RegistryLockFreezesRecords(states, events, i, j - 1, p);
      RunKeepsInv(states, events, j - 1);
      assert Next(states[j - 1], events[j - 1]) == Some(states[j - 1 + 1]);
      EventFreezesRecords(states[j - 1], events[j - 1], p);
    }
  }

  /** Every change of a record is a lawful next version, made while no build of that worktree holds a lease. */
  lemma RecordsFollowTheLifecycle(states: seq<State>, events: seq<Event>, i: nat, k: Key)
    requires IsRun(states, events) && i + 1 < |states|
    requires Lookup(states[i].world.records, k) != Lookup(states[i + 1].world.records, k)
    ensures k in states[i + 1].world.records
    ensures Lawful(Lookup(states[i].world.records, k), states[i + 1].world.records[k])
    ensures forall p :: p in states[i].tasks ==> states[i].tasks[p] != Leased(k)
  {
    hide Effect, NoAlias, Lawful, WorldOk;
    RunKeepsInv(states, events, i);
    var s, e := states[i], events[i];
    assert Next(states[i], events[i]) == Some(states[i + 1]);
    assert ProcOk(s.world, e.pid, s.tasks[e.pid]);
    RecordsFootprint(s.world, e.pid, s.tasks[e.pid], e.action);
    forall p | p in s.tasks
      ensures s.tasks[p] != Leased(k)
    {
      assert ProcOk(s.world, p, s.tasks[p]);
      SharedGateIsNotExclusive(s.world, p, s.tasks[p], e.pid, s.tasks[e.pid]);
    }
  }

  /** Records only change when the next version is written. */
  lemma RecordsFootprint(w: World, p: Pid, t: Task, a: Action)
    requires Effect(w, p, t, a).Some?
    ensures Effect(w, p, t, a).value.0.records == w.records
            || (t.Writing? && Effect(w, p, t, a).value.0.records == w.records[t.key := t.next])
  {
    hide IsFound, SeveralLive, Decision, NoAlias;
  }

  /** A gate that one task writes under is nobody's lease. */
  lemma SharedGateIsNotExclusive(w: World, p: Pid, t: Task, q: Pid, u: Task)
    requires WorldOk(w) && LocksOk(w, p, t) && LocksOk(w, q, u) && u.Writing?
    ensures t != Leased(u.key)
  {
  }

  /** A build is admitted exactly when its worktree is not registered, or is ready. */
  lemma AdmissionExactly(w: World, p: Pid, k: Key)
    ensures Effect(w, p, Admitted(k), CheckRecord).Some?
    ensures Effect(w, p, Admitted(k), CheckRecord).value.1 == Leased(k) <==> k !in w.records || w.records[k].state == Ready
  {
  }

  /** A registration goes on exactly when every other record of its path is removed. */
  lemma RegistrationExactly(w: World, p: Pid, k: Key, offered: Metadata, head: Option<string>)
    ensures Effect(w, p, InGate(MakeReady(k, offered, head)), RejectAlias).Some?
    ensures Effect(w, p, InGate(MakeReady(k, offered, head)), RejectAlias).value.1 == NotAliased(MakeReady(k, offered, head))
            <==> forall other :: other in w.records && other.path == k.path && other != k ==> w.records[other].state == Removed
  {
  }

  // ----- what was decided is what is written -----

  /** At `d` the process decided to write `next` for `k`, with the paths present at that instant. */
  ghost predicate DecidedAt(states: seq<State>, events: seq<Event>, d: nat, p: Pid, k: Key, existing: Option<Record>, next: Record) {
    && d < |events| && d < |states| && events[d].Acts? && events[d].pid == p && events[d].action.Decide?
    && p in states[d].tasks && states[d].tasks[p].Gated?
    && var t := states[d].tasks[p];
       && t.key == k && t.existing == existing
       && Decision(t.op, existing, k.path in states[d].world.present, events[d].action.now) == WriteNext(next)
  }

  lemma OnlyDecidingStartsWriting(w: World, p: Pid, t: Task, a: Action)
    requires Effect(w, p, t, a).Some? && Effect(w, p, t, a).value.1.Writing?
    ensures a.Decide? && t.Gated?
    ensures var after := Effect(w, p, t, a).value.1;
      && after.key == t.key && after.existing == t.existing
      && Decision(t.op, t.existing, t.key.path in w.present, a.now) == WriteNext(after.next)
  {
    hide IsFound, SeveralLive, Decision, NoAlias, Released;
  }

  /** Whoever is about to write a version decided on it before, with nothing changed in between. */
  lemma {:induction false} WritingWasDecided(states: seq<State>, events: seq<Event>, i: nat, p: Pid) returns (d: nat)
    requires IsRun(states, events) && i < |states| && p in states[i].tasks && states[i].tasks[p].Writing?
    ensures var t := states[i].tasks[p]; d < i && DecidedAt(states, events, d, p, t.key, t.existing, t.next)
  {
    hide Effect, Decision;
    assert i > 0;
    var s, e := states[i - 1], events[i - 1];
    assert Next(states[i - 1], events[i - 1]) == Some(states[i - 1 + 1]);
    if e.Acts? && e.pid == p {
      OnlyDecidingStartsWriting(s.world, p, s.tasks[p], e.action);
      d := i - 1;
    } else {
      d := WritingWasDecided(states, events, i - 1, p);
    }
  }

  lemma OnlyConfirmationRemoves(op: Op, existing: Option<Record>, present: bool, now: nat)
    requires Decision(op, existing, present, now).WriteNext? && Decision(op, existing, present, now).next.state == Removed
    ensures op.ConfirmRemoved? && !present && existing.Some? && existing.value.state == Draining
  {
    match op
    case MakeReady(k, offered, head) => MakeReadyExactly(k, offered, head, existing, present, now);
    case PrepareRemove(path, manager) => PrepareRemoveExactly(path, manager, existing, present, now);
    case ConfirmRemoved(path, manager) => ConfirmRemovedExactly(path, manager, existing, present, now);
    case CancelRemove(k, manager) => CancelRemoveExactly(k, manager, existing, present, now);
  }

  /**
   Over every run a record becomes removed only by a hook that found it draining and its path absent when
   it decided.
   */
  lemma RemovedOnlyWhenAbsent(states: seq<State>, events: seq<Event>, i: nat, k: Key) returns (d: nat)
    requires IsRun(states, events) && i + 1 < |states|
    requires Lookup(states[i].world.records, k) != Lookup(states[i + 1].world.records, k)
    requires k in states[i + 1].world.records && states[i + 1].world.records[k].state == Removed
    ensures events[i].Acts? && d < i
    ensures DecidedAt(states, events, d, events[i].pid, k, Lookup(states[i].world.records, k), states[i + 1].world.records[k])
    ensures states[d].tasks[events[i].pid].op.ConfirmRemoved? && k.path !in states[d].world.present
    ensures k in states[i].world.records && states[i].world.records[k].state == Draining
  {
    hide Effect, Decision, NoAlias, Lawful, WorldOk;
    RunKeepsInv(states, events, i);
    var s, e := states[i], events[i];
    assert Next(states[i], events[i]) == Some(states[i + 1]);
    assert ProcOk(s.world, e.pid, s.tasks[e.pid]);
    RecordsFootprint(s.world, e.pid, s.tasks[e.pid], e.action);
    d := WritingWasDecided(states, events, i, e.pid);
    var t := states[d].tasks[e.pid];
    OnlyConfirmationRemoves(t.op, t.existing, k.path in states[d].world.present, events[d].action.now);
  }
}
