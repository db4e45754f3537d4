/**
 The arena manifest: the durable record of one arena's lifecycle, pin and retirement intent.
 `Manifest` is the value stored in `arena.json`; `ArenaManifest` is the in-memory object
 whose methods change it field by field before it is written back.
 */
module ArenaManifests {
  import opened Prelude

  type Id = nat

  const ARENA_SCHEMA_VERSION: nat := 8

  datatype Stage = Reserved | Spawning | Spawned | Finalized

  datatype Outcome = NotStarted | Succeeded | FailedWith(code: int) | Terminated

  datatype Manifest = Manifest(
    schemaVersion: nat,
    arenaId: Id,
    revision: nat,
    lastUsedAt: nat,
    lastStartedAt: Option<nat>,
    lastFinishedAt: Option<nat>,
    initializationId: Option<Id>,
    lifecycleStage: Option<Stage>,
    lastOutcome: Option<Outcome>,
    pinned: bool,
    pinExpiresAt: Option<nat>,
    reservation: nat,
    lastObservedSize: nat,
    lastKnownSize: Option<nat>,
    retirementId: Option<Id>)
  {
    /** Manifests older than the lifecycle field are read by their timestamps. */
    function EffectiveStage(): Stage {
      match lifecycleStage
      case Some(stage) => stage
      case None => if lastStartedAt.Some? && lastFinishedAt.None? then Spawned else Finalized
    }

    predicate IsUnfinished() {
      !EffectiveStage().Finalized? || (lastStartedAt.Some? && lastFinishedAt.None?)
    }

    predicate IsPinnedAt(now: nat) {
      pinned && (pinExpiresAt.None? || pinExpiresAt.value > now)
    }

    function RecoveryOutcome(): Outcome {
      if EffectiveStage().Reserved? then NotStarted else Terminated
    }
  }

  /** The manifest is the one the retirement journal was written for. */
  predicate Matches(m: Manifest, n: Id, revision: nat) {
    m.retirementId == Some(n) && m.revision == revision
  }

  function SaturatingSucc(revision: nat): nat {
    if revision < U64_MAX then revision + 1 else revision
  }

  /** A manifest that has never been begun. */
  function Created(arenaId: Id, initializationId: Option<Id>, now: nat): Manifest {
    Manifest(ARENA_SCHEMA_VERSION, arenaId, 0, now, None, None, initializationId, Some(Finalized), None,
             false, None, 0, 0, None, None)
  }

  predicate OutcomeAllowed(stage: Stage, outcome: Outcome) {
    match outcome
    case NotStarted => stage.Reserved? || stage.Spawning?
    case Terminated => stage.Spawning? || stage.Spawned?
    case Succeeded => stage.Spawned?
    case FailedWith(_) => stage.Spawned?
  }

  /** Every way the store rewrites a manifest. */
  datatype Update =
    | Begin(reservation: nat, size: nat, now: nat)
    | MarkSpawning
    | MarkSpawned
    | Finish(outcome: Outcome, highWater: nat, finalBytes: Option<nat>, now: nat)
    | Recover(highWater: nat, measured: Option<nat>, now: nat)
    | SetPin(pin: bool, expiresAt: Option<nat>)
    | Prepare(retirement: Id)
    | Clear(retirement: Id)

  function Touched(m: Manifest): Manifest {
    m.(schemaVersion := ARENA_SCHEMA_VERSION, revision := SaturatingSucc(m.revision))
  }

  function Begun(m: Manifest, reservation: nat, now: nat): Manifest {
    Touched(m).(lastUsedAt := now, lastStartedAt := Some(now), lastFinishedAt := None,
                lifecycleStage := Some(Reserved), lastOutcome := None, reservation := reservation, retirementId := None)
  }

  function Observed(m: Manifest, size: nat): Manifest {
    m.(schemaVersion := ARENA_SCHEMA_VERSION, lastKnownSize := Some(size))
  }

  function Moved(m: Manifest, expected: Stage, next: Stage): Option<Manifest> {
    if m.EffectiveStage() != expected || !m.IsUnfinished() then None
    else Some(Touched(m).(lifecycleStage := Some(next)))
  }

  function Finished(m: Manifest, outcome: Outcome, highWater: nat, finalBytes: Option<nat>, now: nat): Option<Manifest> {
    if !OutcomeAllowed(m.EffectiveStage(), outcome) then None
    else
      Some(Touched(m).(lastUsedAt := now, lastFinishedAt := Some(now), lastOutcome := Some(outcome),
                       lifecycleStage := Some(Finalized), reservation := 0, lastObservedSize := highWater,
                       lastKnownSize := if finalBytes.Some? then finalBytes else m.lastKnownSize))
  }

  function WithPin(m: Manifest, pin: bool, expiresAt: Option<nat>): Manifest {
    var expires := if pin then expiresAt else None;
    if m.pinned != pin || m.pinExpiresAt != expires then Touched(m).(pinned := pin, pinExpiresAt := expires) else m
  }

  function Prepared(m: Manifest, retirement: Id): Manifest {
    Touched(m).(retirementId := Some(retirement))
  }

  function Cleared(m: Manifest, retirement: Id): Option<Manifest> {
    if m.retirementId == Some(retirement) then Some(Touched(m).(retirementId := None)) else None
  }

  /** The manifest an operation writes, or None when the operation refuses the one it read. */
  function Updated(m: Manifest, u: Update): Option<Manifest> {
    match u
    case Begin(reservation, size, now) =>
      if m.IsUnfinished() then None else Some(Observed(Begun(m, reservation, now), size))
    case MarkSpawning => Moved(m, Reserved, Spawning)
    case MarkSpawned => Moved(m, Spawning, Spawned)
    case Finish(outcome, highWater, finalBytes, now) => Finished(m, outcome, highWater, finalBytes, now)
    case Recover(highWater, measured, now) =>
      if m.IsUnfinished() then Finished(m, m.RecoveryOutcome(), highWater, measured, now) else None
    case SetPin(pin, expiresAt) => Some(WithPin(m, pin, expiresAt))
    case Prepare(retirement) => Some(Prepared(m, retirement))
    case Clear(retirement) => Cleared(m, retirement)
  }

  // ----- what each rewrite writes, field by field -----

  /** The stage a manifest is read as, from its recorded stage or else its timestamps. */
  lemma StageByFields(m: Manifest)
    ensures m.lifecycleStage.Some? ==> m.EffectiveStage() == m.lifecycleStage.value
    ensures m.lifecycleStage.None? ==>
      m.EffectiveStage() == if m.lastStartedAt.Some? && m.lastFinishedAt.None? then Spawned else Finalized
    ensures !m.IsUnfinished() <==>
      (m.lifecycleStage.None? || m.lifecycleStage.value == Finalized) && (m.lastStartedAt.None? || m.lastFinishedAt.Some?)
  {
  }

  /** The same schema and the next revision, below the end of the counter. */
  predicate Advances(m: Manifest, next: Manifest) {
    next.schemaVersion == 8 && next.revision == if m.revision == U64_MAX then U64_MAX else m.revision + 1
  }

  /**
   A pin or unpin stores exactly the pin asked for, an unpin no expiry, and nothing else; the arena is
   then pinned at exactly the times before the expiry.
   */
  lemma PinIsWhatWasAsked(m: Manifest, pin: bool, expiresAt: Option<nat>)
    requires m.revision <= U64_MAX
    ensures Updated(m, SetPin(pin, expiresAt)).Some?
    ensures var next := Updated(m, SetPin(pin, expiresAt)).value;
      && next.pinned == pin && next.pinExpiresAt == (if pin then expiresAt else None)
      && next == m.(schemaVersion := next.schemaVersion, revision := next.revision,
                    pinned := next.pinned, pinExpiresAt := next.pinExpiresAt)
      && (next == m || Advances(m, next))
      && (next == m <==> m.pinned == pin && m.pinExpiresAt == if pin then expiresAt else None)
      && forall now: nat :: next.IsPinnedAt(now) <==> pin && (expiresAt.None? || now < expiresAt.value)
  {
  }

  /** A new manifest is at revision 0, finished, unpinned and without intent or known size. */
  lemma CreatedByFields(arenaId: Id, initializationId: Option<Id>, now: nat)
    ensures var m := Created(arenaId, initializationId, now);
      && m.arenaId == arenaId && m.initializationId == initializationId && m.revision == 0 && m.schemaVersion == 8
      && !m.IsUnfinished() && m.lastOutcome.None? && m.lastUsedAt == now && m.lastStartedAt.None? && m.lastFinishedAt.None?
      && !m.pinned && m.pinExpiresAt.None? && m.retirementId.None? && m.reservation == 0 && m.lastKnownSize.None?
  {
  }

  /** A build begins exactly on a finished manifest. */
  lemma BeginByFields(m: Manifest, reservation: nat, size: nat, now: nat)
    requires m.revision <= U64_MAX
    ensures Updated(m, Begin(reservation, size, now)).Some? <==> !m.IsUnfinished()
    ensures !m.IsUnfinished() ==>
      var next := Updated(m, Begin(reservation, size, now)).value;
      && Advances(m, next)
      && next == m.(schemaVersion := next.schemaVersion, revision := next.revision, lastUsedAt := now,
                    lastStartedAt := Some(now), lastFinishedAt := None, lifecycleStage := Some(Reserved), lastOutcome := None,
                    reservation := reservation, lastKnownSize := Some(size), retirementId := None)
  {
  }

  /** The spawn marks advance a reserved and then a spawning build, and nothing else. */
  lemma MarksByFields(m: Manifest, spawned: bool)
    requires m.revision <= U64_MAX
    ensures var u, from, to := if spawned then MarkSpawned else MarkSpawning,
                               if spawned then Spawning else Reserved, if spawned then Spawned else Spawning;
      && (Updated(m, u).Some? <==> m.lifecycleStage == Some(from))
      && (Updated(m, u).Some? ==>
            && Advances(m, Updated(m, u).value)
            && Updated(m, u).value
               == m.(schemaVersion := Updated(m, u).value.schemaVersion, revision := Updated(m, u).value.revision,
                     lifecycleStage := Some(to)))
  {
  }

  /** The outcomes a build can end with, by its stage; a manifest without a recorded stage counts as spawned. */
  predicate MayEnd(m: Manifest, outcome: Outcome) {
    match m.EffectiveStage()
    case Reserved => outcome == NotStarted
    case Spawning => outcome == NotStarted || outcome == Terminated
    case Spawned => outcome != NotStarted
    case Finalized => false
  }

  /** A build ends exactly with an outcome its stage allows; a missing measurement keeps the last known size. */
  lemma FinishByFields(m: Manifest, outcome: Outcome, highWater: nat, finalBytes: Option<nat>, now: nat)
    requires m.revision <= U64_MAX
    ensures Updated(m, Finish(outcome, highWater, finalBytes, now)).Some? <==> MayEnd(m, outcome)
    ensures MayEnd(m, outcome) ==>
      var next := Updated(m, Finish(outcome, highWater, finalBytes, now)).value;
      && Advances(m, next)
      && next == m.(schemaVersion := next.schemaVersion, revision := next.revision, lastUsedAt := now,
                    lastFinishedAt := Some(now), lastOutcome := Some(outcome), lifecycleStage := Some(Finalized),
                    reservation := 0, lastObservedSize := highWater,
                    lastKnownSize := if finalBytes.Some? then finalBytes else m.lastKnownSize)
  {
  }

  /** A recovery is the finish whose outcome is that of a build that never started, or else was terminated. */
  lemma RecoveryByFields(m: Manifest, highWater: nat, measured: Option<nat>, now: nat)
    requires m.revision <= U64_MAX
    ensures !m.IsUnfinished() ==> Updated(m, Recover(highWater, measured, now)).None?
    ensures m.IsUnfinished() ==>
      Updated(m, Recover(highWater, measured, now))
      == Updated(m, Finish(if m.lifecycleStage == Some(Reserved) then NotStarted else Terminated, highWater, measured, now))
  {
  }

  /** Intents are written and cleared alone, and only the named intent is cleared. */
  lemma IntentsByFields(m: Manifest, n: Id)
    requires m.revision <= U64_MAX
    ensures Updated(m, Prepare(n)).Some? && (Updated(m, Clear(n)).Some? <==> m.retirementId == Some(n))
    ensures var next := Updated(m, Prepare(n)).value;
      && Advances(m, next)
      && next == m.(schemaVersion := next.schemaVersion, revision := next.revision, retirementId := Some(n))
    ensures m.retirementId == Some(n) ==>
      var next := Updated(m, Clear(n)).value;
      && Advances(m, next)
      && next == m.(schemaVersion := next.schemaVersion, revision := next.revision, retirementId := None)
  {
  }

  /**
   Revision discipline: below the end of the counter, a rewrite either changes nothing or
   strictly grows the revision, so equal revisions mean equal manifests.
   */
  lemma EqualRevisionMeansEqualManifest(m: Manifest, u: Update)
    requires Updated(m, u).Some? && m.revision < U64_MAX
    ensures var next := Updated(m, u).value;
      next == m || next.revision == m.revision + 1
    ensures Updated(m, u).value == m ==> u.SetPin? && m.pinned == u.pin
  {
  }

  /** The exact limit of the discipline: at the end of the counter a rewrite can hide behind an equal revision. */
  lemma RevisionGrowsExactlyBelowTheLimit(m: Manifest, u: Update)
    requires m.revision <= U64_MAX && Updated(m, u).Some? && Updated(m, u).value != m
    ensures Updated(m, u).value.revision > m.revision <==> m.revision < U64_MAX
  {
  }

  lemma SaturatedRevisionHidesABuild()
    ensures exists m: Manifest, u: Update ::
      && !m.IsUnfinished() && Updated(m, u).Some? && Updated(m, u).value.IsUnfinished()
      && Updated(m, u).value.revision == m.revision
  {
    var m := Created(0, None, 0).(revision := U64_MAX);
    var u := Begin(0, 0, 0);
    assert Updated(m, u).Some? && Updated(m, u).value.IsUnfinished() && Updated(m, u).value.revision == m.revision;
  }

  /** A build can only end by an explicit finish or recovery, and only begin by `Begin`. */
  lemma LifecycleChangesOnlyByItsOwnOperations(m: Manifest, u: Update)
    requires Updated(m, u).Some?
    ensures m.IsUnfinished() && !Updated(m, u).value.IsUnfinished() ==> u.Finish? || u.Recover?
    ensures !m.IsUnfinished() && Updated(m, u).value.IsUnfinished() ==> u.Begin?
    ensures m.IsUnfinished() ==> !u.Begin?
    ensures u.Finish? || u.Recover? ==> !Updated(m, u).value.IsUnfinished() && Updated(m, u).value.reservation == 0
  {
  }

  /** A success or failure code is only ever recorded for a build that was marked spawned. */
  lemma ExitCodesNeedASpawnedBuild(m: Manifest, u: Update)
    requires Updated(m, u).Some? && Updated(m, u).value.lastOutcome != m.lastOutcome
    requires var next := Updated(m, u).value.lastOutcome;
      next == Some(Succeeded) || (next.Some? && next.value.FailedWith?)
    ensures u.Finish? && m.EffectiveStage() == Spawned
  {
  }

  /** A manifest recorded as finalized has its last build finished. */
  predicate Coherent(m: Manifest) {
    m.lifecycleStage == Some(Finalized) && m.lastStartedAt.Some? ==> m.lastFinishedAt.Some?
  }

  lemma CoherenceIsKept(m: Manifest, u: Update)
    requires Coherent(m) && Updated(m, u).Some?
    ensures Coherent(Updated(m, u).value)
  {
  }

  /** Recovery of an unfinished build is refused exactly when the manifest is not coherent. */
  lemma RecoverySucceedsExactlyWhenCoherent(m: Manifest, highWater: nat, measured: Option<nat>, now: nat)
    requires m.IsUnfinished()
    ensures Updated(m, Recover(highWater, measured, now)).Some? <==> Coherent(m)
    ensures Coherent(m) ==>
      Updated(m, Recover(highWater, measured, now)).value.lastOutcome
      == Some(if m.EffectiveStage().Reserved? then NotStarted else Terminated)
  {
  }

  // ----- many rewrites -----

  /** The manifest after a sequence of rewrites below the end of the revision counter. */
  function Rewritten(m: Manifest, updates: seq<Update>): Option<Manifest> {
    if updates == [] then Some(m)
    else
      match Rewritten(m, updates[..|updates| - 1])
      case None => None
      case Some(before) => if before.revision < U64_MAX then Updated(before, updates[|updates| - 1]) else None
  }

  /** Over any number of rewrites an equal revision means an equal manifest. */
  lemma {:induction false} RevisionNeverComesBack(m: Manifest, updates: seq<Update>)
    requires Rewritten(m, updates).Some?
    ensures Rewritten(m, updates).value == m || Rewritten(m, updates).value.revision > m.revision
  {
    if updates != [] {
      var last := |updates| - 1;
      RevisionNeverComesBack(m, updates[..last]);
      EqualRevisionMeansEqualManifest(Rewritten(m, updates[..last]).value, updates[last]);
    }
  }

  /**
   A begun build is reserved and unfinished, keeps the pin, forgets every intent, and whatever
   happens to it later never matches a journal written before it began.
   */
  lemma ABegunBuildOutdatesEveryJournal(
      m: Manifest, reservation: nat, size: nat, now: nat, later: seq<Update>, n: Id, revision: nat)
    requires !m.IsUnfinished() && revision <= m.revision < U64_MAX
    ensures var begun := Observed(Begun(m, reservation, now), size);
      && Updated(m, Begin(reservation, size, now)) == Some(begun)
      && begun.IsUnfinished() && begun.EffectiveStage() == Reserved && begun.retirementId.None?
      && begun.pinned == m.pinned && begun.pinExpiresAt == m.pinExpiresAt && begun.initializationId == m.initializationId
      && begun.reservation == reservation && begun.lastKnownSize == Some(size)
      && (Rewritten(begun, later).Some? ==> !Matches(Rewritten(begun, later).value, n, revision))
  {
    var begun := Observed(Begun(m, reservation, now), size);
    if Rewritten(begun, later).Some? {
      RevisionNeverComesBack(begun, later);
    }
  }

  /**
   Observing a size does not show in the revision, nor in anything a journal or a lease depends on:
   it must share a rewrite with one that does, as it shares that of a begun build.
   */
  lemma AnObservedSizeDoesNotShow(m: Manifest, size: nat, reservation: nat, now: nat)
    ensures Observed(m, size).revision == m.revision
    ensures Observed(m, size) == m <==> m.lastKnownSize == Some(size) && m.schemaVersion == ARENA_SCHEMA_VERSION
    ensures Observed(m, size).IsUnfinished() == m.IsUnfinished() && Observed(m, size).EffectiveStage() == m.EffectiveStage()
    ensures forall n, revision :: Matches(Observed(m, size), n, revision) == Matches(m, n, revision)
    ensures forall t :: Observed(m, size).IsPinnedAt(t) == m.IsPinnedAt(t)
    ensures m.revision < U64_MAX ==> Observed(Begun(m, reservation, now), size).revision > m.revision
  {
  }

  /** An intent matches the journal of its own revision until the manifest next changes, and never after that. */
  lemma AnIntentMatchesUntilTheNextChange(m: Manifest, n: Id, later: seq<Update>)
    requires m.revision < U64_MAX && Rewritten(Prepared(m, n), later).Some?
    ensures Matches(Prepared(m, n), n, m.revision + 1) && Prepared(m, n).IsUnfinished() == m.IsUnfinished()
    ensures Matches(Rewritten(Prepared(m, n), later).value, n, m.revision + 1)
            <==> Rewritten(Prepared(m, n), later).value == Prepared(m, n)
  {
    RevisionNeverComesBack(Prepared(m, n), later);
  }

  /** The in-memory manifest that store operations edit between reading and writing `arena.json`. */
  class ArenaManifest {
    var schemaVersion: nat
    const arenaId: Id
    var revision: nat
    var lastUsedAt: nat
    var lastStartedAt: Option<nat>
    var lastFinishedAt: Option<nat>
    const initializationId: Option<Id>
    var lifecycleStage: Option<Stage>
    var lastOutcome: Option<Outcome>
    var pinned: bool
    var pinExpiresAt: Option<nat>
    var reservation: nat
    var lastObservedSize: nat
    var lastKnownSize: Option<nat>
    var retirementId: Option<Id>

    function Value(): Manifest
      reads this
    {
      Manifest(schemaVersion, arenaId, revision, lastUsedAt, lastStartedAt, lastFinishedAt, initializationId,
               lifecycleStage, lastOutcome, pinned, pinExpiresAt, reservation, lastObservedSize, lastKnownSize, retirementId)
    }

    constructor Load(m: Manifest)
      ensures Value() == m
    {
      schemaVersion, arenaId, revision, lastUsedAt := m.schemaVersion, m.arenaId, m.revision, m.lastUsedAt;
      lastStartedAt, lastFinishedAt, initializationId := m.lastStartedAt, m.lastFinishedAt, m.initializationId;
      lifecycleStage, lastOutcome, pinned, pinExpiresAt := m.lifecycleStage, m.lastOutcome, m.pinned, m.pinExpiresAt;
      reservation, lastObservedSize, lastKnownSize := m.reservation, m.lastObservedSize, m.lastKnownSize;
      retirementId := m.retirementId;
    }

    method Touch()
      modifies this`schemaVersion, this`revision
      ensures Value() == Touched(old(Value()))
    {
      schemaVersion := ARENA_SCHEMA_VERSION;
      revision := SaturatingSucc(revision);
    }

    method Begin(reserved: nat, now: nat)
      modifies this
      ensures Value() == Begun(old(Value()), reserved, now)
      ensures Value().IsUnfinished() && Value().EffectiveStage() == Reserved && retirementId.None?
      ensures reservation == reserved && lastStartedAt == Some(now) && lastUsedAt == now && lastKnownSize == old(lastKnownSize)
      ensures pinned == old(pinned) && pinExpiresAt == old(pinExpiresAt)
      ensures old(revision) < U64_MAX ==> revision > old(revision)
    {
      Touch();
      lastUsedAt := now;
      lastStartedAt := Some(now);
      lastFinishedAt := None;
      lifecycleStage := Some(Reserved);
      lastOutcome := None;
      reservation := reserved;
      retirementId := None;
    }

    method ObserveSize(size: nat)
      modifies this
      ensures Value() == Observed(old(Value()), size)
      ensures revision == old(revision) && Value().IsUnfinished() == old(Value().IsUnfinished())
      ensures lastKnownSize == Some(size) && Value() == old(Value()).(schemaVersion := schemaVersion, lastKnownSize := lastKnownSize)
    {
      schemaVersion := ARENA_SCHEMA_VERSION;
      lastKnownSize := Some(size);
    }

    method Transition(expected: Stage, next: Stage) returns (ok: bool)
      modifies this
      ensures ok == Moved(old(Value()), expected, next).Some?
      ensures Value() == Moved(old(Value()), expected, next).GetOr(old(Value()))
      ensures ok <==> old(Value().EffectiveStage() == expected && Value().IsUnfinished())
      ensures ok ==> lifecycleStage == Some(next)
    {
      if Value().EffectiveStage() != expected || !Value().IsUnfinished() {
        return false;
      }
      Touch();
      lifecycleStage := Some(next);
      ok := true;
    }

    method Finish(outcome: Outcome, highWater: nat, finalBytes: Option<nat>, now: nat) returns (ok: bool)
      modifies this
      ensures ok == Finished(old(Value()), outcome, highWater, finalBytes, now).Some?
      ensures Value() == Finished(old(Value()), outcome, highWater, finalBytes, now).GetOr(old(Value()))
      ensures ok <==> MayEnd(old(Value()), outcome)
      ensures ok ==> !Value().IsUnfinished() && lastOutcome == Some(outcome) && reservation == 0 && lastObservedSize == highWater
      ensures ok ==> lastKnownSize == if finalBytes.Some? then finalBytes else old(lastKnownSize)
    {
      if !OutcomeAllowed(Value().EffectiveStage(), outcome) {
        return false;
      }
      Touch();
      lastUsedAt := now;
      lastFinishedAt := Some(now);
      lastOutcome := Some(outcome);
      lifecycleStage := Some(Finalized);
      reservation := 0;
      lastObservedSize := highWater;
      if finalBytes.Some? {
        lastKnownSize := finalBytes;
      }
      ok := true;
    }

    method SetPin(pin: bool, expiresAt: Option<nat>)
      modifies this
      ensures Value() == WithPin(old(Value()), pin, expiresAt)
      ensures pinned == pin && pinExpiresAt == if pin then expiresAt else None
      ensures Value() == old(Value()).(schemaVersion := schemaVersion, revision := revision,
                                       pinned := pinned, pinExpiresAt := pinExpiresAt)
      ensures forall now: nat :: Value().IsPinnedAt(now) <==> pin && (expiresAt.None? || now < expiresAt.value)
    {
      var expires := if pin then expiresAt else None;
      if pinned != pin || pinExpiresAt != expires {
        Touch();
        pinned := pin;
        pinExpiresAt := expires;
      }
    }

    method PrepareRetirement(retirement: Id)
      modifies this
      ensures Value() == Prepared(old(Value()), retirement)
      ensures Matches(Value(), retirement, revision) && Value().IsUnfinished() == old(Value().IsUnfinished())
      ensures old(revision) < U64_MAX ==> revision > old(revision)
    {
      Touch();
      retirementId := Some(retirement);
    }

    method ClearRetirement(retirement: Id) returns (cleared: bool)
      modifies this
      ensures cleared == Cleared(old(Value()), retirement).Some?
      ensures Value() == Cleared(old(Value()), retirement).GetOr(old(Value()))
      ensures cleared <==> old(retirementId) == Some(retirement)
      ensures retirementId == if cleared then None else old(retirementId)
    {
      if retirementId == Some(retirement) {
        Touch();
        retirementId := None;
        cleared := true;
      } else {
        cleared := false;
      }
    }
  }
}
