/**
 Budget accounting across arenas. A snapshot reads one arena at a time while builds finish, pins
 change and build directories grow; the collection lock only keeps other admissions out.
 */
module Accounting {
  import opened Prelude
  import opened ByteSizes
  import opened ArenaManifests

  /** One arena: its manifest, the bytes really in it, and whether a lease holds its lock. */
  datatype Arena = Arena(manifest: Manifest, actual: nat, live: bool)

  /** The arenas of the store in a fixed order; a retired arena leaves its slot empty. */
  type Slots = seq<Option<Arena>>

  /** What the arena is charged: its last durable size and what its build may still add. */
  function Charge(slot: Option<Arena>): nat {
    match slot
    case None => 0
    case Some(a) => a.manifest.lastKnownSize.GetOr(0) + a.manifest.reservation
  }

  function Bytes(slot: Option<Arena>): nat {
    match slot
    case None => 0
    case Some(a) => a.actual
  }

  function Charges(slots: Slots): (r: seq<nat>)
    ensures |r| == |slots|
  {
    seq(|slots|, i requires 0 <= i < |slots| => Charge(slots[i]))
  }

  function AllBytes(slots: Slots): (r: seq<nat>)
    ensures |r| == |slots|
  {
    seq(|slots|, i requires 0 <= i < |slots| => Bytes(slots[i]))
  }

  /** The bytes are covered by the charge, and only unfinished builds hold a reservation. */
  predicate Covered(slot: Option<Arena>) {
    slot.Some? ==>
      && slot.value.actual <= Charge(slot)
      && (!slot.value.manifest.IsUnfinished() ==> slot.value.manifest.reservation == 0)
  }

  /** The arena has a durable size and no interrupted retirement. */
  predicate Certain(slot: Option<Arena>) {
    slot.Some? ==> slot.value.manifest.lastKnownSize.Some? && slot.value.manifest.retirementId.None?
  }

  predicate AllCertain(slots: Slots) {
    forall i :: 0 <= i < |slots| ==> Certain(slots[i])
  }

  predicate AllCovered(slots: Slots) {
    forall i :: 0 <= i < |slots| ==> Covered(slots[i])
  }

  /** What can happen to one arena: creation, promotion after a crash, a new build, and everything else. */
  datatype Change =
    | Creates(initialization: Id, reservation: nat, bytes: nat, now: nat)
    | Promotes(initialization: Id, bytes: nat, now: nat)
    | Begins(reservation: nat, now: nat)
    | Grows(to: nat)
    | Marks(spawned: bool)
    | Finishes(outcome: Outcome, highWater: nat, measured: bool, now: nat)
    | Recovers(highWater: nat, measured: bool, now: nat)
    | Pins(pin: bool, expiresAt: Option<nat>)
    | Intends(retirement: Id)
    | Repairs(retirement: Id)
    | Unlocks
    | Retires

  /** The changes that only an admission makes, under the collection lock. */
  predicate IsAdmission(c: Change) {
    c.Creates? || c.Promotes? || c.Begins?
  }

  /** A new arena as admission stages it: begun, with its tree measured. */
  function Staged(initialization: Id, reservation: nat, bytes: nat, now: nat): Manifest {
    Observed(Begun(Created(0, Some(initialization), now), reservation, now), bytes)
  }

  /** The manifest rewrite behind a change; a failed measurement keeps the last durable size. */
  function Rewrite(a: Arena, c: Change): Option<Update> {
    match c
    case Begins(reservation, now) => Some(Begin(reservation, a.actual, now))
    case Marks(spawned) => Some(if spawned then MarkSpawned else MarkSpawning)
    case Finishes(outcome, highWater, measured, now) =>
      Some(Finish(outcome, highWater, Some(if measured then a.actual else a.manifest.lastKnownSize.GetOr(0)), now))
    case Recovers(highWater, measured, now) =>
      Some(Recover(highWater, if measured then Some(a.actual) else None, now))
    case Pins(pin, expiresAt) => Some(SetPin(pin, expiresAt))
    case Intends(retirement) => Some(Prepare(retirement))
    case Repairs(retirement) => Some(Clear(retirement))
    case _ => None
  }

  /** The slot after the change, or None when the change cannot happen. A build grows within its reservation. */
  function Changed(slot: Option<Arena>, c: Change): Option<Option<Arena>> {
    match slot
    case None => (
      match c
      case Creates(i, reservation, bytes, now) => Some(Some(Arena(Staged(i, reservation, bytes, now), bytes, true)))
      case Promotes(i, bytes, now) =>
        Some(Some(Arena(Finished(Staged(i, 0, bytes, now), NotStarted, bytes, Some(bytes), now).value, bytes, false)))
      case _ => None)
    case Some(a) =>
      match c
      case Creates(_, _, _, _) => None
      case Promotes(_, _, _) => None
      case Begins(_, _) =>
        if a.live || Updated(a.manifest, Rewrite(a, c).value).None? then None
        else Some(Some(a.(manifest := Updated(a.manifest, Rewrite(a, c).value).value, live := true)))
      case Grows(to) =>
        if a.manifest.IsUnfinished() && to <= Charge(slot) then Some(Some(a.(actual := to))) else None
      case Unlocks => Some(Some(a.(live := false)))
      case Retires => if a.manifest.IsUnfinished() then None else Some(None)
      case _ =>
        match Updated(a.manifest, Rewrite(a, c).value)
        case None => None
        case Some(m) => Some(Some(a.(manifest := m)))
  }

  /** Without an admission no step raises what an arena is charged. */
  lemma ChargeNeverRises(slot: Option<Arena>, c: Change)
    requires Covered(slot) && Changed(slot, c).Some? && !IsAdmission(c)
    ensures Charge(Changed(slot, c).value) <= Charge(slot)
  {
  }

  /** An admission measures the tree, so it covers the bytes whatever the manifest said before. */
  lemma AdmissionCovers(slot: Option<Arena>, c: Change)
    requires Changed(slot, c).Some? && IsAdmission(c)
    ensures Covered(Changed(slot, c).value) && Certain(Changed(slot, c).value)
    ensures Charge(Changed(slot, c).value) == Bytes(Changed(slot, c).value) + (if c.Promotes? then 0 else c.reservation)
  {
  }

  /**
   The bytes stay covered, except exactly when a build ends unmeasured after growing past the last
   durable size: its reservation is given back although its growth was never recorded.
   */
  lemma BytesStayCoveredUnlessUnmeasured(slot: Option<Arena>, c: Change)
    requires Covered(slot) && Changed(slot, c).Some?
    ensures Covered(Changed(slot, c).value) <==> !LosesGrowth(slot, c)
  {
    if IsAdmission(c) {
      AdmissionCovers(slot, c);
    }
  }

  /** A build ends unmeasured after growing past its last durable size. */
  predicate LosesGrowth(slot: Option<Arena>, c: Change) {
    (c.Finishes? || c.Recovers?) && !c.measured && slot.Some? && slot.value.actual > slot.value.manifest.lastKnownSize.GetOr(0)
  }

  /** A change whose measurement, if it takes one, succeeds. */
  predicate Measured(c: Change) {
    (c.Finishes? || c.Recovers?) ==> c.measured
  }

  // ----- totals -----

  lemma {:induction false} SumIsMonotone(xs: seq<nat>, ys: seq<nat>)
    requires |xs| == |ys| && forall i :: 0 <= i < |xs| ==> xs[i] <= ys[i]
    ensures Sum(xs) <= Sum(ys)
  {
    if xs != [] {
      SumIsMonotone(xs[..|xs| - 1], ys[..|ys| - 1]);
    }
  }

  /** A run of the store from empty slots: one change at a time. */
  ghost predicate IsRun(states: seq<Slots>, at: seq<nat>, changes: seq<Change>) {
    && |states| == |changes| + 1 && |at| == |changes|
    && (forall i :: 0 <= i < |states[0]| ==> states[0][i].None?)
    && forall k :: 0 <= k < |changes| ==> IsStep(states[k], at[k], changes[k], states[k + 1])
  }

  predicate IsStep(before: Slots, i: nat, c: Change, after: Slots) {
    i < |before| && Changed(before[i], c).Some? && after == before[i := Changed(before[i], c).value]
  }

  predicate AllMeasured(changes: seq<Change>) {
    forall k :: 0 <= k < |changes| ==> Measured(changes[k])
  }

  /** No build of the run ends unmeasured after growing past its last durable size. */
  ghost predicate LosesNothing(states: seq<Slots>, at: seq<nat>, changes: seq<Change>)
    requires IsRun(states, at, changes)
  {
    forall k :: 0 <= k < |changes| ==> IsStep(states[k], at[k], changes[k], states[k + 1]) && !LosesGrowth(states[k][at[k]], changes[k])
  }

  lemma MeasuredLosesNothing(states: seq<Slots>, at: seq<nat>, changes: seq<Change>)
    requires IsRun(states, at, changes) && AllMeasured(changes)
    ensures LosesNothing(states, at, changes)
  {
    forall k | 0 <= k < |changes|
      ensures IsStep(states[k], at[k], changes[k], states[k + 1]) && !LosesGrowth(states[k][at[k]], changes[k])
    {
      assert Measured(changes[k]);
    }
  }

  lemma {:induction false} LosingNothingCovers(states: seq<Slots>, at: seq<nat>, changes: seq<Change>, k: nat)
    requires IsRun(states, at, changes) && k < |states| && LosesNothing(states, at, changes)
    ensures AllCovered(states[k])
  {
    if k > 0 {
      LosingNothingCovers(states, at, changes, k - 1);
      assert IsStep(states[k - 1], at[k - 1], changes[k - 1], states[k - 1 + 1]);
      BytesStayCoveredUnlessUnmeasured(states[k - 1][at[k - 1]], changes[k - 1]);
    }
  }

  /** Over any run the bytes of every arena are covered by its charge throughout, exactly when no growth is lost. */
  lemma CoverageHoldsExactlyWithoutLostGrowth(states: seq<Slots>, at: seq<nat>, changes: seq<Change>)
    requires IsRun(states, at, changes)
    ensures (forall k :: 0 <= k < |states| ==> AllCovered(states[k])) <==> LosesNothing(states, at, changes)
  {
    if LosesNothing(states, at, changes) {
      forall k | 0 <= k < |states|
        ensures AllCovered(states[k])
      {
        LosingNothingCovers(states, at, changes, k);
      }
    } else {
      var k :| 0 <= k < |changes|
        && !(IsStep(states[k], at[k], changes[k], states[k + 1]) && !LosesGrowth(states[k][at[k]], changes[k]));
      assert IsStep(states[k], at[k], changes[k], states[k + 1]);
      if AllCovered(states[k]) {
        BytesStayCoveredUnlessUnmeasured(states[k][at[k]], changes[k]);
        assert !Covered(states[k + 1][at[k]]);
      }
    }
  }

  /**
   From any point of a run at which the charges are within the budget they stay there, and so do
   the bytes really in the arenas, until the next admission.
   */
  lemma {:induction false} BudgetHoldsUntilTheNextAdmission(
      states: seq<Slots>, at: seq<nat>, changes: seq<Change>, from: nat, k: nat, budget: nat)
    requires IsRun(states, at, changes) && LosesNothing(states, at, changes) && from <= k < |states|
    requires Sum(Charges(states[from])) <= budget
    requires forall j :: from <= j < k ==> !IsAdmission(changes[j])
    ensures Sum(AllBytes(states[k])) <= Sum(Charges(states[k])) <= budget
    decreases k
  {
    LosingNothingCovers(states, at, changes, k);
    if k > from {
      BudgetHoldsUntilTheNextAdmission(states, at, changes, from, k - 1, budget);
      LosingNothingCovers(states, at, changes, k - 1);
      assert IsStep(states[k - 1], at[k - 1], changes[k - 1], states[k - 1 + 1]);
      ChargeNeverRises(states[k - 1][at[k - 1]], changes[k - 1]);
      SumIsMonotone(Charges(states[k]), Charges(states[k - 1]));
    }
    SumIsMonotone(AllBytes(states[k]), Charges(states[k]));
  }

  lemma SumOfTwo(x: nat, y: nat)
    ensures Sum([x, y]) == x + y
  {
    assert [x, y][..1] == [x] && [x][..0] == [];
    assert Sum([x]) == x;
  }

  /** A run so far, and its slots now. */
  datatype Run = Run(states: seq<Slots>, at: seq<nat>, changes: seq<Change>) {
    ghost predicate Ends(slots: Slots) {
      IsRun(states, at, changes) && states[|changes|] == slots
    }
  }

  lemma EmptyRun() returns (run: Run)
    ensures run.Ends([None, None]) && run.changes == []
  {
    run := Run([[None, None]], [], []);
  }

  lemma NewCharge(i: nat)
    ensures var slot := Some(Arena(Staged(i, 10, 0, 0), 0, true)); Charge(slot) == 10 && Certain(slot) && Bytes(slot) == 0
  {
  }

  lemma RunGrows(run: Run, slots: Slots, i: nat, c: Change) returns (longer: Run)
    requires run.Ends(slots) && i < |slots| && Changed(slots[i], c).Some?
    ensures longer == Run(run.states + [slots[i := Changed(slots[i], c).value]], run.at + [i], run.changes + [c])
    ensures longer.Ends(slots[i := Changed(slots[i], c).value])
  {
    hide Changed;
    var next := slots[i := Changed(slots[i], c).value];
    longer := Run(run.states + [next], run.at + [i], run.changes + [c]);
    forall k | 0 <= k < |longer.changes|
      ensures IsStep(longer.states[k], longer.at[k], longer.changes[k], longer.states[k + 1])
    {
      if k < |run.changes| {
        assert IsStep(run.states[k], run.at[k], run.changes[k], run.states[k + 1]);
      }
    }
  }

  /** An arena is created with a reservation of 10. */
  lemma AnArenaIsCreated(run: Run, slots: Slots, i: nat) returns (longer: Run, after: Slots)
    requires run.Ends(slots) && i < |slots| && slots[i].None?
    ensures after == slots[i := Some(Arena(Staged(i, 10, 0, 0), 0, true))] && longer.Ends(after)
    ensures longer.changes == run.changes + [Creates(i, 10, 0, 0)]
  {
    hide Staged;
    longer := RunGrows(run, slots, i, Creates(i, 10, 0, 0));
    after := slots[i := Some(Arena(Staged(i, 10, 0, 0), 0, true))];
  }

  /** Its build starts and grows by all of it. */
  lemma ABuildGrows(run: Run, slots: Slots, i: nat) returns (longer: Run, after: Slots)
    requires run.Ends(slots) && i < |slots| && slots[i] == Some(Arena(Staged(i, 10, 0, 0), 0, true))
    ensures longer.Ends(after) && |after| == |slots| && after == slots[i := after[i]]
    ensures after[i].Some? && after[i].value.actual == 10 && after[i].value.manifest.EffectiveStage() == Spawning
    ensures after[i].value.manifest.lastKnownSize == Some(0) && after[i].value.manifest.retirementId.None?
    ensures longer.changes == run.changes + [Marks(false), Grows(10)] && run.states <= longer.states
  {
    var marked := Moved(Staged(i, 10, 0, 0), Reserved, Spawning).value;
    longer := RunGrows(run, slots, i, Marks(false));
    after := slots[i := Some(Arena(marked, 0, true))];
    longer := RunGrows(longer, after, i, Grows(10));
    after := slots[i := Some(Arena(marked, 10, true))];
  }

  /** It ends without a measurement: its charge is gone, its bytes are not. */
  lemma ABuildEndsUnmeasured(run: Run, slots: Slots, i: nat) returns (longer: Run, after: Slots)
    requires run.Ends(slots) && i < |slots| && slots[i].Some? && slots[i].value.manifest.EffectiveStage() == Spawning
    requires slots[i].value.manifest.lastKnownSize == Some(0) && slots[i].value.manifest.retirementId.None?
    ensures longer.Ends(after) && |after| == |slots| && after == slots[i := after[i]]
    ensures Charge(after[i]) == 0 && Certain(after[i]) && Bytes(after[i]) == Bytes(slots[i])
    ensures longer.changes == run.changes + [Finishes(Terminated, 10, false, 0)]
  {
    longer := RunGrows(run, slots, i, Finishes(Terminated, 10, false, 0));
    after := slots[i := Changed(slots[i], Finishes(Terminated, 10, false, 0)).value];
  }

  /** The charges are within the budget at `from`, all sizes are certain, no admission follows, and yet the bytes exceed it. */
  ghost predicate Overruns(run: Run, from: nat, budget: nat) {
    && IsRun(run.states, run.at, run.changes) && from < |run.states|
    && Sum(Charges(run.states[from])) <= budget && AllCertain(run.states[from])
    && (forall k :: from <= k < |run.changes| ==> !IsAdmission(run.changes[k]))
    && Sum(AllBytes(run.states[|run.changes|])) > budget
  }

  /**
   One unmeasured end is enough to break the bound: a build grows by its reservation and ends
   unmeasured, the next admission is confirmed, and when its build has grown too the bytes are
   twice the budget.
   */
  lemma AnUnmeasuredEndBreaksTheBudget()
    ensures exists run: Run, from: nat :: Overruns(run, from, 10)
  {
    hide Changed, Staged;
    var s: Slots := [None, None];
    var run := EmptyRun();
    run, s := AnArenaIsCreated(run, s, 0);
    run, s := ABuildGrows(run, s, 0);
    run, s := ABuildEndsUnmeasured(run, s, 0);
    run, s := AnArenaIsCreated(run, s, 1);
    var from := |run.changes|;
    NewCharge(1);
    assert Charges(s) == [0, 10] && AllCertain(s);
    SumOfTwo(0, 10);
    assert run.states[from] == s;
    var last;
    run, last := ABuildGrows(run, s, 1);
    assert AllBytes(last) == [10, 10];
    SumOfTwo(10, 10);
    assert Overruns(run, from, 10);
  }

  // ----- the snapshot -----

  /** What one arena contributes to a snapshot. */
  datatype Entry = Entry(size: nat, reservation: nat, certain: bool)

  datatype Snapshot = Snapshot(total: nat, reserved: nat, uncertain: nat)

  function Sizes(entries: seq<Entry>): (r: seq<nat>)
    ensures |r| == |entries|
  {
    seq(|entries|, i requires 0 <= i < |entries| => entries[i].size)
  }

  function Reservations(entries: seq<Entry>): (r: seq<nat>)
    ensures |r| == |entries|
  {
    seq(|entries|, i requires 0 <= i < |entries| => entries[i].reservation)
  }

  /** The charge of the first `i` slots. */
  function ChargedUpTo(slots: Slots, i: nat): nat
    requires i <= |slots|
  {
    Sum(Charges(slots)[..i])
  }

  /** What the entries say the arenas are charged. */
  function Reported(entries: seq<Entry>): nat {
    Sum(Sizes(entries)) + Sum(Reservations(entries))
  }

  lemma OneMoreSlot(slots: Slots, i: nat)
    requires i < |slots|
    ensures ChargedUpTo(slots, i + 1) == ChargedUpTo(slots, i) + Charge(slots[i])
  {
    assert Charges(slots)[..i + 1][..i] == Charges(slots)[..i];
  }

  lemma AllSlots(slots: Slots)
    ensures ChargedUpTo(slots, 0) == 0 && ChargedUpTo(slots, |slots|) == Sum(Charges(slots))
  {
    assert Charges(slots)[..|slots|] == Charges(slots);
  }

  lemma CheaperSlots(slots: Slots, before: Slots, i: nat)
    requires i <= |slots| == |before| && forall k :: 0 <= k < i ==> Charge(slots[k]) <= Charge(before[k])
    ensures ChargedUpTo(slots, i) <= ChargedUpTo(before, i)
  {
    SumIsMonotone(Charges(slots)[..i], Charges(before)[..i]);
  }

  lemma NoEntries()
    ensures Reported([]) == 0 && SaturatingSum(Sizes([])) == 0 && SaturatingSum(Reservations([])) == 0
  {
  }

  lemma OneMoreEntry(read: seq<Entry>, e: Entry)
    ensures Reported(read + [e]) == Reported(read) + e.size + e.reservation
    ensures SaturatingSum(Sizes(read + [e])) == SaturatingAdd(SaturatingSum(Sizes(read)), e.size)
    ensures SaturatingSum(Reservations(read + [e])) == SaturatingAdd(SaturatingSum(Reservations(read)), e.reservation)
  {
    assert Sizes(read + [e])[..|read|] == Sizes(read);
    assert Reservations(read + [e])[..|read|] == Reservations(read);
  }

  class BudgetStore {
    var slots: Slots
    // Whether every manifest can be read.
    const readable: bool
    // The run so far.
    ghost var states: seq<Slots>
    ghost var at: seq<nat>
    ghost var changes: seq<Change>

    /** The slots are those of a run whose builds end measured. */
    ghost predicate Valid()
      reads this
    {
      IsRun(states, at, changes) && AllMeasured(changes) && states[|states| - 1] == slots
    }

    constructor (arenas: nat, readable: bool)
      ensures Valid() && slots == seq(arenas, _ => None) && this.readable == readable
    {
      this.readable := readable;
      slots := seq(arenas, _ => None);
      states, at, changes := [seq(arenas, _ => None)], [], [];
    }

    lemma Coverage()
      requires Valid()
      ensures AllCovered(slots)
    {
      MeasuredLosesNothing(states, at, changes);
      LosingNothingCovers(states, at, changes, |states| - 1);
    }

    /** Slot by slot, nothing is charged more or known less than in `before`. */
    predicate NoDearerThan(before: Slots)
      reads this
    {
      && |slots| == |before|
      && (forall i :: 0 <= i < |slots| ==> Charge(slots[i]) <= Charge(before[i]))
      && (forall i :: 0 <= i < |slots| ==> Certain(before[i]) ==> Certain(slots[i]))
    }

    /** The run has gone on without an admission. */
    ghost predicate QuietSince(before: seq<Change>)
      reads this
    {
      before <= changes && forall k :: |before| <= k < |changes| ==> !IsAdmission(changes[k])
    }

    method Apply(i: nat, c: Change)
      requires Valid() && i < |slots| && Changed(slots[i], c).Some? && Measured(c)
      modifies this
      ensures Valid() && slots == old(slots)[i := Changed(old(slots)[i], c).value]
      ensures changes == old(changes) + [c] && states == old(states) + [slots]
    {
      assert IsStep(slots, i, c, slots[i := Changed(slots[i], c).value]);
      slots := slots[i := Changed(slots[i], c).value];
      states, at, changes := states + [slots], at + [i], changes + [c];
      assert forall k :: 0 <= k < |changes| - 1 ==>
        IsStep(old(states)[k], old(at)[k], old(changes)[k], old(states)[k + 1]);
    }

    /**
     Anything the other processes can do while this one holds the collection lock: builds grow
     within their reservation, finish, and release their locks, and pins change.
     */
    method Interference()
      requires Valid()
      modifies this
      ensures Valid() && NoDearerThan(old(slots)) && QuietSince(old(changes))
    {
      hide IsRun, AllMeasured, Changed, Charge, Certain, Covered;
      var steps: nat := *;
      while steps > 0
        invariant Valid() && NoDearerThan(old(slots)) && QuietSince(old(changes))
      {
        var i: int := *;
        var c: Change := *;
        if 0 <= i < |slots| && Measured(c) && (c.Grows? || c.Marks? || c.Finishes? || c.Pins? || c.Unlocks?) {
          if Changed(slots[i], c).Some? {
            QuietChange(i, c);
            Apply(i, c);
          }
        }
        steps := steps - 1;
      }
    }

    lemma QuietChange(i: nat, c: Change)
      requires Valid() && i < |slots| && Changed(slots[i], c).Some?
      requires c.Grows? || c.Marks? || c.Finishes? || c.Pins? || c.Unlocks?
      ensures Charge(Changed(slots[i], c).value) <= Charge(slots[i])
      ensures Certain(slots[i]) ==> Certain(Changed(slots[i], c).value)
      ensures !IsAdmission(c)
    {
      Coverage();
      ChargeNeverRises(slots[i], c);
    }

    /** Admission on one arena: its tree is measured and its manifest begun; an unfinished one is refused. */
    method Admit(i: nat, initialization: Id, reservation: nat, bytes: nat, now: nat) returns (ok: bool)
      requires Valid() && i < |slots|
      modifies this
      ensures Valid() && (!ok ==> slots == old(slots) && changes == old(changes))
      ensures ok <==> old(slots)[i].None? || (!old(slots)[i].value.live && !old(slots)[i].value.manifest.IsUnfinished())
      ensures ok ==>
        && |slots| == |old(slots)| && slots == old(slots)[i := slots[i]] && slots[i].Some? && slots[i].value.live
        && slots[i].value.manifest.IsUnfinished() && slots[i].value.manifest.reservation == reservation
        && Charge(slots[i]) == slots[i].value.actual + reservation
      ensures ok ==> |changes| == |old(changes)| + 1 && IsAdmission(changes[|changes| - 1])
    {
      var c := if slots[i].None? then Creates(initialization, reservation, bytes, now) else Begins(reservation, now);
      ok := Changed(slots[i], c).Some?;
      if ok {
        AdmissionCovers(slots[i], c);
        Apply(i, c);
      }
    }

    /** Reconciliation and collection under the collection lock: intents, their repair and retirements, beside all the rest. */
    method Collect()
      requires Valid()
      modifies this
      ensures Valid() && QuietSince(old(changes)) && |slots| == |old(slots)|
    {
      hide IsRun, AllMeasured, Changed, Charge, Certain, Covered;
      var steps: nat := *;
      while steps > 0
        invariant Valid() && QuietSince(old(changes)) && |slots| == |old(slots)|
      {
        Interference();
        var i: int := *;
        var c: Change := *;
        if 0 <= i < |slots| && (c.Intends? || c.Repairs? || c.Retires?) {
          if Changed(slots[i], c).Some? {
            Apply(i, c);
          }
        }
        steps := steps - 1;
      }
    }

    /** `read_entry` with cached sizes: the manifest first, the lock probe after it. */
    method ReadEntry(i: nat) returns (entry: Option<Entry>)
      requires Valid() && i < |slots|
      modifies this
      ensures Valid() && NoDearerThan(old(slots)) && QuietSince(old(changes))
      ensures entry.None? ==> Charge(slots[i]) == 0
      ensures entry.Some? <==> old(slots)[i].Some?
      ensures entry.Some? ==> entry.value.size + entry.value.reservation <= Charge(old(slots)[i])
      ensures entry.Some? && readable ==>
        && entry.value.certain == Certain(old(slots)[i])
        && entry.value.size == old(slots)[i].value.manifest.lastKnownSize.GetOr(0)
      ensures entry.Some? && entry.value.certain ==> Charge(slots[i]) <= entry.value.size + entry.value.reservation
    {
      if slots[i].None? {
        return None;
      }
      var manifest := slots[i].value.manifest;
      Coverage();
      Interference();
      var active := slots[i].Some? && slots[i].value.live;
      if !readable {
        // Something in the arena is invalid: it counts as uncertain, with the reservation of a live build if that can be read.
        if * {
          var recovered := *;
          return Some(Entry(0, if active && recovered then manifest.reservation else 0, false));
        }
      }
      var reservation := if active || manifest.IsUnfinished() then manifest.reservation else 0;
      entry := Some(Entry(manifest.lastKnownSize.GetOr(0), reservation,
                          manifest.lastKnownSize.Some? && manifest.retirementId.None?));
    }

    /** `read_arena_snapshot`: one arena at a time, with anything happening in between. */
    method ReadSnapshot() returns (snapshot: Snapshot, ghost entries: seq<Entry>)
      requires Valid()
      modifies this
      ensures Valid() && NoDearerThan(old(slots)) && QuietSince(old(changes))
      ensures snapshot.total == SaturatingSum(Sizes(entries)) && snapshot.reserved == SaturatingSum(Reservations(entries))
      ensures snapshot.uncertain == 0 <==> forall e :: e in entries ==> e.certain
      ensures snapshot.uncertain == 0 ==> Sum(Charges(slots)) <= Reported(entries)
      ensures Reported(entries) <= Sum(Charges(old(slots)))
      ensures readable && AllCertain(old(slots)) ==> snapshot.uncertain == 0
    {
      hide IsRun, AllMeasured, Covered, Charge, Certain, Sum, SaturatingSum, Charges, Sizes, Reservations, ChargedUpTo, Reported;
      var read: seq<Entry> := [];
      var total, reserved, uncertain := 0, 0, 0;
      var i := 0;
      AllSlots(slots);
      NoEntries();
      while i < |slots|
        invariant Valid() && 0 <= i <= |slots| && NoDearerThan(old(slots)) && QuietSince(old(changes))
        invariant total == SaturatingSum(Sizes(read)) && reserved == SaturatingSum(Reservations(read))
        invariant uncertain == 0 <==> forall e :: e in read ==> e.certain
        invariant uncertain == 0 ==> ChargedUpTo(slots, i) <= Reported(read)
        invariant Reported(read) <= ChargedUpTo(old(slots), i)
        invariant readable && AllCertain(old(slots)) ==> uncertain == 0
        decreases |slots| - i
      {
        ghost var earlier := slots;
        Interference();
        var entry := ReadEntry(i);
        CheaperSlots(slots, earlier, i);
        OneMoreSlot(slots, i);
        OneMoreSlot(old(slots), i);
        if entry.Some? {
          OneMoreEntry(read, entry.value);
          total, reserved := SaturatingAdd(total, entry.value.size), SaturatingAdd(reserved, entry.value.reservation);
          uncertain := if entry.value.certain then uncertain else uncertain + 1;
          read := read + [entry.value];
        }
        i := i + 1;
      }
      AllSlots(slots);
      AllSlots(old(slots));
      snapshot, entries := Snapshot(total, reserved, uncertain), read;
    }

    /** `budget_is_confirmed` on a fresh snapshot: the last check before Cargo may be spawned. */
    method ConfirmBudget(budget: nat) returns (met: bool, ghost entries: seq<Entry>)
      requires Valid() && budget <= U64_MAX
      modifies this
      ensures Valid() && NoDearerThan(old(slots)) && QuietSince(old(changes))
      ensures met <==>
        && (forall e :: e in entries ==> e.certain)
        && (budget == U64_MAX || Reported(entries) <= budget)
      ensures (forall e :: e in entries ==> e.certain) ==> Sum(Charges(slots)) <= Reported(entries)
      ensures Reported(entries) <= Sum(Charges(old(slots)))
      ensures readable && AllCertain(old(slots)) && Sum(Charges(old(slots))) <= budget ==> met
      ensures met && budget < U64_MAX ==> Sum(AllBytes(slots)) <= Sum(Charges(slots)) <= budget
    {
      hide Sum, SaturatingSum, IsRun, AllMeasured;
      var snapshot;
      snapshot, entries := ReadSnapshot();
      met := snapshot.uncertain == 0 && SaturatingAdd(snapshot.total, snapshot.reserved) <= budget;
      BudgetComparisonIsExact(Sizes(entries), Reservations(entries), budget);
      Coverage();
      SumIsMonotone(AllBytes(slots), Charges(slots));
    }

    /**
     `lease_reserved_and_collect` and the check after it. The answer is yes exactly when the lease was
     granted, every arena that was read is certain, and what was read is within the budget; `checked` are the
     slots at the check. After a yes Cargo may be spawned, and bytes and reservations of all arenas are within
     the budget until the next admission. A refused lease changes nothing, and no other admission comes in.
     */
    method AdmitWithin(i: nat, initialization: Id, reservation: nat, bytes: nat, now: nat, budget: nat)
      returns (met: bool, ghost entries: seq<Entry>, ghost checked: Slots)
      requires Valid() && i < |slots| && budget <= U64_MAX
      modifies this
      ensures Valid()
      ensures var granted :=
          old(slots)[i].None? || (!old(slots)[i].value.live && !old(slots)[i].value.manifest.IsUnfinished());
        && (met <==>
              && granted && (forall e :: e in entries ==> e.certain)
              && (budget == U64_MAX || Reported(entries) <= budget))
        && (!granted ==> slots == old(slots) && changes == old(changes))
        && (granted ==>
              && |changes| > |old(changes)| && IsAdmission(changes[|old(changes)|])
              && (forall k :: |old(changes)| < k < |changes| ==> !IsAdmission(changes[k]))
              && Reported(entries) <= Sum(Charges(checked))
              && (readable && AllCertain(checked) && Sum(Charges(checked)) <= budget ==> met))
      ensures met && budget < U64_MAX ==> Sum(AllBytes(slots)) <= Sum(Charges(slots)) <= budget
    {
      hide IsRun, AllMeasured, Sum, Changed, Charge, Certain, Covered, Charges, AllBytes;
      entries := [];
      var ok := Admit(i, initialization, reservation, bytes, now);
      checked := slots;
      if !ok {
        return false, entries, checked;
      }
      Collect();
      checked := slots;
      met, entries := ConfirmBudget(budget);
    }
  }
}
