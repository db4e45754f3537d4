/**
 The history directory under power loss: versions of the index that a crash may leave, and receipts
 as durable files plus the creations and removals that no directory sync has made durable yet.
 All writers hold the history lock, so their steps follow one another.
 */
module HistoryDisk {
  import opened Prelude
  import opened ByteSizes
  import opened Retention

  datatype Index = Index(clean: bool, count: nat, bytes: nat)

  datatype ReceiptOp = Add(receipt: Receipt) | Drop(receipt: Receipt)

  /** `indexes` are the versions a crash may leave; processes read the last one. */
  datatype Disk = Disk(indexes: seq<Option<Index>>, durable: seq<Receipt>, pending: seq<ReceiptOp>)

  // ----- receipts -----

  function Without(receipts: seq<Receipt>, r: Receipt): seq<Receipt> {
    if receipts == [] then []
    else if receipts[0] == r then receipts[1..]
    else [receipts[0]] + Without(receipts[1..], r)
  }

  lemma {:induction false} WithoutDrops(receipts: seq<Receipt>, r: Receipt)
    ensures multiset(Without(receipts, r)) == multiset(receipts) - multiset{r}
  {
    if receipts != [] {
      assert receipts == [receipts[0]] + receipts[1..];
      if receipts[0] != r {
        WithoutDrops(receipts[1..], r);
      }
    }
  }

  function Apply(receipts: seq<Receipt>, op: ReceiptOp): seq<Receipt> {
    match op
    case Add(r) => receipts + [r]
    case Drop(r) => Without(receipts, r)
  }

  function Replay(durable: seq<Receipt>, pending: seq<ReceiptOp>): seq<Receipt> {
    if pending == [] then durable
    else Apply(Replay(durable, pending[..|pending| - 1]), pending[|pending| - 1])
  }

  /** The receipts that processes see. */
  function Live(d: Disk): seq<Receipt> {
    Replay(d.durable, d.pending)
  }

  /** Every set of receipts a crash can leave: each pending operation kept or lost. */
  ghost function Survivors(durable: seq<Receipt>, pending: seq<ReceiptOp>): set<seq<Receipt>> {
    if pending == [] then {durable}
    else
      var earlier := Survivors(durable, pending[..|pending| - 1]);
      earlier + (set receipts | receipts in earlier :: Apply(receipts, pending[|pending| - 1]))
  }

  /** All that may come back: every creation kept and every removal lost. */
  function Everything(durable: seq<Receipt>, pending: seq<ReceiptOp>): seq<Receipt> {
    if pending == [] then durable
    else
      var earlier := Everything(durable, pending[..|pending| - 1]);
      match pending[|pending| - 1]
      case Add(r) => earlier + [r]
      case Drop(_) => earlier
  }

  function Most(d: Disk): seq<Receipt> {
    Everything(d.durable, d.pending)
  }

  /** Each removal was of a receipt that was there. */
  predicate Effective(durable: seq<Receipt>, pending: seq<ReceiptOp>) {
    pending != [] ==>
      var before := pending[..|pending| - 1];
      && Effective(durable, before)
      && (pending[|pending| - 1].Drop? ==> pending[|pending| - 1].receipt in Replay(durable, before))
  }

  predicate NoRemovalUnsynced(d: Disk) {
    forall op :: op in d.pending ==> !op.Drop?
  }

  lemma {:induction false} EverythingSurvives(durable: seq<Receipt>, pending: seq<ReceiptOp>)
    ensures Everything(durable, pending) in Survivors(durable, pending)
    ensures Replay(durable, pending) in Survivors(durable, pending)
  {
    if pending != [] {
      EverythingSurvives(durable, pending[..|pending| - 1]);
    }
  }

  lemma {:induction false} SurvivorsAreParts(durable: seq<Receipt>, pending: seq<ReceiptOp>, image: seq<Receipt>)
    requires image in Survivors(durable, pending)
    ensures multiset(image) <= multiset(Everything(durable, pending))
  {
    if pending != [] {
      var before, op := pending[..|pending| - 1], pending[|pending| - 1];
      if image in Survivors(durable, before) {
        SurvivorsAreParts(durable, before, image);
      } else {
        var earlier :| earlier in Survivors(durable, before) && image == Apply(earlier, op);
        SurvivorsAreParts(durable, before, earlier);
        if op.Drop? {
          WithoutDrops(earlier, op.receipt);
        }
      }
    }
  }

  lemma LiveIsPart(d: Disk)
    ensures multiset(Live(d)) <= multiset(Most(d))
    ensures |Live(d)| <= |Most(d)| && Total(Live(d), BytesOf) <= Total(Most(d), BytesOf)
  {
    EverythingSurvives(d.durable, d.pending);
    SurvivorsAreParts(d.durable, d.pending, Live(d));
    TotalOfPart(Live(d), Most(d), BytesOf);
  }

  /** Processes see everything that may come back exactly when no removal is unsynced. */
  lemma {:induction false} SeenExactlyWithoutRemovals(durable: seq<Receipt>, pending: seq<ReceiptOp>)
    requires Effective(durable, pending)
    ensures |Replay(durable, pending)| <= |Everything(durable, pending)|
    ensures |Replay(durable, pending)| == |Everything(durable, pending)| <==> forall op :: op in pending ==> !op.Drop?
    ensures (forall op :: op in pending ==> !op.Drop?) ==> Replay(durable, pending) == Everything(durable, pending)
  {
    if pending != [] {
      var before, op := pending[..|pending| - 1], pending[|pending| - 1];
      assert pending == before + [op];
      SeenExactlyWithoutRemovals(durable, before);
      if op.Drop? {
        var seen := Replay(durable, before);
        WithoutDrops(seen, op.receipt);
        assert op.receipt in multiset(seen);
        assert |multiset(Without(seen, op.receipt))| == |multiset(seen)| - 1;
        assert |Without(seen, op.receipt)| == |seen| - 1;
      }
    }
  }

  // ----- counting -----

  /** An index marked clean never counts fewer receipts or bytes than there are. */
  predicate NeverUnderCounts(index: Option<Index>, receipts: seq<Receipt>) {
    index.Some? && index.value.clean ==>
      |receipts| <= index.value.count && Total(receipts, BytesOf) <= index.value.bytes
  }

  /** Whatever survives a crash, the index does not under-count. */
  ghost predicate EveryImageCounts(d: Disk) {
    forall index, receipts ::
      index in d.indexes && receipts in Survivors(d.durable, d.pending) ==> NeverUnderCounts(index, receipts)
  }

  predicate AllCount(indexes: seq<Option<Index>>, receipts: seq<Receipt>) {
    forall index :: index in indexes ==> NeverUnderCounts(index, receipts)
  }

  lemma CountsForFewer(index: Option<Index>, receipts: seq<Receipt>, fewer: seq<Receipt>)
    requires NeverUnderCounts(index, receipts) && multiset(fewer) <= multiset(receipts)
    ensures NeverUnderCounts(index, fewer)
  {
    TotalOfPart(fewer, receipts, BytesOf);
  }

  /** It is enough, and necessary, to count everything that may come back. */
  lemma EveryImageCountsExactly(d: Disk)
    ensures EveryImageCounts(d) <==> AllCount(d.indexes, Most(d))
  {
    EverythingSurvives(d.durable, d.pending);
    if AllCount(d.indexes, Most(d)) {
      forall index, receipts | index in d.indexes && receipts in Survivors(d.durable, d.pending)
        ensures NeverUnderCounts(index, receipts)
      {
        SurvivorsAreParts(d.durable, d.pending, receipts);
        CountsForFewer(index, Most(d), receipts);
      }
    }
  }

  /** The number of the receipts and their bytes fit in 64 bits. */
  predicate Addressable(receipts: seq<Receipt>) {
    |receipts| <= U64_MAX && Total(receipts, BytesOf) <= U64_MAX
  }

  function Exact(receipts: seq<Receipt>): Index {
    Index(true, |receipts|, Total(receipts, BytesOf))
  }

  function Projected(index: Index, additional: nat): Index {
    Index(true, SaturatingAdd(index.count, 1), SaturatingAdd(index.bytes, additional))
  }

  // ----- the steps of the writers -----

  /** What brought an instant about; an index write may have been reported as an error although it is visible. */
  datatype Cause =
    | Found
    | Rebuilt
    | Dirtied(found: Index, confirmed: bool)
    | Created(found: Index, receipt: Receipt, confirmed: bool)
    | Projects
    | Removed(receipt: Receipt)
    | Synced
    | Totals
    | PowerLost

  datatype Instant = Instant(disk: Disk, cause: Cause)

  function LiveIndex(d: Disk): Option<Index> {
    if d.indexes == [] then None else d.indexes[|d.indexes| - 1]
  }

  /** The index is written: durable when the write is confirmed, one more possible version otherwise. */
  function Written(d: Disk, next: Index, confirmed: bool): Disk {
    d.(indexes := if confirmed then [Some(next)] else d.indexes + [Some(next)])
  }

  predicate Publishes(before: Disk, next: Index, after: Disk) {
    after == Written(before, next, true) || after == Written(before, next, false)
  }

  /** Creation syncs the directory of receipts, unless it is reported as an error. */
  function WithReceipt(d: Disk, r: Receipt, confirmed: bool): Disk {
    if confirmed then Disk(d.indexes, Live(d) + [r], []) else d.(pending := d.pending + [Add(r)])
  }

  /** The instant can follow the one before it. */
  ghost predicate Lawful(before: Instant, after: Instant) {
    var d, e := before.disk, after.disk;
    match after.cause
    case Found => false
    case Rebuilt => (LiveIndex(d).Some? ==> !LiveIndex(d).value.clean) && Publishes(d, Exact(Live(d)), e)
    case Dirtied(found, confirmed) =>
      LiveIndex(d) == Some(found) && found.clean && e == Written(d, found.(clean := false), confirmed)
    case Created(found, r, confirmed) => before.cause == Dirtied(found, true) && e == WithReceipt(d, r, confirmed)
    case Projects =>
      before.cause.Created? && before.cause.confirmed && Publishes(d, Projected(before.cause.found, before.cause.receipt.bytes), e)
    case Removed(r) => r in Live(d) && e == d.(pending := d.pending + [Drop(r)])
    case Synced => e == Disk(d.indexes, Live(d), [])
    case Totals => before.cause.Synced? && Publishes(d, Exact(Live(d)), e)
    case PowerLost =>
      exists index, receipts ::
        index in d.indexes && receipts in Survivors(d.durable, d.pending) && e == Disk([index], receipts, [])
  }

  predicate WellFormed(d: Disk) {
    d.indexes != [] && Effective(d.durable, d.pending)
  }

  /** A history of the directory: any number of writers, dying anywhere, and power losses. */
  ghost predicate IsHistory(trace: seq<Instant>) {
    && trace != [] && trace[0].cause.Found? && WellFormed(trace[0].disk)
    && forall k :: 0 <= k < |trace| - 1 ==> Lawful(trace[k], trace[k + 1])
  }

  ghost predicate AllAddressable(trace: seq<Instant>) {
    forall k :: 0 <= k < |trace| ==> Addressable(Most(trace[k].disk))
  }

  // ----- what holds over every history -----

  lemma OneMoreOp(durable: seq<Receipt>, pending: seq<ReceiptOp>, op: ReceiptOp)
    ensures Replay(durable, pending + [op]) == Apply(Replay(durable, pending), op)
    ensures Everything(durable, pending + [op])
         == if op.Add? then Everything(durable, pending) + [op.receipt] else Everything(durable, pending)
    ensures Effective(durable, pending + [op])
         == (Effective(durable, pending) && (op.Drop? ==> op.receipt in Replay(durable, pending)))
  {
    assert (pending + [op])[..|pending + [op]| - 1] == pending;
  }

  lemma StepKeepsWellFormed(before: Instant, after: Instant)
    requires WellFormed(before.disk) && Lawful(before, after)
    ensures WellFormed(after.disk)
  {
    hide Survivors, Replay, Exact, Projected, NeverUnderCounts;
    var d := before.disk;
    match after.cause
    case Created(_, r, _) => OneMoreOp(d.durable, d.pending, Add(r));
    case Removed(r) => OneMoreOp(d.durable, d.pending, Drop(r));
    case _ =>
  }

  lemma {:induction false} HistoriesAreWellFormed(trace: seq<Instant>, k: nat)
    requires IsHistory(trace) && k < |trace|
    ensures WellFormed(trace[k].disk)
  {
    if k > 0 {
      HistoriesAreWellFormed(trace, k - 1);
      assert Lawful(trace[k - 1], trace[k - 1 + 1]);
      StepKeepsWellFormed(trace[k - 1], trace[k]);
    }
  }

  /** What a writer relies on between two of its steps, with respect to the given receipts. */
  predicate KnowsEnough(at: Instant, receipts: seq<Receipt>) {
    match at.cause
    case Dirtied(found, confirmed) =>
      NeverUnderCounts(Some(found), receipts) && found.clean && (confirmed ==> DirtyOnly(at.disk.indexes))
    case Created(found, r, confirmed) =>
      && DirtyOnly(at.disk.indexes)
      && (confirmed ==> at.disk.pending == [] && NeverUnderCounts(Some(Projected(found, r.bytes)), receipts))
    case Synced => at.disk.pending == []
    case _ => true
  }

  predicate DirtyOnly(indexes: seq<Option<Index>>) {
    forall index :: index in indexes ==> index.Some? && !index.value.clean
  }

  /** Every version of the index counts everything that may come back. */
  ghost predicate CountsAfterCrash(at: Instant) {
    WellFormed(at.disk) && AllCount(at.disk.indexes, Most(at.disk)) && KnowsEnough(at, Most(at.disk))
  }

  /** The index that processes read counts the receipts they see. */
  ghost predicate CountsLive(at: Instant) {
    WellFormed(at.disk) && NeverUnderCounts(LiveIndex(at.disk), Live(at.disk)) && KnowsEnough(at, Live(at.disk))
  }

  lemma ProjectionCounts(found: Index, receipts: seq<Receipt>, r: Receipt)
    requires found.clean && NeverUnderCounts(Some(found), receipts) && Addressable(receipts + [r])
    ensures NeverUnderCounts(Some(Projected(found, r.bytes)), receipts + [r])
  {
    TotalOfConcat(receipts, [r], BytesOf);
    TotalOfOne(r, BytesOf);
  }

  lemma NothingPending(durable: seq<Receipt>)
    ensures Replay(durable, []) == durable && Everything(durable, []) == durable
  {
  }

  /** Creation of a receipt, confirmed or not. */
  lemma CreationKeepsCounts(before: Instant, after: Instant)
    requires CountsAfterCrash(before) && Lawful(before, after) && after.cause.Created? && Addressable(Most(after.disk))
    ensures CountsAfterCrash(after)
  {
    var d, found, r := before.disk, after.cause.found, after.cause.receipt;
    StepKeepsWellFormed(before, after);
    if after.cause.confirmed {
      NothingPending(Live(d) + [r]);
      LiveIsPart(d);
      CountsForFewer(Some(found), Most(d), Live(d));
      ProjectionCounts(found, Live(d), r);
    }
  }

  /** A sync, and whatever a power loss leaves. */
  lemma FlushKeepsCounts(before: Instant, after: Instant)
    requires CountsAfterCrash(before) && Lawful(before, after) && (after.cause.Synced? || after.cause.PowerLost?)
    ensures CountsAfterCrash(after)
  {
    var d, e := before.disk, after.disk;
    StepKeepsWellFormed(before, after);
    NothingPending(e.durable);
    if after.cause.Synced? {
      LiveIsPart(d);
    } else {
      SurvivorsAreParts(d.durable, d.pending, e.durable);
    }
    forall index | index in e.indexes
      ensures NeverUnderCounts(index, e.durable)
    {
      CountsForFewer(index, Most(d), e.durable);
    }
  }

  lemma ExactCounts(receipts: seq<Receipt>)
    ensures NeverUnderCounts(Some(Exact(receipts)), receipts)
  {
  }

  lemma WrittenIndexes(d: Disk, next: Index, confirmed: bool)
    ensures LiveIndex(Written(d, next, confirmed)) == Some(next)
    ensures forall index :: index in Written(d, next, confirmed).indexes ==> index == Some(next) || index in d.indexes
    ensures confirmed ==> forall index :: index in Written(d, next, confirmed).indexes ==> index == Some(next)
  {
  }

  /** An index that counts the receipts is published beside others that do. */
  lemma PublishingKeepsCounts(d: Disk, next: Index, e: Disk, receipts: seq<Receipt>)
    requires AllCount(d.indexes, receipts) && NeverUnderCounts(Some(next), receipts) && Publishes(d, next, e)
    ensures AllCount(e.indexes, receipts) && LiveIndex(e) == Some(next)
  {
    hide NeverUnderCounts;
    WrittenIndexes(d, next, true);
    WrittenIndexes(d, next, false);
  }

  /** The index is rebuilt, published with its projection, or published with the totals of a prune. */
  lemma PublicationKeepsCounts(before: Instant, after: Instant)
    requires CountsAfterCrash(before) && Lawful(before, after)
    requires after.cause.Rebuilt? || after.cause.Projects? || after.cause.Totals?
    requires after.cause.Rebuilt? ==> NoRemovalUnsynced(after.disk)
    ensures CountsAfterCrash(after)
  {
    hide NeverUnderCounts, Replay, Everything, Effective, AllCount, Addressable;
    var d, e := before.disk, after.disk;
    var next := if after.cause.Projects? then Projected(before.cause.found, before.cause.receipt.bytes) else Exact(Live(d));
    SeenExactlyWithoutRemovals(d.durable, d.pending);
    ExactCounts(Live(d));
    PublishingKeepsCounts(d, next, e, Most(d));
  }

  lemma DirtyingKeepsCounts(before: Instant, after: Instant)
    requires CountsAfterCrash(before) && Lawful(before, after) && after.cause.Dirtied?
    ensures CountsAfterCrash(after)
  {
    hide Replay, Everything, Effective;
    var d, found := before.disk, after.cause.found;
    assert Some(found) in d.indexes;
    PublishingKeepsCounts(d, found.(clean := false), after.disk, Most(d));
    WrittenIndexes(d, found.(clean := false), after.cause.confirmed);
  }

  lemma RemovalKeepsCounts(before: Instant, after: Instant)
    requires CountsAfterCrash(before) && Lawful(before, after) && after.cause.Removed?
    ensures CountsAfterCrash(after)
  {
    hide Replay, Everything, Effective, NeverUnderCounts;
    OneMoreOp(before.disk.durable, before.disk.pending, Drop(after.cause.receipt));
  }

  lemma StepKeepsCounts(before: Instant, after: Instant)
    requires CountsAfterCrash(before) && Lawful(before, after) && Addressable(Most(after.disk))
    requires after.cause.Rebuilt? ==> NoRemovalUnsynced(after.disk)
    ensures CountsAfterCrash(after)
  {
    hide CountsAfterCrash, Addressable, NoRemovalUnsynced;
    match after.cause
    case Created(_, _, _) => CreationKeepsCounts(before, after);
    case Synced => FlushKeepsCounts(before, after);
    case PowerLost => FlushKeepsCounts(before, after);
    case Dirtied(_, _) => DirtyingKeepsCounts(before, after);
    case Removed(_) => RemovalKeepsCounts(before, after);
    case _ => PublicationKeepsCounts(before, after);
  }

  lemma {:induction false} TidyHistoriesCount(trace: seq<Instant>, k: nat)
    requires IsHistory(trace) && AllAddressable(trace) && k < |trace| && EveryImageCounts(trace[0].disk)
    requires forall j :: 0 <= j <= k && trace[j].cause.Rebuilt? ==> NoRemovalUnsynced(trace[j].disk)
    ensures CountsAfterCrash(trace[k])
  {
    if k == 0 {
      EveryImageCountsExactly(trace[0].disk);
    } else {
      TidyHistoriesCount(trace, k - 1);
      assert Lawful(trace[k - 1], trace[k - 1 + 1]);
      StepKeepsCounts(trace[k - 1], trace[k]);
    }
  }

  /** The history began with an index that counts whatever a crash leaves, and no rebuild met an unsynced removal. */
  ghost predicate IsTidy(trace: seq<Instant>) {
    && IsHistory(trace) && AllAddressable(trace) && EveryImageCounts(trace[0].disk)
    && forall k :: 0 <= k < |trace| && trace[k].cause.Rebuilt? ==> NoRemovalUnsynced(trace[k].disk)
  }

  /** At the end of a tidy history the index that processes read counts the receipts they see. */
  lemma TidyHistoryCountsLive(trace: seq<Instant>)
    requires IsTidy(trace)
    ensures var d := trace[|trace| - 1].disk; NeverUnderCounts(LiveIndex(d), Live(d))
  {
    var d := trace[|trace| - 1].disk;
    TidyHistoriesCount(trace, |trace| - 1);
    LiveIsPart(d);
    assert LiveIndex(d) in d.indexes;
    CountsForFewer(LiveIndex(d), Most(d), Live(d));
  }

  /** A rebuilt index misses what an unsynced removal may bring back. */
  lemma RebuildWithUnsyncedRemovalUnderCounts(before: Instant, after: Instant)
    requires WellFormed(before.disk) && Lawful(before, after) && after.cause.Rebuilt? && !NoRemovalUnsynced(after.disk)
    ensures !EveryImageCounts(after.disk)
  {
    var d, e := before.disk, after.disk;
    SeenExactlyWithoutRemovals(d.durable, d.pending);
    EveryImageCountsExactly(e);
    assert Some(Exact(Live(d))) == e.indexes[|e.indexes| - 1] && Some(Exact(Live(d))) in e.indexes;
    assert !NeverUnderCounts(Some(Exact(Live(d))), Most(e));
  }

  /**
   Over any history, with power loss at any instant, a clean index never under-counts what a crash
   leaves, exactly when no index was rebuilt while a removal was unsynced.
   */
  lemma CrashesCountExactlyAfterTidyRebuilds(trace: seq<Instant>)
    requires IsHistory(trace) && AllAddressable(trace) && EveryImageCounts(trace[0].disk)
    ensures (forall k :: 0 <= k < |trace| ==> EveryImageCounts(trace[k].disk))
            <==> (forall k :: 0 <= k < |trace| && trace[k].cause.Rebuilt? ==> NoRemovalUnsynced(trace[k].disk))
  {
    if forall k :: 0 <= k < |trace| && trace[k].cause.Rebuilt? ==> NoRemovalUnsynced(trace[k].disk) {
      forall k | 0 <= k < |trace|
        ensures EveryImageCounts(trace[k].disk)
      {
        TidyHistoriesCount(trace, k);
        EveryImageCountsExactly(trace[k].disk);
      }
    } else {
      var k :| 0 <= k < |trace| && trace[k].cause.Rebuilt? && !NoRemovalUnsynced(trace[k].disk);
      HistoriesAreWellFormed(trace, k - 1);
      assert Lawful(trace[k - 1], trace[k - 1 + 1]);
      RebuildWithUnsyncedRemovalUnderCounts(trace[k - 1], trace[k]);
    }
  }

  // ----- process death only -----

  lemma LivePublicationKeepsCounts(before: Instant, after: Instant)
    requires CountsLive(before) && Lawful(before, after)
    requires after.cause.Rebuilt? || after.cause.Projects? || after.cause.Totals? || after.cause.Dirtied?
    ensures CountsLive(after)
  {
    hide Replay, Everything, Effective;
    var d := before.disk;
    ExactCounts(Live(d));
    match after.cause
    case Dirtied(found, confirmed) => WrittenIndexes(d, found.(clean := false), confirmed);
    case Projects =>
      var next := Projected(before.cause.found, before.cause.receipt.bytes);
      WrittenIndexes(d, next, true);
      WrittenIndexes(d, next, false);
    case _ =>
      WrittenIndexes(d, Exact(Live(d)), true);
      WrittenIndexes(d, Exact(Live(d)), false);
  }

  lemma LiveCreationKeepsCounts(before: Instant, after: Instant)
    requires CountsLive(before) && Lawful(before, after) && after.cause.Created? && Addressable(Live(after.disk))
    ensures CountsLive(after)
  {
    hide Replay, Everything, Effective, Sum;
    var d, found, r := before.disk, after.cause.found, after.cause.receipt;
    StepKeepsWellFormed(before, after);
    OneMoreOp(d.durable, d.pending, Add(r));
    NothingPending(Live(d) + [r]);
    ProjectionCounts(found, Live(d), r);
    assert LiveIndex(d) in d.indexes;
  }

  lemma LiveRemovalKeepsCounts(before: Instant, after: Instant)
    requires CountsLive(before) && Lawful(before, after) && after.cause.Removed?
    ensures CountsLive(after)
  {
    hide Replay, Everything, Effective, NeverUnderCounts, Survivors, Without;
    var d := before.disk;
    OneMoreOp(d.durable, d.pending, Drop(after.cause.receipt));
    WithoutDrops(Live(d), after.cause.receipt);
    CountsForFewer(LiveIndex(d), Live(d), Live(after.disk));
  }

  lemma LiveSyncKeepsCounts(before: Instant, after: Instant)
    requires CountsLive(before) && Lawful(before, after) && after.cause.Synced?
    ensures CountsLive(after)
  {
    StepKeepsWellFormed(before, after);
    hide Replay, Everything, Effective, NeverUnderCounts, Survivors, Without;
    NothingPending(Live(before.disk));
  }

  lemma LiveStepKeepsCounts(before: Instant, after: Instant)
    requires CountsLive(before) && Lawful(before, after) && Addressable(Live(after.disk)) && !after.cause.PowerLost?
    ensures CountsLive(after)
  {
    hide CountsLive, Addressable;
    match after.cause
    case Created(_, _, _) => LiveCreationKeepsCounts(before, after);
    case Removed(_) => LiveRemovalKeepsCounts(before, after);
    case Synced => LiveSyncKeepsCounts(before, after);
    case _ => LivePublicationKeepsCounts(before, after);
  }

  /** While processes may die but power does not fail, the index never under-counts what is there. */
  lemma {:induction false} DeathsNeverUnderCount(trace: seq<Instant>, k: nat)
    requires IsHistory(trace) && AllAddressable(trace) && k < |trace|
    requires NeverUnderCounts(LiveIndex(trace[0].disk), Live(trace[0].disk))
    requires forall j :: 0 <= j <= k ==> !trace[j].cause.PowerLost?
    ensures CountsLive(trace[k])
  {
    if k > 0 {
      DeathsNeverUnderCount(trace, k - 1);
      assert Lawful(trace[k - 1], trace[k - 1 + 1]);
      HistoriesAreWellFormed(trace, k);
      LiveIsPart(trace[k].disk);
      LiveStepKeepsCounts(trace[k - 1], trace[k]);
    }
  }

  /** Clean does not mean exact: a removal makes an exact clean index over-count. */
  lemma RemovalMakesACleanIndexOverCount(before: Instant, after: Instant)
    requires Lawful(before, after) && after.cause.Removed? && LiveIndex(before.disk) == Some(Exact(Live(before.disk)))
    ensures LiveIndex(after.disk).Some? && LiveIndex(after.disk).value.clean
    ensures LiveIndex(after.disk).value.count == |Live(after.disk)| + 1
  {
    var d, r := before.disk, after.cause.receipt;
    OneMoreOp(d.durable, d.pending, Drop(r));
    WithoutDrops(Live(d), r);
    assert r in multiset(Live(d));
    assert |multiset(Without(Live(d), r))| == |multiset(Live(d))| - 1;
  }

  // ----- a history in which a removal comes back -----

  const OLDEST: Receipt := Receipt(0, 1, 1)
  const OLDER: Receipt := Receipt(0, 2, 1)
  const NEWEST: Receipt := Receipt(0, 3, 1)

  /** Both old receipts are on disk; the removal of the oldest may be pending. */
  function OldReceipts(index: Index, removing: bool): Disk {
    Disk([Some(index)], [OLDEST, OLDER], if removing then [Drop(OLDEST)] else [])
  }

  lemma OldReceiptsSeen(index: Index)
    ensures Live(OldReceipts(index, false)) == Most(OldReceipts(index, false)) == [OLDEST, OLDER]
    ensures Live(OldReceipts(index, true)) == [OLDER] && Most(OldReceipts(index, true)) == [OLDEST, OLDER]
    ensures WellFormed(OldReceipts(index, false)) && [OLDEST, OLDER] in Survivors([OLDEST, OLDER], [Drop(OLDEST)])
    ensures Total([OLDER], BytesOf) == 1 && Total([OLDEST, OLDER], BytesOf) == 2
    ensures Total([OLDEST, OLDER, NEWEST], BytesOf) == 3
  {
    assert [Drop(OLDEST)][..0] == [];
    assert [OLDEST, OLDER][1..] == [OLDER];
    assert [OLDEST, OLDER] == [OLDEST] + [OLDER] && [OLDEST, OLDER, NEWEST] == [OLDEST, OLDER] + [NEWEST];
    TotalOfOne(OLDEST, BytesOf);
    TotalOfOne(OLDER, BytesOf);
    TotalOfOne(NEWEST, BytesOf);
    TotalOfConcat([OLDEST], [OLDER], BytesOf);
    TotalOfConcat([OLDEST, OLDER], [NEWEST], BytesOf);
  }

  const TWO: Index := Index(true, 2, 2)
  const ONE: Index := Index(true, 1, 1)

  function Dirty(index: Index): Index {
    index.(clean := false)
  }

  /** A pruning process removes the oldest receipt and dies before its sync. */
  lemma ARemovalCanStayUnsynced()
    ensures Lawful(Instant(OldReceipts(TWO, false), Found), Instant(OldReceipts(TWO, true), Removed(OLDEST)))
  {
    OldReceiptsSeen(TWO);
    hide Replay;
    assert [] + [Drop(OLDEST)] == [Drop(OLDEST)];
  }

  lemma AnIndexCanBeDirtied(cause: Cause, index: Index, removing: bool)
    requires index.clean
    ensures Lawful(Instant(OldReceipts(index, removing), cause), Instant(OldReceipts(Dirty(index), removing), Dirtied(index, true)))
  {
  }

  /** The next writer rebuilds the dirty index from what it sees. */
  lemma AnIndexCanBeRebuilt(cause: Cause)
    ensures Lawful(Instant(OldReceipts(Dirty(TWO), true), cause), Instant(OldReceipts(ONE, true), Rebuilt))
  {
    OldReceiptsSeen(Dirty(TWO));
    hide Replay;
    assert Publishes(OldReceipts(Dirty(TWO), true), Exact(Live(OldReceipts(Dirty(TWO), true))), OldReceipts(ONE, true));
  }

  lemma PowerCanBringItBack(cause: Cause)
    ensures Lawful(Instant(OldReceipts(ONE, true), cause), Instant(OldReceipts(ONE, false), PowerLost))
  {
    OldReceiptsSeen(ONE);
    hide Survivors;
    assert Some(ONE) in OldReceipts(ONE, true).indexes;
  }

  function NewReceipts(index: Index): Disk {
    Disk([Some(index)], [OLDEST, OLDER, NEWEST], [])
  }

  lemma AReceiptCanBeAdded()
    ensures Lawful(Instant(OldReceipts(Dirty(ONE), false), Dirtied(ONE, true)), Instant(NewReceipts(Dirty(ONE)), Created(ONE, NEWEST, true)))
    ensures Lawful(Instant(NewReceipts(Dirty(ONE)), Created(ONE, NEWEST, true)), Instant(NewReceipts(TWO), Projects))
  {
    OldReceiptsSeen(Dirty(ONE));
    hide Replay;
    assert [OLDEST, OLDER] + [NEWEST] == [OLDEST, OLDER, NEWEST];
    assert Publishes(NewReceipts(Dirty(ONE)), Projected(ONE, NEWEST.bytes), NewReceipts(TWO));
  }

  /** The history ends with an index of two receipts beside three. */
  ghost predicate EndsUnderCounting(trace: seq<Instant>) {
    && IsHistory(trace) && AllAddressable(trace) && EveryImageCounts(trace[0].disk)
    && var last := trace[|trace| - 1];
       last.cause.Projects? && LiveIndex(last.disk) == Some(TWO) && |Live(last.disk)| == 3
  }

  /**
   A pruning process dies after a removal and before its sync, the next writer after its dirty mark,
   and the third rebuilds the index; power loss brings the removed receipt back, and a later
   publication is within two receipts by its index while three are there.
   */
  lemma AnUnsyncedRemovalComesBack()
    ensures exists trace: seq<Instant> :: EndsUnderCounting(trace)
  {
    var trace := [
      Instant(OldReceipts(TWO, false), Found),
      Instant(OldReceipts(TWO, true), Removed(OLDEST)),
      Instant(OldReceipts(Dirty(TWO), true), Dirtied(TWO, true)),
      Instant(OldReceipts(ONE, true), Rebuilt),
      Instant(OldReceipts(ONE, false), PowerLost),
      Instant(OldReceipts(Dirty(ONE), false), Dirtied(ONE, true)),
      Instant(NewReceipts(Dirty(ONE)), Created(ONE, NEWEST, true)),
      Instant(NewReceipts(TWO), Projects)];
    hide Lawful, Replay, Everything, Survivors, Effective, Sum;
    ARemovalCanStayUnsynced();
    AnIndexCanBeDirtied(Removed(OLDEST), TWO, true);
    AnIndexCanBeRebuilt(Dirtied(TWO, true));
    PowerCanBringItBack(Rebuilt);
    AnIndexCanBeDirtied(PowerLost, ONE, false);
    AReceiptCanBeAdded();
    AllSmall();
    EveryImageCountsExactly(trace[0].disk);
    assert EndsUnderCounting(trace);
  }

  lemma AllSmall()
    ensures forall index, removing :: Addressable(Most(OldReceipts(index, removing)))
    ensures forall index :: Addressable(Most(NewReceipts(index))) && |Live(NewReceipts(index))| == 3
    ensures AllCount(OldReceipts(TWO, false).indexes, Most(OldReceipts(TWO, false)))
    ensures WellFormed(OldReceipts(TWO, false))
  {
    forall index, removing
      ensures Addressable(Most(OldReceipts(index, removing)))
    {
      OldReceiptsSeen(index);
    }
    OldReceiptsSeen(TWO);
    NothingPending([OLDEST, OLDER, NEWEST]);
  }
}
