/**
 History receipts and the index that spares a scan of the receipt directory. Every file system call
 may fail, with or without having taken effect; a process that dies is one whose remaining calls
 never happen. `trace` is the history of the directory.
 */
module History {
  import opened Prelude
  import opened Faults
  import opened ByteSizes
  import opened Sorting
  import opened Retention
  import opened HistoryDisk

  datatype Policy = Policy(enabled: bool, maxReceipts: nat, maxBytes: nat)

  datatype Warning = PersistFailed | RetentionFailed

  function BoundsOf(policy: Policy): Bounds {
    Bounds(policy.maxReceipts, policy.maxBytes, None)
  }

  predicate WithinPolicy(receipts: seq<Receipt>, policy: Policy) {
    |receipts| <= policy.maxReceipts && (Total(receipts, BytesOf) <= policy.maxBytes || |receipts| <= 1)
  }

  lemma RetainedIsWithinPolicy(before: seq<Receipt>, after: seq<Receipt>, policy: Policy)
    requires multiset(after) == multiset(Retained(before, BoundsOf(policy)))
    ensures WithinPolicy(after, policy)
  {
    RetainedIsBoundedAndYoungest(before, BoundsOf(policy));
    TotalOfPermutation(after, Retained(before, BoundsOf(policy)), BytesOf);
  }

  predicate Fits(index: Index, policy: Policy) {
    index.count <= policy.maxReceipts && index.bytes <= policy.maxBytes
  }

  class HistoryStore {
    var disk: Disk
    const faulty: bool
    ghost var trace: seq<Instant>

    /** The trace is a history that ends with the directory as it is. */
    ghost predicate Valid()
      reads this
    {
      IsHistory(trace) && trace[|trace| - 1].disk == disk
    }

    /** The receipts that processes see, in no particular order. */
    function Receipts(): seq<Receipt>
      reads this`disk
    {
      Live(disk)
    }

    function ReadIndex(): Option<Index>
      reads this`disk
    {
      LiveIndex(disk)
    }

    /** The index that processes read does not under-count the receipts they see. */
    predicate Counts()
      reads this`disk
    {
      NeverUnderCounts(ReadIndex(), Receipts())
    }

    ghost predicate LastCause(cause: Cause)
      reads this`trace
    {
      trace != [] && trace[|trace| - 1].cause == cause
    }

    constructor (left: Disk, faulty: bool)
      requires WellFormed(left)
      ensures Valid() && disk == left && this.faulty == faulty && trace == [Instant(left, Found)]
    {
      disk, this.faulty := left, faulty;
      trace := [Instant(left, Found)];
    }

    // ----- steps -----

    /** A lawful step is taken. */
    ghost method Record(next: Disk, cause: Cause)
      requires IsHistory(trace) && Lawful(trace[|trace| - 1], Instant(next, cause))
      modifies this`trace
      ensures IsHistory(trace) && trace == old(trace) + [Instant(next, cause)]
    {
      hide Lawful;
      var longer := trace + [Instant(next, cause)];
      forall k | 0 <= k < |longer| - 1
        ensures Lawful(longer[k], longer[k + 1])
      {
        if k < |trace| - 1 {
          assert Lawful(trace[k], trace[k + 1]);
        }
      }
      trace := longer;
    }

    /** The power fails: any version of the index and any survivors of the receipts are found next. */
    method LosePower(index: Option<Index>, receipts: seq<Receipt>)
      requires Valid() && index in disk.indexes && receipts in Survivors(disk.durable, disk.pending)
      modifies this`disk, this`trace
      ensures Valid() && old(trace) <= trace && disk == Disk([index], receipts, []) && LastCause(PowerLost)
    {
      Record(Disk([index], receipts, []), PowerLost);
      disk := Disk([index], receipts, []);
    }

    /** Write the index; the write may be lost, visible and reported as an error, or durable. */
    method Publish(next: Index, ghost cause: Cause) returns (ok: bool)
      requires Valid()
      requires cause.Rebuilt? || cause.Projects? || cause.Totals?
      requires forall confirmed :: Lawful(trace[|trace| - 1], Instant(Written(disk, next, confirmed), cause))
      modifies this`disk, this`trace
      ensures Valid() && old(trace) <= trace && Receipts() == old(Receipts())
      ensures ok ==> ReadIndex() == Some(next) && LastCause(cause)
      ensures !ok ==> faulty && ReadIndex() in {old(ReadIndex()), Some(next)}
    {
      hide Lawful, IsHistory;
      WrittenIndexes(disk, next, true);
      WrittenIndexes(disk, next, false);
      var done;
      done, ok := Attempt(faulty);
      if done {
        Record(Written(disk, next, ok), cause);
        disk := Written(disk, next, ok);
      }
    }

    /** Mark the index dirty, keeping its counts. */
    method MarkDirty(found: Index) returns (ok: bool)
      requires Valid() && ReadIndex() == Some(found) && found.clean
      modifies this`disk, this`trace
      ensures Valid() && old(trace) <= trace && Receipts() == old(Receipts())
      ensures ok ==> LastCause(Dirtied(found, true)) && ReadIndex() == Some(found.(clean := false))
      ensures !ok ==> faulty && ReadIndex() in {old(ReadIndex()), Some(found.(clean := false))}
    {
      hide IsHistory;
      WrittenIndexes(disk, found.(clean := false), true);
      WrittenIndexes(disk, found.(clean := false), false);
      var done;
      done, ok := Attempt(faulty);
      if done {
        Record(Written(disk, found.(clean := false), ok), Dirtied(found, ok));
        disk := Written(disk, found.(clean := false), ok);
      }
    }

    /** A receipt is only created right after the dirty mark; a confirmed creation syncs the directory. */
    method CreateReceipt(ghost found: Index, r: Receipt) returns (ok: bool)
      requires Valid() && LastCause(Dirtied(found, true))
      modifies this`disk, this`trace
      ensures Valid() && old(trace) <= trace && ReadIndex() == old(ReadIndex())
      ensures Receipts() == old(Receipts()) + [r] || (!ok && Receipts() == old(Receipts()))
      ensures ok ==> Receipts() == old(Receipts()) + [r] && LastCause(Created(found, r, true))
      ensures !ok ==> faulty
    {
      hide IsHistory, Replay;
      OneMoreOp(disk.durable, disk.pending, Add(r));
      NothingPending(Live(disk) + [r]);
      var done;
      done, ok := Attempt(faulty);
      if done {
        Record(WithReceipt(disk, r, ok), Created(found, r, ok));
        disk := WithReceipt(disk, r, ok);
      }
    }

    method RemoveReceipt(r: Receipt) returns (ok: bool)
      requires Valid() && r in Receipts()
      modifies this`disk, this`trace
      ensures Valid() && old(trace) <= trace && ReadIndex() == old(ReadIndex())
      ensures multiset(Receipts()) == multiset(old(Receipts())) - multiset{r} || (!ok && Receipts() == old(Receipts()))
      ensures ok ==> multiset(Receipts()) == multiset(old(Receipts())) - multiset{r}
      ensures ok ==> |trace| > |old(trace)| && trace[|old(trace)|].cause == Removed(r)
      ensures !ok ==> faulty
    {
      hide IsHistory, Replay, Without;
      OneMoreOp(disk.durable, disk.pending, Drop(r));
      WithoutDrops(Live(disk), r);
      var done;
      done, ok := Attempt(faulty);
      if done {
        Record(disk.(pending := disk.pending + [Drop(r)]), Removed(r));
        disk := disk.(pending := disk.pending + [Drop(r)]);
      }
    }

    /** `sync_receipt_directory`: what processes see is what a crash leaves. */
    method SyncReceipts() returns (ok: bool)
      requires Valid()
      modifies this`disk, this`trace
      ensures Valid() && old(trace) <= trace && Receipts() == old(Receipts()) && ReadIndex() == old(ReadIndex())
      ensures ok ==> LastCause(Synced) && disk.pending == []
      ensures !ok ==> faulty && disk == old(disk)
    {
      hide IsHistory, Replay;
      NothingPending(Live(disk));
      if faulty {
        if * {
          return false;
        }
      }
      Record(Disk(disk.indexes, Live(disk), []), Synced);
      disk := Disk(disk.indexes, Live(disk), []);
      ok := true;
    }

    method Inspect() returns (ok: bool)
      ensures !ok ==> faulty
    {
      var done;
      done, ok := Attempt(faulty);
    }

    // ----- the index -----

    /** `rebuild`: scan the receipts and publish what they count. */
    method Rebuild() returns (ok: bool, found: Index)
      requires Valid() && Addressable(Receipts()) && (ReadIndex().Some? ==> !ReadIndex().value.clean)
      modifies this`disk, this`trace
      ensures Valid() && old(trace) <= trace && Receipts() == old(Receipts())
      ensures ok ==> found == Exact(Receipts()) && ReadIndex() == Some(found)
      ensures Counts()
      ensures !ok ==> faulty
    {
      var listed := Receipts();
      var total := 0;
      assert listed[..0] == [];
      for i := 0 to |listed|
        invariant disk == old(disk) && trace == old(trace)
        invariant total == Total(listed[..i], BytesOf) <= U64_MAX
      {
        PrefixTotal(listed, i);
        total := SaturatingAdd(total, listed[i].bytes);
      }
      assert listed[..|listed|] == listed;
      found := Index(true, |listed|, total);
      ok := Inspect();
      if ok {
        ok := Publish(found, Rebuilt);
      }
    }

    /** `read_or_rebuild`: a clean index is taken at its word. */
    method ReadOrRebuild() returns (ok: bool, found: Index)
      requires Valid() && Addressable(Receipts())
      modifies this`disk, this`trace
      ensures Valid() && old(trace) <= trace && Receipts() == old(Receipts())
      ensures ok ==> ReadIndex() == Some(found) && found.clean
      ensures ok ==> found == if old(ReadIndex()).Some? && old(ReadIndex()).value.clean then old(ReadIndex()).value
                              else Exact(Receipts())
      ensures old(Counts()) ==> Counts()
      ensures !ok ==> faulty
    {
      ok := Inspect();
      if !ok {
        found := Index(false, 0, 0);
        return;
      }
      if ReadIndex().Some? && ReadIndex().value.clean {
        found := ReadIndex().value;
      } else {
        ok, found := Rebuild();
      }
    }

    /** `begin_publication`: the index is dirty, durably, before anything is added. */
    method BeginPublication() returns (ok: bool, found: Index)
      requires Valid() && Addressable(Receipts())
      modifies this`disk, this`trace
      ensures Valid() && old(trace) <= trace && Receipts() == old(Receipts())
      ensures ok ==> LastCause(Dirtied(found, true)) && found.clean && ReadIndex() == Some(found.(clean := false))
      ensures ok ==> found == if old(ReadIndex()).Some? && old(ReadIndex()).value.clean then old(ReadIndex()).value
                              else Exact(Receipts())
      ensures old(Counts()) ==> Counts() && (ok ==> NeverUnderCounts(Some(found), Receipts()))
      ensures !ok ==> faulty
    {
      ok, found := ReadOrRebuild();
      if ok {
        ok := MarkDirty(found);
      }
    }

    // ----- pruning -----

    /** The first instant since `from` came about by a removal. */
    ghost predicate RemovedFirst(from: nat)
      reads this`trace
    {
      from < |trace| && trace[from].cause.Removed?
    }

    /** Remove one more of the planned receipts. */
    method RemoveNext(valid: seq<Receipt>, i: nat, removed: nat, ghost from: nat) returns (ok: bool, removedBytes: nat)
      requires Valid() && i < |valid| && multiset(Receipts()) == multiset(valid[i..])
      requires removed == Total(valid[..i], BytesOf) && Total(valid, BytesOf) <= U64_MAX
      requires if i == 0 then from == |trace| else RemovedFirst(from)
      modifies this`disk, this`trace
      ensures Valid() && old(trace) <= trace && ReadIndex() == old(ReadIndex())
      ensures multiset(Receipts()) <= multiset(valid)
      ensures ok ==> multiset(Receipts()) == multiset(valid[i + 1..]) && removedBytes == Total(valid[..i + 1], BytesOf) <= U64_MAX
      ensures ok ==> RemovedFirst(from)
      ensures !ok ==> faulty
    {
      hide Replay, IsHistory, LiveIndex, Sum;
      SuffixElements(valid, i);
      PrefixTotal(valid, i);
      assert valid[i] in multiset(Receipts());
      ok := RemoveReceipt(valid[i]);
      removedBytes := SaturatingAdd(removed, valid[i].bytes);
    }

    /** Remove the planned receipts, oldest first; dying in between leaves the index over-counting. */
    method RemovePlanned(valid: seq<Receipt>, removal: set<nat>, ghost k: nat) returns (ok: bool, removedBytes: nat)
      requires Valid() && multiset(valid) == multiset(Receipts())
      requires k <= |valid| && removal == Prefix(k) && Total(valid, BytesOf) <= U64_MAX
      modifies this`disk, this`trace
      ensures Valid() && old(trace) <= trace && ReadIndex() == old(ReadIndex())
      ensures multiset(Receipts()) <= multiset(old(Receipts()))
      ensures ok ==> multiset(Receipts()) == multiset(valid[k..]) && removedBytes == Total(valid[..k], BytesOf)
      ensures ok && k > 0 ==> RemovedFirst(|old(trace)|)
      ensures !ok ==> faulty
    {
      hide Replay, IsHistory, Prefix, LiveIndex, Sum, RemovedFirst;
      ok, removedBytes := true, 0;
      NoTotal<Receipt>([], BytesOf);
      ghost var gone: nat := 0;
      assert valid[0..] == valid && valid[..0] == [];
      for i := 0 to |valid|
        invariant Valid() && old(trace) <= trace && ReadIndex() == old(ReadIndex())
        invariant ok && gone == (if i < k then i else k)
        invariant multiset(Receipts()) == multiset(valid[gone..]) && removedBytes == Total(valid[..gone], BytesOf) <= U64_MAX
        invariant if gone == 0 then trace == old(trace) else RemovedFirst(|old(trace)|)
      {
        if i in removal {
          ok, removedBytes := RemoveNext(valid, i, removedBytes, |old(trace)|);
          if !ok {
            return;
          }
          gone := i + 1;
        }
      }
      if k < |valid| {
        SuffixElements(valid, k);
      }
    }

    /** `prune_locked`: retention by a scan of the receipts, whatever the index says. */
    method PruneLocked(bounds: Bounds, dryRun: bool) returns (ok: bool, removedCount: nat, removedBytes: nat)
      requires Valid() && Addressable(Receipts())
      modifies this`disk, this`trace
      ensures Valid() && old(trace) <= trace && multiset(Receipts()) <= multiset(old(Receipts()))
      ensures dryRun ==> disk == old(disk) && trace == old(trace)
      ensures ok && !dryRun ==>
        && multiset(Receipts()) == multiset(Retained(old(Receipts()), bounds))
        && ReadIndex() == Some(Exact(Receipts()))
      ensures ok ==>
        && removedCount == |old(Receipts())| - |Retained(old(Receipts()), bounds)|
        && removedBytes == Total(old(Receipts()), BytesOf) - Total(Retained(old(Receipts()), bounds), BytesOf)
      ensures ok && !dryRun && removedCount > 0 ==> RemovedFirst(|old(trace)|)
      ensures old(Counts()) ==> Counts()
      ensures !ok ==> faulty
    {
      hide AtMost, Sort, NeverUnderCounts, SortedBy, IsCut, Enough, Sum, SaturatingSum, IsHistory, Replay, LiveIndex, Prefix;
      removedCount, removedBytes := 0, 0;
      ok := Inspect();
      if !ok {
        return;
      }
      var valid := Sort(Receipts(), Order);
      SortSorts(Receipts(), Order);
      TotalOfPermutation(valid, Receipts(), BytesOf);
      var removal := RemovalPlan(valid, bounds);
      ghost var k := CutFrom(valid, 0, bounds);
      CutTotals(Receipts(), bounds);
      if dryRun {
        removedBytes := PlannedBytes(valid, removal, k);
      } else {
        ok, removedBytes := RemovePlanned(valid, removal, k);
        if old(Counts()) {
          CountsForFewer(ReadIndex(), old(Receipts()), Receipts());
        }
        if ok {
          ok := SyncReceipts();
        }
        if ok {
          ok := PublishTotals(valid, |removal|, removedBytes);
        }
      }
      removedCount := |removal|;
    }

    /** What is left is computed from what there was, not by another scan. */
    method PublishTotals(valid: seq<Receipt>, removedCount: nat, removedBytes: nat) returns (ok: bool)
      requires Valid() && LastCause(Synced) && Addressable(valid) && removedCount <= |valid|
      requires multiset(Receipts()) == multiset(valid[removedCount..]) && removedBytes == Total(valid[..removedCount], BytesOf)
      modifies this`disk, this`trace
      ensures Valid() && old(trace) <= trace && Receipts() == old(Receipts())
      ensures ok ==> ReadIndex() == Some(Exact(Receipts()))
      ensures old(Counts()) ==> Counts()
      ensures !ok ==> faulty
    {
      hide Replay, IsHistory, LiveIndex, NeverUnderCounts, Sum, SaturatingSum, Lawful;
      TotalsAreLawful(trace[|trace| - 1]);
      var beforeCount, beforeBytes := Clamp(|valid|), SaturatingSum(SizesOf(valid, BytesOf));
      SaturatingSumIsClampedSum(SizesOf(valid, BytesOf));
      assert valid == valid[..removedCount] + valid[removedCount..];
      TotalOfConcat(valid[..removedCount], valid[removedCount..], BytesOf);
      TotalOfPermutation(Receipts(), valid[removedCount..], BytesOf);
      ExactCounts(Receipts());
      ok := Publish(Index(true, SaturatingSub(beforeCount, removedCount), SaturatingSub(beforeBytes, removedBytes)), Totals);
    }

    method PlannedBytes(valid: seq<Receipt>, removal: set<nat>, ghost k: nat) returns (bytes: nat)
      requires k <= |valid| && removal == Prefix(k) && Total(valid, BytesOf) <= U64_MAX
      ensures bytes == Total(valid[..k], BytesOf)
    {
      bytes := 0;
      ghost var seen: nat := 0;
      assert valid[..0] == [];
      for i := 0 to |valid|
        invariant seen == (if i < k then i else k) && bytes == Total(valid[..seen], BytesOf)
      {
        if i in removal {
          PrefixTotal(valid, i);
          bytes := SaturatingAdd(bytes, valid[i].bytes);
          seen := i + 1;
        }
      }
    }

    // ----- persisting -----

    /** The receipt is created under a dirty index, and the projected index is published after it. */
    method AddReceipt(receipt: Receipt) returns (ok: bool, projected: Index)
      requires Valid() && Addressable(Receipts() + [receipt])
      modifies this`disk, this`trace
      ensures Valid() && old(trace) <= trace
      ensures Receipts() == old(Receipts()) || Receipts() == old(Receipts()) + [receipt]
      ensures ok ==> Receipts() == old(Receipts()) + [receipt] && ReadIndex() == Some(projected) && projected.clean
      ensures ok && old(ReadIndex()).Some? && old(ReadIndex()).value.clean ==>
        projected == Projected(old(ReadIndex()).value, receipt.bytes)
      ensures old(Counts()) ==> Counts()
      ensures !ok ==> faulty || exists r :: r in old(Receipts()) && Order(r) == Order(receipt)
    {
      hide AtMost, Sum, Replay, IsHistory, LiveIndex, Lawful;
      projected := Index(false, 0, 0);
      TotalOfConcat(Receipts(), [receipt], BytesOf);
      TotalOfOne(receipt, BytesOf);
      var found;
      ok, found := BeginPublication();
      if !ok {
        return;
      }
      if exists i :: 0 <= i < |Receipts()| && Order(Receipts()[i]) == Order(receipt) {
        return false, projected;
      }
      ok := CreateReceipt(found, receipt);
      if ok {
        ok := Inspect();
      }
      if !ok {
        return;
      }
      if old(Counts()) {
        ProjectionCounts(found, old(Receipts()), receipt);
      }
      projected := Projected(found, receipt.bytes);
      ProjectionIsLawful(trace[|trace| - 1], found, receipt);
      ok := Publish(projected, Projects);
    }

    /**
     `persist_inner`: the index stands in for a scan, and yet, as long as it does not under-count,
     the outcome is that of scanning and pruning after each new receipt; after a tidy history, with
     whatever deaths and power losses, it does not.
     */
    method Persist(policy: Policy, receipt: Receipt) returns (receiptId: Option<nat>, warning: Option<Warning>)
      requires Valid() && Addressable(Receipts() + [receipt])
      modifies this`disk, this`trace
      ensures Valid() && old(trace) <= trace
      ensures multiset(Receipts()) <= multiset(old(Receipts())) + multiset{receipt}
      ensures old(Counts()) ==> Counts()
      ensures old(Counts()) && warning.None? && policy.enabled ==>
        && multiset(Receipts()) == multiset(Retained(old(Receipts()) + [receipt], BoundsOf(policy)))
        && WithinPolicy(Receipts(), policy)
      ensures old(IsTidy(trace)) && warning.None? && policy.enabled ==>
        && multiset(Receipts()) == multiset(Retained(old(Receipts()) + [receipt], BoundsOf(policy)))
        && WithinPolicy(Receipts(), policy)
      ensures warning.None? ==> receiptId == if policy.enabled && receipt in Receipts() then Some(receipt.id) else None
      ensures warning.Some? ==> receiptId.None?
      ensures warning == Some(PersistFailed) ==> Receipts() == old(Receipts()) || Receipts() == old(Receipts()) + [receipt]
      ensures warning == Some(RetentionFailed) ==> policy.enabled
      ensures warning.None? && policy.enabled && old(ReadIndex()).Some? && old(ReadIndex()).value.clean ==>
        if Fits(Projected(old(ReadIndex()).value, receipt.bytes), policy) then Receipts() == old(Receipts()) + [receipt]
        else multiset(Receipts()) == multiset(Retained(old(Receipts()) + [receipt], BoundsOf(policy)))
      ensures !policy.enabled ==> disk == old(disk)
      ensures !faulty && (forall r :: r in old(Receipts()) ==> Order(r) != Order(receipt)) ==> warning.None?
    {
      hide Retained, WithinPolicy, AtMost, Sum, Replay, IsHistory, LiveIndex, IsTidy;
      if IsTidy(trace) {
        TidyHistoryCountsLive(trace);
      }
      receiptId, warning := None, Some(PersistFailed);
      var ok := Inspect();
      if !ok {
        return;
      }
      if !policy.enabled {
        warning := None;
        return;
      }
      var projected;
      ok, projected := AddReceipt(receipt);
      if !ok {
        return;
      }
      if Fits(projected, policy) {
        if Counts() {
          WithinBoundsKeepsAll(Receipts(), BoundsOf(policy));
        }
      } else {
        var count, bytes;
        ok, count, bytes := PruneLocked(BoundsOf(policy), false);
        if !ok {
          warning := Some(RetentionFailed);
          return;
        }
      }
      if old(Counts()) {
        RetainedIsWithinPolicy(old(Receipts()) + [receipt], Receipts(), policy);
      }
      warning := None;
      receiptId := if receipt in Receipts() then Some(receipt.id) else None;
    }
  }

  lemma TotalsAreLawful(at: Instant)
    requires at.cause.Synced?
    ensures forall confirmed :: Lawful(at, Instant(Written(at.disk, Exact(Live(at.disk)), confirmed), Totals))
  {
  }

  lemma ProjectionIsLawful(at: Instant, found: Index, receipt: Receipt)
    requires at.cause == Created(found, receipt, true)
    ensures forall confirmed ::
      Lawful(at, Instant(Written(at.disk, Projected(found, receipt.bytes), confirmed), Projects))
  {
  }
}
