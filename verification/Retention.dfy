/** Which receipts retention removes: the shortest oldest-first prefix that brings the rest within every bound. */
module Retention {
  import opened Prelude
  import opened ByteSizes
  import opened Sorting

  datatype Receipt = Receipt(recordedAt: nat, id: nat, bytes: nat)

  datatype Bounds = Bounds(keep: nat, maxBytes: nat, olderThan: Option<nat>)

  function BytesOf(r: Receipt): nat {
    r.bytes
  }

  /** Receipts are ordered by recording time, then by identifier. */
  function Order(r: Receipt): seq<int> {
    [r.recordedAt, r.id]
  }

  /** Without its first `k` receipts the list is within every bound; one receipt may be of any size. */
  predicate Enough(valid: seq<Receipt>, k: nat, bounds: Bounds)
    requires k <= |valid|
  {
    && |valid| - k <= bounds.keep
    && (bounds.olderThan.Some? ==> forall i :: k <= i < |valid| ==> valid[i].recordedAt >= bounds.olderThan.value)
    && (Total(valid[k..], BytesOf) <= bounds.maxBytes || |valid| - k <= 1)
  }

  predicate IsCut(valid: seq<Receipt>, k: nat, bounds: Bounds) {
    k <= |valid| && Enough(valid, k, bounds) && forall j :: 0 <= j < k ==> !Enough(valid, j, bounds)
  }

  /** The length of the shortest prefix, at least `from`, whose removal is enough. */
  function CutFrom(valid: seq<Receipt>, from: nat, bounds: Bounds): (k: nat)
    requires from <= |valid| && forall j :: 0 <= j < from ==> !Enough(valid, j, bounds)
    ensures IsCut(valid, k, bounds)
    decreases |valid| - from
  {
    if from == |valid| || Enough(valid, from, bounds) then from else CutFrom(valid, from + 1, bounds)
  }

  /** The receipts that retention leaves, oldest first. */
  function Retained(receipts: seq<Receipt>, bounds: Bounds): seq<Receipt> {
    var valid := Sort(receipts, Order);
    valid[CutFrom(valid, 0, bounds)..]
  }

  /** Recorded no later; of those recorded at the same time, the one with the smaller identifier comes first. */
  predicate NoYounger(x: Receipt, y: Receipt) {
    x.recordedAt < y.recordedAt || (x.recordedAt == y.recordedAt && x.id <= y.id)
  }

  lemma OrderByFields(x: Receipt, y: Receipt)
    ensures AtMost(Order(x), Order(y)) <==> NoYounger(x, y)
  {
    var kx, ky := Order(x), Order(y);
    assert AtMost(kx, ky) <==> kx[0] < ky[0] || (kx[0] == ky[0] && AtMost(kx[1..], ky[1..]));
    assert AtMost(kx[1..], ky[1..]) <==> kx[1] <= ky[1];
  }

  /** With the removed receipts from `j` on still there, a bound would be exceeded. */
  predicate Exceeds(removed: seq<Receipt>, left: seq<Receipt>, j: nat, bounds: Bounds)
    requires j < |removed|
  {
    || |removed[j..] + left| > bounds.keep
    || (bounds.olderThan.Some? && removed[j].recordedAt < bounds.olderThan.value)
    || (Total(removed[j..] + left, BytesOf) > bounds.maxBytes && |removed[j..] + left| > 1)
  }

  /**
   What is left is within the bounds, what was removed is older than all of it, and no receipt was removed
   that could have stayed: with any number of the last removed ones back, a bound would be exceeded.
   */
  lemma RetainedIsBoundedAndYoungest(receipts: seq<Receipt>, bounds: Bounds)
    ensures var left := Retained(receipts, bounds);
      && |left| <= bounds.keep
      && (Total(left, BytesOf) <= bounds.maxBytes || |left| <= 1)
      && (bounds.olderThan.Some? ==> forall r :: r in left ==> r.recordedAt >= bounds.olderThan.value)
      && exists removed: seq<Receipt> ::
           && multiset(removed + left) == multiset(receipts)
           && (forall i, j :: 0 <= i < j < |removed + left| ==> NoYounger((removed + left)[i], (removed + left)[j]))
           && forall j :: 0 <= j < |removed| ==> Exceeds(removed, left, j, bounds)
  {
    hide AtMost, Sort, Order, NoYounger, Exceeds, IsCut;
    var valid := Sort(receipts, Order);
    SortSorts(receipts, Order);
    var k := CutFrom(valid, 0, bounds);
    CutIsBounded(valid, k, bounds);
    var removed, left := valid[..k], valid[k..];
    assert valid == removed + left && Retained(receipts, bounds) == left;
    forall i, j | 0 <= i < j < |valid|
      ensures NoYounger(valid[i], valid[j])
    {
      OrderByFields(valid[i], valid[j]);
    }
    assert multiset(removed + left) == multiset(receipts);
  }

  lemma CutIsBounded(valid: seq<Receipt>, k: nat, bounds: Bounds)
    requires SortedBy(valid, Order) && IsCut(valid, k, bounds)
    ensures k <= |valid| && |valid[k..]| <= bounds.keep
    ensures Total(valid[k..], BytesOf) <= bounds.maxBytes || |valid[k..]| <= 1
    ensures bounds.olderThan.Some? ==> forall r :: r in valid[k..] ==> r.recordedAt >= bounds.olderThan.value
    ensures forall j :: 0 <= j < k ==> Exceeds(valid[..k], valid[k..], j, bounds)
  {
    hide Exceeds, Total, SortedBy;
    forall j | 0 <= j < k
      ensures Exceeds(valid[..k], valid[k..], j, bounds)
    {
      NotEnoughExceeds(valid, j, k, bounds);
    }
  }

  lemma NotEnoughExceeds(valid: seq<Receipt>, j: nat, k: nat, bounds: Bounds)
    requires SortedBy(valid, Order) && j < k <= |valid| && !Enough(valid, j, bounds)
    ensures Exceeds(valid[..k], valid[k..], j, bounds)
  {
    hide Total;
    SortedByTime(valid);
    hide SortedBy;
    assert valid[..k][j..] + valid[k..] == valid[j..];
  }

  /** The removed prefix and what is retained add up to what there was. */
  lemma CutTotals(receipts: seq<Receipt>, bounds: Bounds)
    ensures var valid := Sort(receipts, Order);
      var k := CutFrom(valid, 0, bounds);
      && Retained(receipts, bounds) == valid[k..]
      && |Retained(receipts, bounds)| == |receipts| - k
      && Total(valid[..k], BytesOf) == Total(receipts, BytesOf) - Total(Retained(receipts, bounds), BytesOf)
  {
    hide AtMost, Sort, Enough;
    var valid := Sort(receipts, Order);
    var k := CutFrom(valid, 0, bounds);
    SortSorts(receipts, Order);
    assert valid == valid[..k] + valid[k..];
    TotalOfConcat(valid[..k], valid[k..], BytesOf);
    TotalOfPermutation(valid, receipts, BytesOf);
  }

  /** A list already within the bounds is kept whole. */
  lemma WithinBoundsKeepsAll(receipts: seq<Receipt>, bounds: Bounds)
    requires bounds.olderThan.None? && |receipts| <= bounds.keep && Total(receipts, BytesOf) <= bounds.maxBytes
    ensures multiset(Retained(receipts, bounds)) == multiset(receipts)
  {
    var valid := Sort(receipts, Order);
    SortSorts(receipts, Order);
    TotalOfPermutation(valid, receipts, BytesOf);
    assert valid[0..] == valid;
    assert Enough(valid, 0, bounds);
  }

  /** The first `k` positions. */
  function Prefix(k: nat): (positions: set<nat>)
    ensures |positions| == k && forall i: nat :: i in positions <==> i < k
  {
    if k == 0 then {} else Prefix(k - 1) + {k - 1}
  }

  lemma SuffixTotal(valid: seq<Receipt>, k: nat)
    requires k < |valid|
    ensures Total(valid[k..], BytesOf) == valid[k].bytes + Total(valid[k + 1..], BytesOf)
  {
    assert valid[k..] == [valid[k]] + valid[k + 1..];
    TotalOfConcat([valid[k]], valid[k + 1..], BytesOf);
    TotalOfOne(valid[k], BytesOf);
  }

  lemma PrefixTotal(valid: seq<Receipt>, k: nat)
    requires k < |valid|
    ensures Total(valid[..k + 1], BytesOf) == Total(valid[..k], BytesOf) + valid[k].bytes <= Total(valid, BytesOf)
  {
    assert valid[..k + 1] == valid[..k] + [valid[k]] && valid == valid[..k + 1] + valid[k + 1..];
    TotalOfConcat(valid[..k], [valid[k]], BytesOf);
    TotalOfOne(valid[k], BytesOf);
    TotalOfConcat(valid[..k + 1], valid[k + 1..], BytesOf);
  }

  lemma SuffixElements(valid: seq<Receipt>, k: nat)
    requires k < |valid|
    ensures valid[k] in multiset(valid[k..]) && multiset(valid[k..]) <= multiset(valid)
    ensures multiset(valid[k..]) - multiset{valid[k]} == multiset(valid[k + 1..])
  {
    assert valid == valid[..k] + valid[k..] && valid[k..] == [valid[k]] + valid[k + 1..];
  }

  lemma PrefixMore(k: nat)
    ensures Prefix(k + 1) == Prefix(k) + {k}
    ensures forall i: nat :: i < k ==> Prefix(k) + {i} == Prefix(k)
  {
  }

  /** Receipts beyond `keep`. */
  method TooMany(valid: seq<Receipt>, bounds: Bounds) returns (removal: set<nat>, ghost k: nat)
    ensures removal == Prefix(k) && k == SaturatingSub(|valid|, bounds.keep)
  {
    hide Prefix;
    removal := {};
    k := SaturatingSub(|valid|, bounds.keep);
    assert Prefix(0) == {};
    for index := 0 to SaturatingSub(|valid|, bounds.keep)
      invariant removal == Prefix(index)
    {
      PrefixMore(index);
      removal := removal + {index};
    }
  }

  lemma SortedByTime(valid: seq<Receipt>)
    requires SortedBy(valid, Order)
    ensures forall i, j :: 0 <= i <= j < |valid| ==> valid[i].recordedAt <= valid[j].recordedAt
  {
    forall i, j | 0 <= i <= j < |valid|
      ensures valid[i].recordedAt <= valid[j].recordedAt
    {
      assert i == j || AtMost(Order(valid[i]), Order(valid[j]));
    }
  }

  /** Receipts older than the cutoff. */
  method TooOld(valid: seq<Receipt>, cutoff: nat, removal: set<nat>, ghost from: nat) returns (grown: set<nat>, ghost k: nat)
    requires SortedBy(valid, Order) && from <= |valid| && removal == Prefix(from)
    ensures from <= k <= |valid| && grown == Prefix(k)
    ensures forall i :: from <= i < k ==> valid[i].recordedAt < cutoff
    ensures forall i :: k <= i < |valid| ==> valid[i].recordedAt >= cutoff
  {
    hide Prefix, SortedBy;
    SortedByTime(valid);
    grown, k := removal, from;
    for index := 0 to |valid|
      invariant from <= k <= |valid| && grown == Prefix(k)
      invariant forall i :: from <= i < k ==> valid[i].recordedAt < cutoff
      invariant forall i :: k <= i < index ==> valid[i].recordedAt >= cutoff
    {
      assert k < index ==> valid[k].recordedAt >= cutoff;
      if valid[index].recordedAt < cutoff {
        PrefixMore(k);
        if index >= k {
          k := k + 1;
        }
        grown := grown + {index};
      }
    }
  }

  lemma NotEnoughYet(valid: seq<Receipt>, j: nat, k: nat, bounds: Bounds)
    requires j < k <= |valid|
    requires j < SaturatingSub(|valid|, bounds.keep) || (bounds.olderThan.Some? && valid[j].recordedAt < bounds.olderThan.value)
    ensures !Enough(valid, j, bounds)
  {
  }

  /** Receipts beyond `keep`, and then those older than the cutoff. */
  method TooManyOrTooOld(valid: seq<Receipt>, bounds: Bounds) returns (removal: set<nat>, ghost k: nat)
    requires SortedBy(valid, Order)
    ensures k <= |valid| && removal == Prefix(k) && |valid| - k <= bounds.keep
    ensures bounds.olderThan.Some? ==> forall i :: k <= i < |valid| ==> valid[i].recordedAt >= bounds.olderThan.value
    ensures forall j :: 0 <= j < k ==> !Enough(valid, j, bounds)
  {
    hide Prefix, Enough;
    removal, k := TooMany(valid, bounds);
    if bounds.olderThan.Some? {
      removal, k := TooOld(valid, bounds.olderThan.value, removal, k);
    }
    forall j | 0 <= j < k
      ensures !Enough(valid, j, bounds)
    {
      NotEnoughYet(valid, j, k, bounds);
    }
  }

  /** The bytes of the receipts that are not to be removed. */
  method RemainingBytes(valid: seq<Receipt>, removal: set<nat>, ghost k: nat) returns (bytes: nat)
    requires k <= |valid| && removal == Prefix(k) && Total(valid[k..], BytesOf) <= U64_MAX
    ensures bytes == Total(valid[k..], BytesOf)
  {
    bytes := 0;
    ghost var low := k;
    for index := 0 to |valid|
      invariant low == (if index < k then k else index)
      invariant low <= |valid| && bytes + Total(valid[low..], BytesOf) == Total(valid[k..], BytesOf)
    {
      if index !in removal {
        SuffixTotal(valid, index);
        bytes := SaturatingAdd(bytes, valid[index].bytes);
        low := index + 1;
      }
    }
    assert valid[low..] == [];
  }

  lemma SuffixIsNoLarger(valid: seq<Receipt>, k: nat)
    requires k <= |valid|
    ensures Total(valid[k..], BytesOf) <= Total(valid, BytesOf)
  {
    assert valid == valid[..k] + valid[k..];
    TotalOfConcat(valid[..k], valid[k..], BytesOf);
  }

  predicate StillTooLarge(valid: seq<Receipt>, k: nat, maxBytes: nat)
    requires k <= |valid|
  {
    Total(valid[k..], BytesOf) > maxBytes && |valid| - k > 1
  }

  /** The oldest of the rest until its bytes fit or one receipt is left. */
  method TooLarge(valid: seq<Receipt>, maxBytes: nat, removal: set<nat>, ghost from: nat)
      returns (grown: set<nat>, ghost k: nat)
    requires from <= |valid| && removal == Prefix(from) && Total(valid[from..], BytesOf) <= U64_MAX
    ensures from <= k <= |valid| && grown == Prefix(k)
    ensures Total(valid[k..], BytesOf) <= maxBytes || |valid| - k <= 1
    ensures forall j :: from <= j < k ==> StillTooLarge(valid, j, maxBytes)
  {
    hide Prefix;
    grown, k := removal, from;
    var remainingBytes := RemainingBytes(valid, removal, k);
    var remainingCount := |valid| - |removal|;
    for index := 0 to |valid|
      invariant from <= k <= |valid| && grown == Prefix(k) && k == (if index < from then from else index)
      invariant remainingBytes == Total(valid[k..], BytesOf) && remainingCount == |valid| - k
      invariant forall j :: from <= j < k ==> StillTooLarge(valid, j, maxBytes)
    {
      if remainingBytes <= maxBytes || remainingCount <= 1 {
        break;
      }
      if index !in grown {
        SuffixTotal(valid, index);
        PrefixMore(index);
        grown := grown + {index};
        remainingBytes := SaturatingSub(remainingBytes, valid[index].bytes);
        remainingCount := SaturatingSub(remainingCount, 1);
        k := k + 1;
      }
    }
  }

  /** The removal plan is the shortest prefix that is enough, for any combination of bounds. */
  method RemovalPlan(valid: seq<Receipt>, bounds: Bounds) returns (removal: set<nat>)
    requires SortedBy(valid, Order) && Total(valid, BytesOf) <= U64_MAX
    ensures removal == Prefix(CutFrom(valid, 0, bounds)) && |removal| == CutFrom(valid, 0, bounds)
  {
    hide Prefix;
    ghost var k;
    removal, k := TooManyOrTooOld(valid, bounds);
    SuffixIsNoLarger(valid, k);
    ghost var from := k;
    removal, k := TooLarge(valid, bounds.maxBytes, removal, k);
    forall j | from <= j < k
      ensures !Enough(valid, j, bounds)
    {
      assert StillTooLarge(valid, j, bounds.maxBytes);
    }
    CutIsUnique(valid, k, CutFrom(valid, 0, bounds), bounds);
  }

  lemma CutIsUnique(valid: seq<Receipt>, j: nat, k: nat, bounds: Bounds)
    requires IsCut(valid, j, bounds) && IsCut(valid, k, bounds)
    ensures j == k
  {
  }
}
