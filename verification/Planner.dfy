/** The eviction planner: which whole arenas to collect so that the rest fits the budget. */
module Planner {
  import opened Prelude
  import opened ByteSizes
  import opened Sorting
  import opened ArenaManifests

  datatype ArenaState = Active | Suspect | Pinned | Orphaned | Idle

  datatype Liveness = Inactive | Active | Suspect

  datatype SizeQuality = Fresh | Cached | Stale | Unknown

  datatype ArenaRecord = ArenaRecord(
    id: nat, size: nat, quality: SizeQuality, lastUsedAt: nat, liveness: Liveness, pinned: bool,
    worktreeExists: bool, lastOutcome: Option<Outcome>)
  {
    function State(): ArenaState {
      if liveness == Liveness.Active then ArenaState.Active
      else if liveness == Liveness.Suspect then ArenaState.Suspect
      else if pinned then Pinned
      else if !worktreeExists then Orphaned
      else Idle
    }

    predicate Trusted() {
      quality.Fresh? || quality.Cached?
    }

    function Priority(): nat {
      if State().Orphaned? then 0 else if lastOutcome.Some? && lastOutcome.value.FailedWith? then 1 else 2
    }

    function Reason(): EvictionReason {
      if State().Orphaned? then OrphanedWorktree
      else if lastOutcome.Some? && lastOutcome.value.FailedWith? then FailedBuild
      else LeastRecentlyUsed
    }
  }

  datatype EvictionReason = OrphanedWorktree | FailedBuild | LeastRecentlyUsed

  datatype Eviction = Eviction(id: nat, size: nat, reason: EvictionReason)

  datatype CollectionPolicy = CollectionPolicy(budget: nat, lowWatermark: nat)

  datatype CollectionPlan = CollectionPlan(
    before: nat, target: nat, projected: nat, protected: nat, reclaimable: nat, evictions: seq<Eviction>, budgetMet: bool)

  datatype Planned = Planned(plan: CollectionPlan) | InvalidLowWatermark

  function SizeOf(r: ArenaRecord): nat {
    r.size
  }

  predicate IsProtected(r: ArenaRecord) {
    r.State().Active? || r.State().Suspect? || r.State().Pinned? || !r.Trusted()
  }

  predicate IsCandidate(r: ArenaRecord) {
    r.Trusted() && (r.State().Orphaned? || r.State().Idle?)
  }

  /** Eviction order: priority, least recently used, largest, and the identity to make it total. */
  function Key(r: ArenaRecord): seq<int> {
    var size: int := r.size;
    [r.Priority(), r.lastUsedAt, -size, r.id]
  }

  function EvictionOf(r: ArenaRecord): Eviction {
    Eviction(r.id, r.size, r.Reason())
  }

  function EvictionsOf(rs: seq<ArenaRecord>): (es: seq<Eviction>)
    ensures |es| == |rs|
  {
    seq(|rs|, i requires 0 <= i < |rs| => EvictionOf(rs[i]))
  }

  function EvictedSize(e: Eviction): nat {
    e.size
  }

  predicate AllTrusted(records: seq<ArenaRecord>) {
    forall r :: r in records ==> r.Trusted()
  }

  predicate DistinctIds(records: seq<ArenaRecord>) {
    forall r, s :: r in records && s in records && r.id == s.id ==> r == s
  }

  function TargetOf(policy: CollectionPolicy, reservation: nat): nat {
    SaturatingSub(Percent(policy.budget, policy.lowWatermark), reservation)
  }

  /** The fewest candidates, at least `from`, whose eviction reaches the target; all of them if none suffice. */
  function EvictedFrom(order: seq<ArenaRecord>, from: nat, before: nat, target: nat): (k: nat)
    requires from <= |order|
    ensures from <= k <= |order|
    ensures k == |order| || SaturatingSub(before, Total(order[..k], SizeOf)) <= target
    ensures forall j :: from <= j < k ==> SaturatingSub(before, Total(order[..j], SizeOf)) > target
    decreases |order| - from
  {
    if from == |order| || SaturatingSub(before, Total(order[..from], SizeOf)) <= target then from
    else EvictedFrom(order, from + 1, before, target)
  }

  predicate AlreadyFits(records: seq<ArenaRecord>, policy: CollectionPolicy, reservation: nat) {
    SaturatingAdd(Clamp(Total(records, SizeOf)), reservation) <= policy.budget
  }

  /** The arenas to evict, in eviction order. */
  function Evicted(records: seq<ArenaRecord>, policy: CollectionPolicy, reservation: nat): seq<ArenaRecord> {
    var order := Sort(Filter(records, IsCandidate), Key);
    if AlreadyFits(records, policy, reservation) then []
    else order[..EvictedFrom(order, 0, Clamp(Total(records, SizeOf)), TargetOf(policy, reservation))]
  }

  /** The plan, in terms of true sums. */
  function PlanFor(records: seq<ArenaRecord>, policy: CollectionPolicy, reservation: nat): CollectionPlan {
    var before := Clamp(Total(records, SizeOf));
    var evicted := Evicted(records, policy, reservation);
    var projected := SaturatingSub(before, Total(evicted, SizeOf));
    CollectionPlan(
      before, TargetOf(policy, reservation), projected, Clamp(Total(Filter(records, IsProtected), SizeOf)),
      SaturatingSub(before, projected), EvictionsOf(evicted),
      AllTrusted(records) && SaturatingAdd(projected, reservation) <= policy.budget)
  }

  lemma EvictOneMore(order: seq<ArenaRecord>, k: nat, before: nat)
    requires k < |order|
    ensures SaturatingSub(SaturatingSub(before, Total(order[..k], SizeOf)), order[k].size)
         == SaturatingSub(before, Total(order[..k + 1], SizeOf))
    ensures EvictionsOf(order[..k]) + [EvictionOf(order[k])] == EvictionsOf(order[..k + 1])
  {
    assert order[..k + 1] == order[..k] + [order[k]];
    TotalOfConcat(order[..k], [order[k]], SizeOf);
    TotalOfOne(order[k], SizeOf);
  }

  lemma SaturatingTotal(records: seq<ArenaRecord>)
    ensures SaturatingSum(SizesOf(records, SizeOf)) == Clamp(Total(records, SizeOf))
  {
    SaturatingSumIsClampedSum(SizesOf(records, SizeOf));
  }

  /** `plan_collection_with_reservation`. */
  method PlanCollection(records: seq<ArenaRecord>, policy: CollectionPolicy, reservation: nat) returns (r: Planned)
    ensures r == if 1 <= policy.lowWatermark <= 100 then Planned(PlanFor(records, policy, reservation)) else InvalidLowWatermark
  {
    hide SaturatingSum, Sum, Sort, Key;
    if !(1 <= policy.lowWatermark <= 100) {
      return InvalidLowWatermark;
    }
    var before := SaturatingSum(SizesOf(records, SizeOf));
    SaturatingTotal(records);
    var uncertain := exists i :: 0 <= i < |records| && !records[i].Trusted();
    var protected := SaturatingSum(SizesOf(Filter(records, IsProtected), SizeOf));
    SaturatingTotal(Filter(records, IsProtected));
    var target := SaturatingSub(Percent(policy.budget, policy.lowWatermark), reservation);
    if SaturatingAdd(before, reservation) <= policy.budget {
      NothingWeighsNothing();
      return Planned(CollectionPlan(before, target, before, protected, 0, [], !uncertain));
    }
    var order := Sort(Filter(records, IsCandidate), Key);
    var projected, evictions, k := before, [], 0;
    assert order[..0] == [];
    NothingWeighsNothing();
    while k < |order| && projected > target
      invariant 0 <= k <= |order|
      invariant projected == SaturatingSub(before, Total(order[..k], SizeOf)) && evictions == EvictionsOf(order[..k])
      invariant EvictedFrom(order, 0, before, target) == EvictedFrom(order, k, before, target)
    {
      projected := SaturatingSub(projected, order[k].size);
      evictions := evictions + [EvictionOf(order[k])];
      EvictOneMore(order, k, before);
      k := k + 1;
    }
    r := Planned(CollectionPlan(before, target, projected, protected, SaturatingSub(before, projected), evictions,
                                !uncertain && SaturatingAdd(projected, reservation) <= policy.budget));
  }

  // ----- what the plan means -----

  /** Every arena is either protected or a candidate, so the bytes split. */
  lemma {:induction false} ProtectedAndCandidates(records: seq<ArenaRecord>)
    ensures Total(records, SizeOf) == Total(Filter(records, IsProtected), SizeOf) + Total(Filter(records, IsCandidate), SizeOf)
  {
    if records == [] {
      assert Filter(records, IsProtected) == [] == Filter(records, IsCandidate);
      TotalOfConcat(records, records, SizeOf);
      assert records + records == records;
    } else {
      var head, tail := [records[0]], records[1..];
      assert records == head + tail;
      TotalOfConcat(head, tail, SizeOf);
      ProtectedAndCandidates(tail);
      TotalOfConcat(head, Filter(tail, IsProtected), SizeOf);
      TotalOfConcat(head, Filter(tail, IsCandidate), SizeOf);
      assert [] + Filter(tail, IsProtected) == Filter(tail, IsProtected);
      assert [] + Filter(tail, IsCandidate) == Filter(tail, IsCandidate);
    }
  }

  /** The candidates in eviction order carry exactly the candidates' bytes. */
  lemma OrderTotals(records: seq<ArenaRecord>, k: nat)
    requires k <= |Sort(Filter(records, IsCandidate), Key)|
    ensures var order := Sort(Filter(records, IsCandidate), Key);
      && Total(order[..k], SizeOf) <= Total(Filter(records, IsCandidate), SizeOf)
      && (k == |order| ==> Total(order[..k], SizeOf) == Total(Filter(records, IsCandidate), SizeOf))
  {
    var order := Sort(Filter(records, IsCandidate), Key);
    SortSorts(Filter(records, IsCandidate), Key);
    TotalOfPermutation(order, Filter(records, IsCandidate), SizeOf);
    assert order == order[..k] + order[k..];
    TotalOfConcat(order[..k], order[k..], SizeOf);
    assert k == |order| ==> order[..k] == order;
  }

  /**
   What the planner decides, for all sums and budgets: it weighs what is left of the saturated
   total once all candidates are gone.
   */
  lemma BudgetIsMetForAnySums(records: seq<ArenaRecord>, policy: CollectionPolicy, reservation: nat)
    requires 1 <= policy.lowWatermark <= 100 && policy.budget <= U64_MAX
    ensures PlanFor(records, policy, reservation).budgetMet
            <==> AllTrusted(records)
                 && SaturatingAdd(
                      SaturatingSub(Clamp(Total(records, SizeOf)), Total(Filter(records, IsCandidate), SizeOf)), reservation)
                    <= policy.budget
  {
    hide Sum, Sort, Key, Filter, IsProtected, IsCandidate, AllTrusted, Percent;
    var order := Sort(Filter(records, IsCandidate), Key);
    var k := EvictedFrom(order, 0, Clamp(Total(records, SizeOf)), TargetOf(policy, reservation));
    PercentIsAShare(policy.budget, policy.lowWatermark);
    OrderTotals(records, k);
    NothingWeighsNothing();
  }

  /**
   For trusted records the decision is wrong exactly when the budget lies between what is left of
   the largest value without the candidates, which saturation takes for the rest, and what is
   really left: a budget of the largest value, or a total beyond it.
   */
  lemma DecisionIsWrongExactlyUnderSaturation(records: seq<ArenaRecord>, policy: CollectionPolicy, reservation: nat)
    requires 1 <= policy.lowWatermark <= 100 && policy.budget <= U64_MAX && AllTrusted(records)
    ensures var protected, candidates := Total(Filter(records, IsProtected), SizeOf), Total(Filter(records, IsCandidate), SizeOf);
      (PlanFor(records, policy, reservation).budgetMet != (protected + reservation <= policy.budget))
      <==> SaturatingAdd(SaturatingSub(U64_MAX, candidates), reservation) <= policy.budget < protected + reservation
  {
    hide Sum, Sort, Key, Filter, IsProtected, IsCandidate, AllTrusted, Percent, PlanFor;
    BudgetIsMetForAnySums(records, policy, reservation);
    ProtectedAndCandidates(records);
  }

  /**
   The greedy planner is complete: it meets the budget exactly when no size is untrusted and what
   it may not evict, with the reservation, is within the budget.
   */
  lemma BudgetIsMetExactly(records: seq<ArenaRecord>, policy: CollectionPolicy, reservation: nat)
    requires 1 <= policy.lowWatermark <= 100 && policy.budget < U64_MAX
    requires Total(records, SizeOf) <= U64_MAX
    ensures PlanFor(records, policy, reservation).budgetMet
            <==> AllTrusted(records) && Total(Filter(records, IsProtected), SizeOf) + reservation <= policy.budget
  {
    hide Sum, Sort, Key, Filter, IsProtected, IsCandidate, AllTrusted, Percent, PlanFor;
    BudgetIsMetForAnySums(records, policy, reservation);
    ProtectedAndCandidates(records);
  }

  lemma NothingWeighsNothing()
    ensures Total([], SizeOf) == 0
  {
    var nothing: seq<ArenaRecord> := [];
    TotalOfConcat(nothing, nothing, SizeOf);
    assert nothing + nothing == nothing;
  }

  lemma TwoRecords(x: ArenaRecord, y: ArenaRecord)
    requires IsProtected(x) && IsCandidate(y)
    ensures Filter([x, y], IsProtected) == [x] && Filter([x, y], IsCandidate) == [y]
    ensures Total([x, y], SizeOf) == x.size + y.size && Sort([y], Key) == [y]
  {
    assert [x, y][1..] == [y] && [y][1..] == [];
    assert Filter([y], IsProtected) == [] && Filter([y], IsCandidate) == [y];
    assert [x, y] == [x] + [y];
    TotalOfConcat([x], [y], SizeOf);
    TotalOfOne(x, SizeOf);
    TotalOfOne(y, SizeOf);
    assert Sort([], Key) == [];
  }

  /** The restriction to 64-bit sums matters: a saturated total makes eviction look better than it is. */
  lemma SaturatedTotalHidesAnOverrun(budget: nat)
    requires budget < U64_MAX
    ensures exists records: seq<ArenaRecord> ::
      && DistinctIds(records) && PlanFor(records, CollectionPolicy(budget, 100), 0).budgetMet
      && Total(Filter(records, IsProtected), SizeOf) > budget
  {
    hide Sum, Filter, Sort, Key;
    var pinned := ArenaRecord(0, U64_MAX, Fresh, 0, Inactive, true, true, None);
    var idle := ArenaRecord(1, U64_MAX, Fresh, 0, Inactive, false, true, None);
    var records := [pinned, idle];
    TwoRecords(pinned, idle);
    TotalOfOne(pinned, SizeOf);
    TotalOfOne(idle, SizeOf);
    NothingWeighsNothing();
    assert [idle][..0] == [] && [idle][..1] == [idle];
    assert DistinctIds(records) && PlanFor(records, CollectionPolicy(budget, 100), 0).budgetMet;
  }

  /** The candidates that the plan leaves, in eviction order. */
  function Spared(records: seq<ArenaRecord>, policy: CollectionPolicy, reservation: nat): seq<ArenaRecord> {
    Sort(Filter(records, IsCandidate), Key)[|Evicted(records, policy, reservation)|..]
  }

  /**
   The evictions are the start of the eviction order of the unprotected trusted arenas: nobody is
   evicted before a better candidate, none too many are, and the planner stops short of the target
   only when no candidate is left.
   */
  lemma EvictionIsShortestPrefix(records: seq<ArenaRecord>, policy: CollectionPolicy, reservation: nat)
    requires !AlreadyFits(records, policy, reservation)
    ensures var plan := PlanFor(records, policy, reservation);
      var evicted, spared := Evicted(records, policy, reservation), Spared(records, policy, reservation);
      && multiset(evicted) + multiset(spared) == multiset(Filter(records, IsCandidate))
      && (forall x, y :: x in evicted && y in spared ==> AtMost(Key(x), Key(y)))
      && plan.evictions == EvictionsOf(evicted)
      && (spared == [] || plan.projected <= plan.target)
      && forall j :: 0 <= j < |evicted| ==> SaturatingSub(plan.before, Total(evicted[..j], SizeOf)) > plan.target
  {
    hide Sum, Sort, Key, Filter, AtMost, AllTrusted;
    var order := Sort(Filter(records, IsCandidate), Key);
    SortSorts(Filter(records, IsCandidate), Key);
    var k := EvictedFrom(order, 0, Clamp(Total(records, SizeOf)), TargetOf(policy, reservation));
    var evicted, spared := Evicted(records, policy, reservation), Spared(records, policy, reservation);
    assert evicted == order[..k] && spared == order[k..];
    SortedSplits(order, k);
    forall j | 0 <= j < k
      ensures evicted[..j] == order[..j]
    {
    }
  }

  lemma SortedSplits(order: seq<ArenaRecord>, k: nat)
    requires SortedBy(order, Key) && k <= |order|
    ensures multiset(order[..k]) + multiset(order[k..]) == multiset(order)
    ensures forall x, y :: x in order[..k] && y in order[k..] ==> AtMost(Key(x), Key(y))
  {
    hide Key, AtMost;
    assert order == order[..k] + order[k..];
    forall x, y | x in order[..k] && y in order[k..]
      ensures AtMost(Key(x), Key(y))
    {
      var i :| 0 <= i < k && order[i] == x;
      var j :| k <= j < |order| && order[j] == y;
    }
  }

  /** What is projected to remain and what is evicted add up to what there was. */
  lemma NothingIsLostInThePlan(records: seq<ArenaRecord>, policy: CollectionPolicy, reservation: nat)
    requires Total(records, SizeOf) <= U64_MAX
    ensures var plan := PlanFor(records, policy, reservation);
      plan.projected + Total(plan.evictions, EvictedSize) == plan.before && plan.reclaimable == plan.before - plan.projected
  {
    hide Sum, Sort, Key, Filter, IsProtected, IsCandidate;
    var evicted := Evicted(records, policy, reservation);
    var order := Sort(Filter(records, IsCandidate), Key);
    ProtectedAndCandidates(records);
    OrderTotals(records, EvictedFrom(order, 0, Clamp(Total(records, SizeOf)), TargetOf(policy, reservation)));
    NothingWeighsNothing();
    assert SizesOf(EvictionsOf(evicted), EvictedSize) == SizesOf(evicted, SizeOf);
  }

  /** The plan does not depend on the order in which the arenas are listed. */
  lemma PlanIgnoresOrder(records: seq<ArenaRecord>, others: seq<ArenaRecord>, policy: CollectionPolicy, reservation: nat)
    requires multiset(records) == multiset(others) && DistinctIds(records)
    ensures PlanFor(records, policy, reservation) == PlanFor(others, policy, reservation)
  {
    hide Sum, Sort, AtMost;
    TotalOfPermutation(records, others, SizeOf);
    FilterOfPermutation(records, others, IsProtected);
    TotalOfPermutation(Filter(records, IsProtected), Filter(others, IsProtected), SizeOf);
    FilterOfPermutation(records, others, IsCandidate);
    FilterSelects(records, IsCandidate);
    assert DistinctKeys(Filter(records, IsCandidate), Key) by {
      forall r, s | r in Filter(records, IsCandidate) && s in Filter(records, IsCandidate) && Key(r) == Key(s)
        ensures r == s
      {
        assert Key(r)[3] == r.id && Key(s)[3] == s.id;
      }
    }
    SortIgnoresOrder(Filter(records, IsCandidate), Filter(others, IsCandidate), Key);
    assert forall r :: r in records <==> r in multiset(records);
    assert forall r :: r in others <==> r in multiset(others);
  }

  // ----- the plan in terms of what an arena's record says -----

  /** An arena is protected while it is used or suspected, pinned, or of uncertain size, and a candidate otherwise. */
  lemma ProtectionByFields(r: ArenaRecord)
    ensures IsCandidate(r) <==> r.liveness == Inactive && !r.pinned && (r.quality == Fresh || r.quality == Cached)
    ensures IsProtected(r) <==> r.liveness != Inactive || r.pinned || r.quality == Stale || r.quality == Unknown
    ensures r.Trusted() <==> r.quality != Stale && r.quality != Unknown
  {
  }

  /** How soon an arena is due: without a worktree first, then after a failed build, then any other. */
  function Rank(r: ArenaRecord): (rank: nat)
    ensures rank <= 2
  {
    match (r.worktreeExists, r.lastOutcome)
    case (false, _) => 0
    case (true, Some(FailedWith(_))) => 1
    case (true, _) => 2
  }

  /** Within a rank the least recently used comes first, then the larger, then the smaller identity. */
  predicate NoLater(x: ArenaRecord, y: ArenaRecord) {
    || Rank(x) < Rank(y)
    || (Rank(x) == Rank(y)
        && (x.lastUsedAt < y.lastUsedAt
            || (x.lastUsedAt == y.lastUsedAt && (x.size > y.size || (x.size == y.size && x.id <= y.id)))))
  }

  lemma OrderByFields(x: ArenaRecord, y: ArenaRecord)
    requires IsCandidate(x) && IsCandidate(y)
    ensures AtMost(Key(x), Key(y)) <==> NoLater(x, y)
    ensures EvictionOf(x)
         == Eviction(x.id, x.size, [OrphanedWorktree, FailedBuild, LeastRecentlyUsed][Rank(x)])
  {
    var kx, ky := Key(x), Key(y);
    assert kx[0] == Rank(x) && kx[1] == x.lastUsedAt && kx[2] + x.size == 0 && kx[3] == x.id;
    assert ky[0] == Rank(y) && ky[1] == y.lastUsedAt && ky[2] + y.size == 0 && ky[3] == y.id;
    hide Key, Rank;
    assert AtMost(kx, ky) <==> kx[0] < ky[0] || (kx[0] == ky[0] && AtMost(kx[1..], ky[1..]));
    assert AtMost(kx[1..], ky[1..]) <==> kx[1] < ky[1] || (kx[1] == ky[1] && AtMost(kx[2..], ky[2..]));
    assert AtMost(kx[2..], ky[2..]) <==> kx[2] < ky[2] || (kx[2] == ky[2] && AtMost(kx[3..], ky[3..]));
    assert AtMost(kx[3..], ky[3..]) <==> kx[3] <= ky[3];
  }

  /** Evicted and spared arenas are the candidates in eviction order, whether or not there is anything to do. */
  lemma OrderedCandidates(records: seq<ArenaRecord>, policy: CollectionPolicy, reservation: nat)
    ensures Evicted(records, policy, reservation) + Spared(records, policy, reservation)
         == Sort(Filter(records, IsCandidate), Key)
  {
    hide Sort, Key, Filter, AlreadyFits, TargetOf;
  }

  /**
   What the plan evicts and spares are exactly the unused, unpinned arenas of a known size; the bytes of
   all others are protected.
   */
  lemma PlannedArenas(records: seq<ArenaRecord>, policy: CollectionPolicy, reservation: nat)
    ensures var order := Evicted(records, policy, reservation) + Spared(records, policy, reservation);
      && (forall r: ArenaRecord ::
            multiset(order)[r] == if r.liveness == Inactive && !r.pinned && (r.quality == Fresh || r.quality == Cached)
                                  then multiset(records)[r] else 0)
      && Total(order, SizeOf) <= Total(records, SizeOf)
      && PlanFor(records, policy, reservation).protected == Clamp(Total(records, SizeOf) - Total(order, SizeOf))
  {
    hide Sort, Key, Filter, Evicted, Spared, Sum, EvictionsOf, AllTrusted, TargetOf;
    OrderedCandidates(records, policy, reservation);
    SortSorts(Filter(records, IsCandidate), Key);
    TotalOfPermutation(Sort(Filter(records, IsCandidate), Key), Filter(records, IsCandidate), SizeOf);
    ProtectedAndCandidates(records);
    forall r: ArenaRecord
      ensures multiset(Filter(records, IsCandidate))[r]
           == if r.liveness == Inactive && !r.pinned && (r.quality == Fresh || r.quality == Cached)
              then multiset(records)[r] else 0
    {
      FilterCounts(records, IsCandidate, r);
      ProtectionByFields(r);
    }
  }

  /** Evictions follow the order, spared arenas come after all of them, and each is named with its size and reason. */
  lemma PlannedOrder(records: seq<ArenaRecord>, policy: CollectionPolicy, reservation: nat)
    ensures var evictions := PlanFor(records, policy, reservation).evictions;
      var evicted := Evicted(records, policy, reservation);
      var order := evicted + Spared(records, policy, reservation);
      && (forall i, j :: 0 <= i < j < |order| ==> NoLater(order[i], order[j]))
      && |evictions| == |evicted|
      && forall i :: 0 <= i < |evicted| ==>
           evictions[i]
           == Eviction(evicted[i].id, evicted[i].size, [OrphanedWorktree, FailedBuild, LeastRecentlyUsed][Rank(evicted[i])])
  {
    hide Sort, Key, Filter, Evicted, Spared, Sum, AllTrusted, TargetOf, Rank, AtMost, NoLater, EvictionOf;
    OrderedCandidates(records, policy, reservation);
    SortSorts(Filter(records, IsCandidate), Key);
    FilterSelects(records, IsCandidate);
    var evicted := Evicted(records, policy, reservation);
    var order := Sort(Filter(records, IsCandidate), Key);
    forall i | 0 <= i < |order|
      ensures IsCandidate(order[i])
    {
      assert order[i] in multiset(order);
    }
    forall i, j | 0 <= i < j < |order|
      ensures NoLater(order[i], order[j])
    {
      OrderByFields(order[i], order[j]);
    }
    forall i | 0 <= i < |evicted|
      ensures EvictionOf(evicted[i])
           == Eviction(evicted[i].id, evicted[i].size, [OrphanedWorktree, FailedBuild, LeastRecentlyUsed][Rank(evicted[i])])
    {
      assert evicted[i] == order[i];
      OrderByFields(evicted[i], evicted[i]);
    }
  }

  /**
   The numbers of the plan: how far eviction goes is decided by the target, and the budget counts as met
   only when every size is known.
   */
  lemma PlannedBytes(records: seq<ArenaRecord>, policy: CollectionPolicy, reservation: nat)
    requires 1 <= policy.lowWatermark <= 100 && policy.budget <= U64_MAX
    ensures var plan := PlanFor(records, policy, reservation);
      var evicted, spared := Evicted(records, policy, reservation), Spared(records, policy, reservation);
      var share, fits := policy.budget * policy.lowWatermark / 100, Clamp(plan.before + reservation) <= policy.budget;
      && plan.before == Clamp(Total(records, SizeOf))
      && plan.target == (if share < reservation then 0 else share - reservation)
      && plan.projected == SaturatingSub(plan.before, Total(evicted, SizeOf))
      && plan.reclaimable == plan.before - plan.projected
      && (fits ==> evicted == [])
      && (!fits && spared != [] ==> plan.projected <= plan.target)
      && (evicted != [] ==> plan.target < SaturatingSub(plan.before, Total(evicted[..|evicted| - 1], SizeOf)))
      && (plan.budgetMet <==>
            && (forall r :: r in records ==> r.quality == Fresh || r.quality == Cached)
            && Clamp(plan.projected + reservation) <= policy.budget)
  {
    hide Sort, Key, Filter, Sum, Total, Percent, IsCandidate, IsProtected, EvictionsOf;
    PercentIsAShare(policy.budget, policy.lowWatermark);
    if !AlreadyFits(records, policy, reservation) {
      var order := Sort(Filter(records, IsCandidate), Key);
      var evicted := Evicted(records, policy, reservation);
      assert evicted != [] ==> evicted[..|evicted| - 1] == order[..|evicted| - 1];
      assert order[..|order|] == order;
    }
  }
}
