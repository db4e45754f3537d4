/** Saturating byte counts, as `ByteSize` computes them on u64, and their relation to true sums. */
module ByteSizes {
  import opened Prelude
  import opened Sequences

  function Clamp(n: nat): nat {
    if n <= U64_MAX then n else U64_MAX
  }

  function SaturatingAdd(x: nat, y: nat): nat {
    Clamp(x + y)
  }

  function SaturatingSub(x: nat, y: nat): nat {
    if x < y then 0 else x - y
  }

  function Percent(x: nat, percent: nat): nat {
    Clamp(x * percent / 100)
  }

  function Sum(xs: seq<nat>): nat {
    if xs == [] then 0 else Sum(xs[..|xs| - 1]) + xs[|xs| - 1]
  }

  /** The left fold with saturating addition by which the store totals sizes. */
  function SaturatingSum(xs: seq<nat>): nat {
    if xs == [] then 0 else SaturatingAdd(SaturatingSum(xs[..|xs| - 1]), xs[|xs| - 1])
  }

  /** Saturation loses nothing below the limit and never wraps. */
  lemma {:induction false} SaturatingSumIsClampedSum(xs: seq<nat>)
    ensures SaturatingSum(xs) == Clamp(Sum(xs))
  {
    if xs != [] {
      SaturatingSumIsClampedSum(xs[..|xs| - 1]);
    }
  }

  /** A saturated comparison against a budget is the true comparison, unless the budget is the limit itself. */
  lemma BudgetComparisonIsExact(sizes: seq<nat>, reservations: seq<nat>, budget: nat)
    requires budget <= U64_MAX
    ensures SaturatingAdd(SaturatingSum(sizes), SaturatingSum(reservations)) <= budget
            <==> budget == U64_MAX || Sum(sizes) + Sum(reservations) <= budget
  {
    SaturatingSumIsClampedSum(sizes);
    SaturatingSumIsClampedSum(reservations);
  }

  lemma {:induction false} SumOfConcat(xs: seq<nat>, ys: seq<nat>)
    ensures Sum(xs + ys) == Sum(xs) + Sum(ys)
  {
    if ys == [] {
      assert xs + ys == xs;
    } else {
      assert (xs + ys)[..|xs + ys| - 1] == xs + ys[..|ys| - 1];
      SumOfConcat(xs, ys[..|ys| - 1]);
    }
  }

  /** The sizes of a list of things. */
  function SizesOf<T>(xs: seq<T>, size: T -> nat): (r: seq<nat>)
    ensures |r| == |xs|
  {
    seq(|xs|, i requires 0 <= i < |xs| => size(xs[i]))
  }

  function Total<T>(xs: seq<T>, size: T -> nat): nat {
    Sum(SizesOf(xs, size))
  }

  lemma TotalOfConcat<T>(xs: seq<T>, ys: seq<T>, size: T -> nat)
    ensures Total(xs + ys, size) == Total(xs, size) + Total(ys, size)
  {
    assert SizesOf(xs + ys, size) == SizesOf(xs, size) + SizesOf(ys, size);
    SumOfConcat(SizesOf(xs, size), SizesOf(ys, size));
  }

  lemma TotalOfOne<T>(x: T, size: T -> nat)
    ensures Total([x], size) == size(x)
  {
    var sizes := SizesOf([x], size);
    assert sizes[..|sizes| - 1] == [] && sizes[|sizes| - 1] == size(x);
    assert Sum([]) == 0;
  }

  lemma TotalWithout<T>(xs: seq<T>, i: nat, size: T -> nat)
    requires i < |xs|
    ensures Total(xs, size) == size(xs[i]) + Total(WithoutAt(xs, i), size)
  {
    hide Total;
    SplitAt(xs, i);
    TotalOfConcat(xs[..i], [xs[i]] + xs[i + 1..], size);
    TotalOfConcat([xs[i]], xs[i + 1..], size);
    TotalOfConcat(xs[..i], xs[i + 1..], size);
    TotalOfOne(xs[i], size);
  }

  /** A part of the things weighs no more than all of them. */
  lemma {:induction false} TotalOfPart<T>(xs: seq<T>, ys: seq<T>, size: T -> nat)
    requires multiset(xs) <= multiset(ys)
    ensures |xs| <= |ys| && Total(xs, size) <= Total(ys, size)
  {
    hide Total, WithoutAt;
    if xs == [] {
      NoTotal(xs, size);
    } else {
      var i := PartWithout(xs, ys);
      TailIsWithout(xs);
      TotalWithout(xs, 0, size);
      TotalWithout(ys, i, size);
      TotalOfPart(xs[1..], WithoutAt(ys, i), size);
    }
  }

  lemma NoTotal<T>(xs: seq<T>, size: T -> nat)
    requires xs == []
    ensures Total(xs, size) == 0
  {
  }

  /** A total does not depend on the order in which the things are listed. */
  lemma TotalOfPermutation<T>(xs: seq<T>, ys: seq<T>, size: T -> nat)
    requires multiset(xs) == multiset(ys)
    ensures |xs| == |ys| && Total(xs, size) == Total(ys, size)
  {
    TotalOfPart(xs, ys, size);
    TotalOfPart(ys, xs, size);
  }

  /** Watermarks never exceed the budget they are a share of. */
  lemma PercentIsAShare(x: nat, percent: nat)
    requires x <= U64_MAX && 1 <= percent <= 100
    ensures Percent(x, percent) == x * percent / 100 <= x
  {
    var scaled, rest := x * percent, x * (100 - percent);
    assert scaled + rest == 100 * x;
  }
}
