/** Sorting by lexicographic integer keys, and why the order of the input does not matter. */
module Sorting {
  import opened Sequences

  /** The order of tuples of the same length, compared component by component. */
  predicate AtMost(a: seq<int>, b: seq<int>) {
    a == [] || (b != [] && (a[0] < b[0] || (a[0] == b[0] && AtMost(a[1..], b[1..]))))
  }

  lemma {:induction false} AtMostIsTotal(a: seq<int>, b: seq<int>)
    ensures AtMost(a, b) || AtMost(b, a)
  {
    if a != [] && b != [] && a[0] == b[0] {
      AtMostIsTotal(a[1..], b[1..]);
    }
  }

  lemma {:induction false} AtMostIsTransitive(a: seq<int>, b: seq<int>, c: seq<int>)
    requires AtMost(a, b) && AtMost(b, c)
    ensures AtMost(a, c)
  {
    if a != [] && a[0] == b[0] == c[0] {
      AtMostIsTransitive(a[1..], b[1..], c[1..]);
    }
  }

  lemma {:induction false} AtMostIsAntisymmetric(a: seq<int>, b: seq<int>)
    requires AtMost(a, b) && AtMost(b, a)
    ensures a == b
  {
    if a != [] {
      AtMostIsAntisymmetric(a[1..], b[1..]);
      assert a == [a[0]] + a[1..] && b == [b[0]] + b[1..];
    }
  }

  predicate SortedBy<T>(xs: seq<T>, key: T -> seq<int>) {
    forall i, j :: 0 <= i < j < |xs| ==> AtMost(key(xs[i]), key(xs[j]))
  }

  function Insert<T>(x: T, xs: seq<T>, key: T -> seq<int>): seq<T> {
    if xs == [] || AtMost(key(x), key(xs[0])) then [x] + xs else [xs[0]] + Insert(x, xs[1..], key)
  }

  /** The result of the library's stable sort by key. */
  function Sort<T>(xs: seq<T>, key: T -> seq<int>): seq<T> {
    if xs == [] then [] else Insert(xs[0], Sort(xs[1..], key), key)
  }

  lemma {:induction false} InsertKeepsSorted<T>(x: T, xs: seq<T>, key: T -> seq<int>)
    requires SortedBy(xs, key)
    ensures SortedBy(Insert(x, xs, key), key) && multiset(Insert(x, xs, key)) == multiset(xs) + multiset{x}
  {
    if xs == [] {
    } else if AtMost(key(x), key(xs[0])) {
      forall j | 0 <= j < |xs|
        ensures AtMost(key(x), key(xs[j]))
      {
        if j > 0 {
          AtMostIsTransitive(key(x), key(xs[0]), key(xs[j]));
        }
      }
    } else {
      var rest := Insert(x, xs[1..], key);
      InsertKeepsSorted(x, xs[1..], key);
      AtMostIsTotal(key(x), key(xs[0]));
      assert xs == [xs[0]] + xs[1..];
      forall j | 0 <= j < |rest|
        ensures AtMost(key(xs[0]), key(rest[j]))
      {
        assert rest[j] in multiset(xs[1..]) + multiset{x};
        if rest[j] != x {
          assert rest[j] in xs[1..];
        }
      }
    }
  }

  lemma {:induction false} SortSorts<T>(xs: seq<T>, key: T -> seq<int>)
    ensures SortedBy(Sort(xs, key), key) && multiset(Sort(xs, key)) == multiset(xs) && |Sort(xs, key)| == |xs|
  {
    if xs != [] {
      SortSorts(xs[1..], key);
      InsertKeepsSorted(xs[0], Sort(xs[1..], key), key);
      assert xs == [xs[0]] + xs[1..];
    }
    assert |multiset(Sort(xs, key))| == |multiset(xs)|;
  }

  /** A sorted sequence starts with a key no greater than any other. */
  lemma SortedHeadIsLeast<T>(xs: seq<T>, x: T, key: T -> seq<int>)
    requires SortedBy(xs, key) && x in xs
    ensures AtMost(key(xs[0]), key(x))
  {
    AtMostIsTotal(key(x), key(x));
  }

  lemma TailsArePermutations<T>(xs: seq<T>, ys: seq<T>)
    requires multiset(xs) == multiset(ys) && xs != [] && ys != [] && xs[0] == ys[0]
    ensures multiset(xs[1..]) == multiset(ys[1..])
  {
    hide WithoutAt;
    TailIsWithout(xs);
    TailIsWithout(ys);
    BagWithout(xs, 0);
    BagWithout(ys, 0);
    SameBagsWithout(multiset(xs[1..]), multiset(ys[1..]), xs[0]);
  }

  /** No two different elements share a key. */
  ghost predicate DistinctKeys<T>(xs: seq<T>, key: T -> seq<int>) {
    forall x, y :: x in xs && y in xs && key(x) == key(y) ==> x == y
  }

  /** With distinct keys there is only one sorted arrangement of the same elements. */
  lemma {:induction false} SortedIsUnique<T>(xs: seq<T>, ys: seq<T>, key: T -> seq<int>)
    requires SortedBy(xs, key) && SortedBy(ys, key) && multiset(xs) == multiset(ys) && DistinctKeys(xs, key)
    ensures xs == ys
  {
    assert |xs| == |multiset(xs)| == |multiset(ys)| == |ys|;
    if xs != [] {
      assert xs[0] in multiset(ys) && ys[0] in multiset(xs);
      SortedHeadIsLeast(xs, ys[0], key);
      SortedHeadIsLeast(ys, xs[0], key);
      AtMostIsAntisymmetric(key(xs[0]), key(ys[0]));
      TailsArePermutations(xs, ys);
      assert SortedBy(xs[1..], key) && SortedBy(ys[1..], key) && DistinctKeys(xs[1..], key) by {
        hide AtMost;
      }
      SortedIsUnique(xs[1..], ys[1..], key) by {
        hide AtMost, SortedBy, DistinctKeys;
      }
      assert xs == [xs[0]] + xs[1..] && ys == [ys[0]] + ys[1..];
    }
  }

  /** Sorting forgets the order of its input. */
  lemma SortIgnoresOrder<T>(xs: seq<T>, ys: seq<T>, key: T -> seq<int>)
    requires multiset(xs) == multiset(ys) && DistinctKeys(xs, key)
    ensures Sort(xs, key) == Sort(ys, key)
  {
    SortSorts(xs, key);
    SortSorts(ys, key);
    forall x | x in Sort(xs, key)
      ensures x in xs
    {
      assert x in multiset(Sort(xs, key));
    }
    SortedIsUnique(Sort(xs, key), Sort(ys, key), key);
  }

  // ----- selection -----

  function Filter<T>(xs: seq<T>, p: T -> bool): seq<T> {
    if xs == [] then [] else (if p(xs[0]) then [xs[0]] else []) + Filter(xs[1..], p)
  }

  lemma SeqAssociates<T>(a: seq<T>, b: seq<T>, c: seq<T>)
    ensures (a + b) + c == a + (b + c)
  {
  }

  lemma {:induction false} FilterOfConcat<T>(xs: seq<T>, ys: seq<T>, p: T -> bool)
    ensures Filter(xs + ys, p) == Filter(xs, p) + Filter(ys, p)
  {
    if xs == [] {
      assert xs + ys == ys;
    } else {
      var head := if p(xs[0]) then [xs[0]] else [];
      assert (xs + ys)[1..] == xs[1..] + ys;
      FilterOfConcat(xs[1..], ys, p);
      SeqAssociates(head, Filter(xs[1..], p), Filter(ys, p));
    }
  }

  /** What selection keeps of one element. */
  function Kept<T>(x: T, p: T -> bool): seq<T> {
    if p(x) then [x] else []
  }

  lemma FilterOfOne<T>(x: T, p: T -> bool)
    ensures Filter([x], p) == Kept(x, p)
  {
    assert [x][1..] == [];
  }

  lemma FilterWithout<T>(ys: seq<T>, i: nat, p: T -> bool)
    requires i < |ys|
    ensures multiset(Filter(ys, p)) == multiset(Filter(WithoutAt(ys, i), p)) + multiset(Kept(ys[i], p))
  {
    hide Filter, Kept;
    var left, item, right := ys[..i], [ys[i]], ys[i + 1..];
    SplitAt(ys, i);
    FilterOfConcat(left, right, p);
    FilterOfConcat(item, right, p);
    FilterOfConcat(left, item + right, p);
    FilterOfOne(ys[i], p);
    BagOfThree(Filter(left, p), Filter(item, p), Filter(right, p));
  }

  lemma BagOfThree<T>(a: seq<T>, b: seq<T>, c: seq<T>)
    ensures multiset(a + (b + c)) == multiset(a + c) + multiset(b)
  {
  }

  /** Selection does not depend on the order of the input either. */
  lemma {:induction false} FilterOfPermutation<T>(xs: seq<T>, ys: seq<T>, p: T -> bool)
    requires multiset(xs) == multiset(ys)
    ensures multiset(Filter(xs, p)) == multiset(Filter(ys, p))
    decreases |xs|
  {
    hide Filter, Kept, WithoutAt;
    assert |xs| == |multiset(xs)| == |multiset(ys)| == |ys|;
    if xs == [] {
      assert ys == [];
    } else {
      var i := Occurrence(xs, ys);
      BagWithout(xs, 0);
      BagWithout(ys, i);
      SameBagsWithout(multiset(WithoutAt(xs, 0)), multiset(WithoutAt(ys, i)), xs[0]);
      FilterWithout(xs, 0, p);
      FilterWithout(ys, i, p);
      FilterOfPermutation(WithoutAt(xs, 0), WithoutAt(ys, i), p);
    }
  }

  lemma {:induction false} FilterSelects<T>(xs: seq<T>, p: T -> bool)
    ensures forall x :: x in Filter(xs, p) <==> x in xs && p(x)
  {
    if xs != [] {
      FilterSelects(xs[1..], p);
      assert xs == [xs[0]] + xs[1..];
    }
  }

  /** Selection keeps every occurrence of what it selects. */
  lemma {:induction false} FilterCounts<T>(xs: seq<T>, p: T -> bool, x: T)
    ensures multiset(Filter(xs, p))[x] == if p(x) then multiset(xs)[x] else 0
  {
    if xs != [] {
      FilterCounts(xs[1..], p, x);
      assert xs == [xs[0]] + xs[1..];
    }
  }
}
