/** Sequences as bags of elements. */
module Sequences {

  /** The sequence without the element at `i`. */
  function WithoutAt<T>(xs: seq<T>, i: nat): (r: seq<T>)
    requires i < |xs|
    ensures |r| == |xs| - 1
  {
    xs[..i] + xs[i + 1..]
  }

  lemma SplitAt<T>(xs: seq<T>, i: nat)
    requires i < |xs|
    ensures xs == xs[..i] + ([xs[i]] + xs[i + 1..])
  {
  }

  lemma BagOfConcat<T>(a: seq<T>, b: seq<T>)
    ensures multiset(a + b) == multiset(a) + multiset(b)
  {
  }

  lemma BagWithout<T>(xs: seq<T>, i: nat)
    requires i < |xs|
    ensures multiset(xs) == multiset(WithoutAt(xs, i)) + multiset{xs[i]}
  {
    SplitAt(xs, i);
    BagOfConcat(xs[..i], [xs[i]] + xs[i + 1..]);
    BagOfConcat([xs[i]], xs[i + 1..]);
    BagOfConcat(xs[..i], xs[i + 1..]);
  }

  lemma TailIsWithout<T>(xs: seq<T>)
    requires xs != []
    ensures WithoutAt(xs, 0) == xs[1..]
  {
  }

  /** The first element of a part, taken from both sides. */
  lemma PartWithout<T>(xs: seq<T>, ys: seq<T>) returns (i: nat)
    requires xs != [] && multiset(xs) <= multiset(ys)
    ensures i < |ys| && ys[i] == xs[0] && multiset(xs[1..]) <= multiset(WithoutAt(ys, i))
  {
    i := Occurrence(xs, ys);
    hide WithoutAt;
    TailIsWithout(xs);
    BagWithout(xs, 0);
    BagWithout(ys, i);
    BagsWithout(multiset(WithoutAt(xs, 0)), multiset(WithoutAt(ys, i)), xs[0]);
  }

  lemma Occurrence<T>(xs: seq<T>, ys: seq<T>) returns (i: nat)
    requires xs != [] && multiset(xs) <= multiset(ys)
    ensures i < |ys| && ys[i] == xs[0]
  {
    assert xs[0] in multiset(xs);
    assert xs[0] in multiset(ys);
    i :| 0 <= i < |ys| && ys[i] == xs[0];
  }

  lemma BagsWithout<T>(a: multiset<T>, b: multiset<T>, x: T)
    requires a + multiset{x} <= b + multiset{x}
    ensures a <= b
  {
    forall y
      ensures a[y] <= b[y]
    {
      assert (a + multiset{x})[y] <= (b + multiset{x})[y];
    }
  }

  lemma SameBagsWithout<T>(a: multiset<T>, b: multiset<T>, x: T)
    requires a + multiset{x} == b + multiset{x}
    ensures a == b
  {
    assert a == (a + multiset{x}) - multiset{x};
    assert b == (b + multiset{x}) - multiset{x};
  }
}
