/**
  Sequence helpers the reducer is built from: sums over a projection, strictly
  increasing key lists (the group order of a table grouped by a key), and the
  first-index minimum that a table's `idxmin` returns.
 */
module Seqs {

  /** Sum of `f` over the elements of `xs`, in order. */
  function Sum<T>(xs: seq<T>, f: T -> nat): nat
  {
    if xs == [] then 0 else f(xs[0]) + Sum(xs[1..], f)
  }

  /** Summing a pointwise sum is summing each part. */
  lemma {:induction false} SumPointwise<T>(xs: seq<T>, f: T -> nat, g: T -> nat, h: T -> nat)
    requires forall x :: h(x) == f(x) + g(x)
    ensures Sum(xs, h) == Sum(xs, f) + Sum(xs, g)
  {
    if xs != [] {
      SumPointwise(xs[1..], f, g, h);
    }
  }

  predicate StrictlyIncreasing(xs: seq<int>)
  {
    forall i, j :: 0 <= i < j < |xs| ==> xs[i] < xs[j]
  }

  /** Adds `k` to an ascending, repeat-free list, keeping it so. */
  function Insert(xs: seq<int>, k: int): (r: seq<int>)
    requires StrictlyIncreasing(xs)
    ensures StrictlyIncreasing(r)
    ensures forall x :: x in r <==> x in xs || x == k
  {
    if xs == [] then [k]
    else if k < xs[0] then [k] + xs
    else if k == xs[0] then xs
    else
      var rest := Insert(xs[1..], k);
      TailAbove(xs);
      ConsIncreasing(xs[0], rest);
      assert xs == [xs[0]] + xs[1..];
      [xs[0]] + rest
  }

  /** Every later entry of an increasing list is above its head. */
  lemma TailAbove(xs: seq<int>)
    requires StrictlyIncreasing(xs) && |xs| > 0
    ensures forall y :: y in xs[1..] ==> xs[0] < y
  {
    forall y | y in xs[1..] ensures xs[0] < y {
      var j :| 0 <= j < |xs[1..]| && xs[1..][j] == y;
      assert xs[j + 1] == y;
    }
  }

  lemma ConsIncreasing(x: int, rest: seq<int>)
    requires StrictlyIncreasing(rest)
    requires forall y :: y in rest ==> x < y
    ensures StrictlyIncreasing([x] + rest)
  {
    var r := [x] + rest;
    forall i, j | 0 <= i < j < |r| ensures r[i] < r[j] {
      assert r[j] == rest[j - 1];
      if i == 0 {
        assert rest[j - 1] in rest;
      } else {
        assert r[i] == rest[i - 1];
      }
    }
  }

  /** The first index at which `xs` takes its minimum value. */
  function ArgMin(xs: seq<int>): (k: nat)
    requires |xs| > 0
    ensures k < |xs|
    ensures forall j :: 0 <= j < |xs| ==> xs[k] <= xs[j]
    ensures forall j :: 0 <= j < k ==> xs[j] > xs[k]
  {
    if |xs| == 1 then 0
    else
      var k := ArgMin(xs[..|xs| - 1]);
      if xs[|xs| - 1] < xs[k] then |xs| - 1 else k
  }
}
