/** `Array.prototype.filter` and the counting built on it. */
module Seqs {

  /** The elements of xs that satisfy p, in their order. */
  function Filter<T>(xs: seq<T>, p: T -> bool): (r: seq<T>)
    ensures |r| <= |xs|
    ensures forall k :: 0 <= k < |r| ==> r[k] in xs
    ensures forall k :: 0 <= k < |xs| && p(xs[k]) ==> xs[k] in r
    ensures forall k :: 0 <= k < |r| ==> p(r[k])
  {
    if xs == [] then []
    else (if p(xs[0]) then [xs[0]] else []) + Filter(xs[1..], p)
  }

  /** Filtering a concatenation filters each part: the kept elements stay
      in their order. */
  lemma {:induction false} FilterAppend<T>(xs: seq<T>, ys: seq<T>, p: T -> bool)
    ensures Filter(xs + ys, p) == Filter(xs, p) + Filter(ys, p)
    decreases |xs|
  {
    if xs == [] {
      assert xs + ys == ys;
    } else {
      assert (xs + ys)[1..] == xs[1..] + ys;
      FilterAppend(xs[1..], ys, p);
    }
  }

  /** Filtering keeps a list exactly when every element satisfies p. */
  lemma {:induction false} FilterKeepsAll<T>(xs: seq<T>, p: T -> bool)
    ensures Filter(xs, p) == xs <==> forall k :: 0 <= k < |xs| ==> p(xs[k])
    decreases |xs|
  {
    if xs != [] {
      FilterKeepsAll(xs[1..], p);
      assert |Filter(xs[1..], p)| <= |xs| - 1;
    }
  }

  /** Filtering keeps the multiplicity of every element that satisfies p
      and drops the others. */
  lemma {:induction false} FilterMultiset<T>(xs: seq<T>, p: T -> bool, x: T)
    ensures multiset(Filter(xs, p))[x] == if p(x) then multiset(xs)[x] else 0
    decreases |xs|
  {
    if xs != [] {
      FilterMultiset(xs[1..], p, x);
      assert xs == [xs[0]] + xs[1..];
    }
  }

  /** The number of elements that satisfy p: `filter(...).length`. */
  function Count<T>(xs: seq<T>, p: T -> bool): nat {
    |Filter(xs, p)|
  }

  /** When no element satisfies both p and q, and r holds of exactly those
      satisfying one of them, r counts what p and q count together. */
  lemma {:induction false} CountUnion<T>(xs: seq<T>, p: T -> bool, q: T -> bool, r: T -> bool)
    requires forall k :: 0 <= k < |xs| ==> !(p(xs[k]) && q(xs[k]))
    requires forall k :: 0 <= k < |xs| ==> (r(xs[k]) <==> p(xs[k]) || q(xs[k]))
    ensures Count(xs, r) == Count(xs, p) + Count(xs, q)
    decreases |xs|
  {
    if xs != [] {
      CountUnion(xs[1..], p, q, r);
    }
  }

  /** Every element satisfying p satisfies q as well: q counts at least as many. */
  lemma {:induction false} CountMonotone<T>(xs: seq<T>, p: T -> bool, q: T -> bool)
    requires forall k :: 0 <= k < |xs| && p(xs[k]) ==> q(xs[k])
    ensures Count(xs, p) <= Count(xs, q)
    decreases |xs|
  {
    if xs != [] {
      CountMonotone(xs[1..], p, q);
    }
  }

  /** Every element satisfies p: all are counted. */
  lemma CountAll<T>(xs: seq<T>, p: T -> bool)
    requires forall k :: 0 <= k < |xs| ==> p(xs[k])
    ensures Count(xs, p) == |xs|
  {
    FilterKeepsAll(xs, p);
  }

  /** Every earlier element stands in relation R to every later one. */
  predicate Pairwise<T>(xs: seq<T>, R: (T, T) -> bool) {
    forall i, j :: 0 <= i < j < |xs| ==> R(xs[i], xs[j])
  }

  /** Filtering keeps the order of what it keeps: a relation between every
      earlier and every later element survives it. */
  lemma {:induction false} FilterPairwise<T>(xs: seq<T>, p: T -> bool, R: (T, T) -> bool)
    requires Pairwise(xs, R)
    ensures Pairwise(Filter(xs, p), R)
    decreases |xs|
  {
    if xs != [] {
      FilterPairwise(xs[1..], p, R);
      var rest := Filter(xs[1..], p);
      if p(xs[0]) {
        var r := [xs[0]] + rest;
        forall i, j | 0 <= i < j < |r| ensures R(r[i], r[j]) {
          if i == 0 {
            var k :| 0 <= k < |xs[1..]| && xs[1..][k] == rest[j - 1];
            assert xs[k + 1] == rest[j - 1];
          }
        }
      }
    }
  }
}
