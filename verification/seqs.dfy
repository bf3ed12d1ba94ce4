/**
 * Sequences built by nested `for` loops that append: `FlatMap(xs, f)` is what
 * `for x in xs: patterns += f(x)` leaves behind. The lemmas give its length,
 * where each block lands, what it contains and when it repeats nothing.
 */
module Seqs {

  function FlatMap<A, B>(xs: seq<A>, f: A -> seq<B>): seq<B>
  {
    if xs == [] then [] else f(xs[0]) + FlatMap(xs[1..], f)
  }

  /** Python's list comprehension `[f(x) for x in xs]`. */
  function Map<A, B>(xs: seq<A>, f: A -> B): (r: seq<B>)
    ensures |r| == |xs|
    ensures forall i :: 0 <= i < |xs| ==> r[i] == f(xs[i])
  {
    seq(|xs|, i requires 0 <= i < |xs| => f(xs[i]))
  }

  /** The image of a member is a member of the image. */
  lemma MapMember<A, B>(xs: seq<A>, f: A -> B, x: A)
    requires x in xs
    ensures f(x) in Map(xs, f)
  {
    var i :| 0 <= i < |xs| && xs[i] == x;
    assert Map(xs, f)[i] == f(x);
  }

  /** No element occurs twice. */
  predicate Distinct<T(==)>(xs: seq<T>)
  {
    forall i, j :: 0 <= i < j < |xs| ==> xs[i] != xs[j]
  }

  /** No element of `u` occurs in `v`. */
  predicate Disjoint<T(==)>(u: seq<T>, v: seq<T>)
  {
    forall p, q :: 0 <= p < |u| && 0 <= q < |v| ==> u[p] != v[q]
  }

  lemma DistinctConcat<T>(u: seq<T>, v: seq<T>)
    requires Distinct(u) && Distinct(v) && Disjoint(u, v)
    ensures Distinct(u + v)
  {
    forall i, j | 0 <= i < j < |u + v|
      ensures (u + v)[i] != (u + v)[j]
    {
      if j < |u| {
      } else if i >= |u| {
        assert (u + v)[i] == v[i - |u|] && (u + v)[j] == v[j - |u|];
      } else {
        assert (u + v)[j] == v[j - |u|];
      }
    }
  }

  /** When every block has `k` elements, there are `|xs| * k` in all. */
  lemma {:induction false} FlatMapLength<A, B>(xs: seq<A>, f: A -> seq<B>, k: nat)
    requires forall x :: |f(x)| == k
    ensures |FlatMap(xs, f)| == |xs| * k
  {
    if xs != [] {
      FlatMapLength(xs[1..], f, k);
    }
  }

  lemma MulPred(a: nat, k: nat)
    requires a > 0
    ensures a * k == (a - 1) * k + k
  {
  }

  /** The `j`-th element of the block built from `xs[a]` sits at `a * k + j`. */
  lemma {:induction false} FlatMapIndex<A, B>(xs: seq<A>, f: A -> seq<B>, k: nat, a: nat, j: nat)
    requires forall x :: |f(x)| == k
    requires a < |xs| && j < k
    ensures a * k + j < |FlatMap(xs, f)|
    ensures FlatMap(xs, f)[a * k + j] == f(xs[a])[j]
  {
    var rest := FlatMap(xs[1..], f);
    assert FlatMap(xs, f) == f(xs[0]) + rest;
    if a > 0 {
      FlatMapIndex(xs[1..], f, k, a - 1, j);
      MulPred(a, k);
      assert xs[1..][a - 1] == xs[a];
    }
  }

  /** An element is in the flattened sequence exactly when it is in one of the blocks. */
  lemma {:induction false} FlatMapMember<A, B>(xs: seq<A>, f: A -> seq<B>, y: B)
    ensures y in FlatMap(xs, f) <==> exists i :: 0 <= i < |xs| && y in f(xs[i])
  {
    if xs != [] {
      FlatMapMember(xs[1..], f, y);
      if i :| 1 <= i < |xs| && y in f(xs[i]) {
        assert xs[1..][i - 1] == xs[i];
      }
      if i :| 0 <= i < |xs[1..]| && y in f(xs[1..][i]) {
        assert xs[1..][i] == xs[i + 1];
      }
    }
  }

  /** When only the block built from `key` can hold `y`, `y` is in the
      flattened sequence exactly when `key` is in `xs` and its block holds `y`. */
  lemma FlatMapMemberKey<A, B>(xs: seq<A>, f: A -> seq<B>, y: B, key: A)
    requires forall x :: y in f(x) ==> x == key
    ensures y in FlatMap(xs, f) <==> key in xs && y in f(key)
  {
    FlatMapMember(xs, f, y);
    if key in xs && y in f(key) {
      var i :| 0 <= i < |xs| && xs[i] == key;
    }
  }

  /** Blocks that repeat nothing and share nothing flatten to a sequence that repeats nothing. */
  lemma {:induction false} FlatMapDistinct<A, B>(xs: seq<A>, f: A -> seq<B>)
    requires forall i :: 0 <= i < |xs| ==> Distinct(f(xs[i]))
    requires forall i, j :: 0 <= i < j < |xs| ==> Disjoint(f(xs[i]), f(xs[j]))
    ensures Distinct(FlatMap(xs, f))
  {
    if xs != [] {
      var rest := FlatMap(xs[1..], f);
      forall i, j | 0 <= i < j < |xs[1..]|
        ensures Disjoint(f(xs[1..][i]), f(xs[1..][j]))
      {
        assert xs[1..][i] == xs[i + 1] && xs[1..][j] == xs[j + 1];
      }
      forall i | 0 <= i < |xs[1..]|
        ensures Distinct(f(xs[1..][i]))
      {
        assert xs[1..][i] == xs[i + 1];
      }
      FlatMapDistinct(xs[1..], f);
      forall p, q | 0 <= p < |f(xs[0])| && 0 <= q < |rest|
        ensures f(xs[0])[p] != rest[q]
      {
        FlatMapMember(xs[1..], f, rest[q]);
        var i :| 0 <= i < |xs[1..]| && rest[q] in f(xs[1..][i]);
        assert xs[1..][i] == xs[i + 1];
        assert Disjoint(f(xs[0]), f(xs[i + 1]));
      }
      DistinctConcat(f(xs[0]), rest);
    }
  }
}
