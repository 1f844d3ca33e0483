/** Sequence combinators and the fact that they commute with reordering. */
module Seqs {

  /** `s.map(f)`. */
  function Map<A, B>(f: A -> B, s: seq<A>): (r: seq<B>)
    ensures |r| == |s|
    ensures forall i :: 0 <= i < |s| ==> r[i] == f(s[i])
  {
    seq(|s|, i requires 0 <= i < |s| => f(s[i]))
  }

  /** Concatenation of `f(x)` for every `x` of `s`, left to right. */
  function FlatMap<A, B>(f: A -> seq<B>, s: seq<A>): seq<B>
  {
    if s == [] then [] else f(s[0]) + FlatMap(f, s[1..])
  }

  lemma MapAppend<A, B>(f: A -> B, u: seq<A>, v: seq<A>)
    ensures Map(f, u + v) == Map(f, u) + Map(f, v)
  {
    assert forall i :: 0 <= i < |u + v| ==> Map(f, u + v)[i] == (Map(f, u) + Map(f, v))[i];
  }

  lemma {:induction false} FlatMapAppend<A, B>(f: A -> seq<B>, u: seq<A>, v: seq<A>)
    ensures FlatMap(f, u + v) == FlatMap(f, u) + FlatMap(f, v)
  {
    if u == [] {
      assert u + v == v;
    } else {
      assert (u + v)[1..] == u[1..] + v;
      FlatMapAppend(f, u[1..], v);
    }
  }

  /** Finds an occurrence of `x` in `b` and says what is left once it is removed. */
  lemma Locate<A>(x: A, b: seq<A>) returns (k: nat)
    requires x in multiset(b)
    ensures k < |b| && b[k] == x
    ensures b == b[..k] + [x] + b[k+1..]
    ensures multiset(b[..k] + b[k+1..]) == multiset(b) - multiset{x}
  {
    assert x in b;
    k :| 0 <= k < |b| && b[k] == x;
    assert b == b[..k] + [x] + b[k+1..];
  }

  /** Mapping two orderings of the same elements gives two orderings of the same images. */
  lemma {:induction false} MapPermutation<A, B>(f: A -> B, a: seq<A>, b: seq<A>)
    requires multiset(a) == multiset(b)
    ensures multiset(Map(f, a)) == multiset(Map(f, b))
  {
    if a == [] {
      assert |b| == |multiset(b)| == 0;
    } else {
      var x := a[0];
      assert a == [x] + a[1..];
      assert x in multiset(b);
      var k := Locate(x, b);
      var rest := b[..k] + b[k+1..];
      assert multiset(a[1..]) == multiset(rest);
      MapPermutation(f, a[1..], rest);
      MapAppend(f, [x], a[1..]);
      MapAppend(f, b[..k], b[k+1..]);
      MapAppend(f, b[..k] + [x], b[k+1..]);
      MapAppend(f, b[..k], [x]);
    }
  }

  /** Removing the `k`-th group removes exactly its elements from the flattening. */
  lemma FlatMapRemove<A, B>(f: A -> seq<B>, b: seq<A>, k: nat)
    requires k < |b|
    ensures multiset(FlatMap(f, b)) == multiset(f(b[k])) + multiset(FlatMap(f, b[..k] + b[k+1..]))
  {
    var front, back := FlatMap(f, b[..k]), FlatMap(f, b[k+1..]);
    FlatMapAppend(f, b[..k], b[k+1..]);
    assert ([b[k]] + b[k+1..])[1..] == b[k+1..];
    assert FlatMap(f, [b[k]] + b[k+1..]) == f(b[k]) + back;
    FlatMapAppend(f, b[..k], [b[k]] + b[k+1..]);
    assert b[..k] + ([b[k]] + b[k+1..]) == b;
  }

  /** Flattening two orderings of the same groups gives two orderings of the same elements. */
  lemma {:induction false} FlatMapPermutation<A, B>(f: A -> seq<B>, a: seq<A>, b: seq<A>)
    requires multiset(a) == multiset(b)
    ensures multiset(FlatMap(f, a)) == multiset(FlatMap(f, b))
  {
    if a == [] {
      assert |b| == |multiset(b)| == 0;
    } else {
      var x := a[0];
      assert x in multiset(b);
      var k := Locate(x, b);
      var rest := b[..k] + b[k+1..];
      assert a == [x] + a[1..];
      assert multiset(a[1..]) == multiset(rest);
      FlatMapPermutation(f, a[1..], rest);
      FlatMapRemove(f, b, k);
    }
  }
}
