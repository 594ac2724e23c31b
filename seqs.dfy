/**
 * Generic facts about sequences and multisets, and the loops that build a
 * sequence one element at a time, used by the bulk-CSV driver.
 */
module Seqs {

  lemma TakeAll<T>(s: seq<T>)
    ensures s[..|s|] == s
  {
  }


  /** Appending keeps the earlier elements where they were. */
  lemma Snoc<T>(s: seq<T>, x: T)
    ensures |s + [x]| == |s| + 1 && (s + [x])[|s|] == x
    ensures forall m :: 0 <= m < |s| ==> (s + [x])[m] == s[m]
  {
  }

  lemma MultisetSnoc<T>(s: seq<T>)
    requires s != []
    ensures multiset(s) == multiset(s[..|s| - 1]) + multiset{s[|s| - 1]}
  {
    assert s == s[..|s| - 1] + [s[|s| - 1]];
  }

  lemma MultisetCancel<T>(a: multiset<T>, b: multiset<T>, c: multiset<T>)
    requires a + b == c + b
    ensures a == c
  {
    forall x ensures a[x] == c[x] {
      assert (a + b)[x] == (c + b)[x];
    }
  }


  /** The first components of a sequence of pairs. */
  function Firsts<A, B>(s: seq<(A, B)>): (r: seq<A>)
    ensures |r| == |s| && forall k :: 0 <= k < |s| ==> r[k] == s[k].0
  {
    seq(|s|, k requires 0 <= k < |s| => s[k].0)
  }

  /** The second components of a sequence of pairs. */
  function Seconds<A, B>(s: seq<(A, B)>): (r: seq<B>)
    ensures |r| == |s| && forall k :: 0 <= k < |s| ==> r[k] == s[k].1
  {
    seq(|s|, k requires 0 <= k < |s| => s[k].1)
  }

  /** `f` applied to every element. */
  function MapSeq<A, B>(f: A -> B, xs: seq<A>): (r: seq<B>)
    ensures |r| == |xs| && forall i :: 0 <= i < |xs| ==> r[i] == f(xs[i])
  {
    seq(|xs|, i requires 0 <= i < |xs| => f(xs[i]))
  }

  lemma MapSeqAppend<A, B>(f: A -> B, xs: seq<A>, ys: seq<A>)
    ensures MapSeq(f, xs + ys) == MapSeq(f, xs) + MapSeq(f, ys)
  {
  }

  /** Mapping rearranged elements gives the rearranged images. */
  lemma {:induction false} MapSeqMultiset<A, B>(f: A -> B, xs: seq<A>, ys: seq<A>)
    requires multiset(xs) == multiset(ys)
    ensures multiset(MapSeq(f, xs)) == multiset(MapSeq(f, ys))
    decreases |xs|
  {
    if xs != [] {
      var x := xs[0];
      assert x in multiset(ys);
      var k :| 0 <= k < |ys| && ys[k] == x;
      var xs', ys' := xs[1..], ys[..k] + ys[k + 1..];
      RemoveBoth(xs, ys, k);
      MapSeqMultiset(f, xs', ys');
      MapSeqDrop(f, xs, 0);
      MapSeqDrop(f, ys, k);
      AddBack(multiset(MapSeq(f, xs)), multiset(MapSeq(f, ys)), f(x));
    }
  }

  lemma RemoveBoth<T>(xs: seq<T>, ys: seq<T>, k: int)
    requires multiset(xs) == multiset(ys) && 0 <= k < |ys| && xs != [] && ys[k] == xs[0]
    ensures multiset(xs[1..]) == multiset(ys[..k] + ys[k + 1..])
  {
    RemoveAt(ys, k);
    DropFirst(xs);
  }

  lemma DropFirst<T>(xs: seq<T>)
    requires xs != []
    ensures multiset(xs[1..]) == multiset(xs) - multiset{xs[0]}
  {
    assert xs == [xs[0]] + xs[1..];
  }

  /** Dropping the element at `k` drops one occurrence of its image. */
  lemma MapSeqDrop<A, B>(f: A -> B, xs: seq<A>, k: int)
    requires 0 <= k < |xs|
    ensures f(xs[k]) in multiset(MapSeq(f, xs))
    ensures multiset(MapSeq(f, xs[..k] + xs[k + 1..])) == multiset(MapSeq(f, xs)) - multiset{f(xs[k])}
    ensures k == 0 ==> multiset(MapSeq(f, xs[1..])) == multiset(MapSeq(f, xs)) - multiset{f(xs[0])}
  {
    var m := MapSeq(f, xs);
    assert xs[..0] + xs[1..] == xs[1..];
    assert MapSeq(f, xs[..k] + xs[k + 1..]) == m[..k] + m[k + 1..];
    assert m[k] == f(xs[k]);
    RemoveAt(m, k);
  }

  lemma AddBack<T>(a: multiset<T>, b: multiset<T>, x: T)
    requires x in a && x in b && a - multiset{x} == b - multiset{x}
    ensures a == b
  {
    forall z ensures a[z] == b[z] {
      assert (a - multiset{x})[z] == (b - multiset{x})[z];
    }
  }

  /** Removing the element at `k` removes one occurrence of it. */
  lemma RemoveAt<T>(ys: seq<T>, k: int)
    requires 0 <= k < |ys|
    ensures multiset(ys[..k] + ys[k + 1..]) == multiset(ys) - multiset{ys[k]}
  {
    assert ys == ys[..k] + [ys[k]] + ys[k + 1..];
    var a, b := multiset(ys[..k]), multiset(ys[k + 1..]);
    assert multiset(ys) == a + multiset{ys[k]} + b;
    forall z ensures (a + b)[z] == (multiset(ys) - multiset{ys[k]})[z] {
    }
  }

  /** `f` applied to every element, the results concatenated. */
  function ConcatMap<A, B>(f: A -> seq<B>, xs: seq<A>): seq<B>
  {
    if xs == [] then [] else f(xs[0]) + ConcatMap(f, xs[1..])
  }

  lemma ConcatMapAt<A, B>(f: A -> seq<B>, xs: seq<A>, i: int)
    requires 0 <= i < |xs|
    ensures ConcatMap(f, xs[i..]) == f(xs[i]) + ConcatMap(f, xs[i + 1..])
  {
    assert xs[i..][1..] == xs[i + 1..];
  }

  lemma ConcatMapStep<A, B>(f: A -> seq<B>, xs: seq<A>, i: int, acc: seq<B>)
    requires 0 <= i < |xs|
    ensures acc + ConcatMap(f, xs[i..]) == (acc + f(xs[i])) + ConcatMap(f, xs[i + 1..])
  {
    ConcatMapAt(f, xs, i);
  }

  /** `f` applied to every element together with its position. */
  function MapIndexed<A, B>(f: (A, nat) -> B, xs: seq<A>): (r: seq<B>)
    ensures |r| == |xs| && forall k :: 0 <= k < |xs| ==> r[k] == f(xs[k], k)
  {
    seq(|xs|, k requires 0 <= k < |xs| => f(xs[k], k))
  }

  /** A `for` loop appending `f(x)` for every `x` of `xs`. */
  method MapLoop<A, B>(f: A -> B, xs: seq<A>) returns (r: seq<B>)
    ensures r == MapSeq(f, xs)
  {
    r := [];
    for i := 0 to |xs|
      invariant |r| == i
      invariant forall m :: 0 <= m < i ==> r[m] == f(xs[m])
    {
      Snoc(r, f(xs[i]));
      r := r + [f(xs[i])];
    }
  }

  /** A `for` loop appending `f(x, i)` for the `i`-th element `x` of `xs`. */
  method MapIndexedLoop<A, B>(f: (A, nat) -> B, xs: seq<A>) returns (r: seq<B>)
    ensures r == MapIndexed(f, xs)
  {
    r := [];
    for i := 0 to |xs|
      invariant |r| == i
      invariant forall m :: 0 <= m < i ==> r[m] == f(xs[m], m)
    {
      Snoc(r, f(xs[i], i));
      r := r + [f(xs[i], i)];
    }
  }
}
