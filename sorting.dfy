/**
 * Python's `sorted(xs, key=...)` and `list.sort(key=...)`: a stable sort.  It is
 * modelled as insertion sort, which places each element after every element
 * already placed whose key is not greater, so equal keys keep their input order.
 */
module Sorting {

  /** `le(a, b)`: the key of `a` is not greater than the key of `b`. */
  ghost predicate TotalPreorder<T(!new)>(le: (T, T) -> bool)
  {
    && (forall a, b :: le(a, b) || le(b, a))
    && (forall a, b, c :: le(a, b) && le(b, c) ==> le(a, c))
  }

  ghost predicate Sorted<T>(s: seq<T>, le: (T, T) -> bool)
  {
    forall i, j :: 0 <= i < j < |s| ==> le(s[i], s[j])
  }

  function Insert<T>(x: T, s: seq<T>, le: (T, T) -> bool): (r: seq<T>)
    ensures multiset(r) == multiset(s) + multiset{x}
    ensures |r| == |s| + 1
  {
    if s == [] then [x]
    else if le(s[0], x) then
      assert s == [s[0]] + s[1..];
      [s[0]] + Insert(x, s[1..], le)
    else [x] + s
  }

  /** `sorted(s, key=k)` where `le` compares keys. */
  function Sort<T>(s: seq<T>, le: (T, T) -> bool): (r: seq<T>)
    ensures multiset(r) == multiset(s)
    ensures |r| == |s|
  {
    if s == [] then []
    else
      assert s == s[..|s| - 1] + [s[|s| - 1]];
      Insert(s[|s| - 1], Sort(s[..|s| - 1], le), le)
  }

  lemma SortedPrepend<T>(h: T, t: seq<T>, le: (T, T) -> bool)
    requires Sorted(t, le)
    requires forall k :: 0 <= k < |t| ==> le(h, t[k])
    ensures Sorted([h] + t, le)
  {
    var r := [h] + t;
    forall i, j | 0 <= i < j < |r| ensures le(r[i], r[j]) {
      assert r[j] == t[j - 1];
      if i > 0 { assert r[i] == t[i - 1]; }
    }
  }

  lemma SortedAppend<T>(t: seq<T>, x: T, le: (T, T) -> bool)
    requires Sorted(t, le)
    requires forall k :: 0 <= k < |t| ==> le(t[k], x)
    ensures Sorted(t + [x], le)
  {
    var r := t + [x];
    forall i, j | 0 <= i < j < |r| ensures le(r[i], r[j]) {
      assert r[i] == t[i];
    }
  }

  lemma {:induction false} InsertSorted<T(!new)>(x: T, s: seq<T>, le: (T, T) -> bool)
    requires TotalPreorder(le)
    requires Sorted(s, le)
    ensures Sorted(Insert(x, s, le), le)
  {
    if s == [] {
    } else if le(s[0], x) {
      var t := s[1..];
      assert Sorted(t, le);
      InsertSorted(x, t, le);
      var it := Insert(x, t, le);
      forall k | 0 <= k < |it| ensures le(s[0], it[k]) {
        assert it[k] in multiset(it);
        if it[k] != x {
          assert it[k] in multiset(t);
          var m :| 0 <= m < |t| && t[m] == it[k];
          assert s[m + 1] == it[k];
        }
      }
      SortedPrepend(s[0], it, le);
    } else {
      assert le(x, s[0]);
      forall k | 0 <= k < |s| ensures le(x, s[k]) {
        if k > 0 {
          assert le(s[0], s[k]);
        }
      }
      SortedPrepend(x, s, le);
    }
  }

  lemma {:induction false} SortSorted<T(!new)>(s: seq<T>, le: (T, T) -> bool)
    requires TotalPreorder(le)
    ensures Sorted(Sort(s, le), le)
  {
    if s != [] {
      SortSorted(s[..|s| - 1], le);
      InsertSorted(s[|s| - 1], Sort(s[..|s| - 1], le), le);
    }
  }

  /** Element `i` is not greater than any other, and no earlier element is as small. */
  ghost predicate FirstLeast<T>(s: seq<T>, le: (T, T) -> bool, i: int)
  {
    && 0 <= i < |s|
    && (forall j :: 0 <= j < |s| ==> le(s[i], s[j]))
    && (forall j :: 0 <= j < i ==> !le(s[j], s[i]))
  }

  /** Element `i` is not less than any other, and no later element is as great. */
  ghost predicate LastGreatest<T>(s: seq<T>, le: (T, T) -> bool, i: int)
  {
    && 0 <= i < |s|
    && (forall j :: 0 <= j < |s| ==> le(s[j], s[i]))
    && (forall j :: i < j < |s| ==> !le(s[i], s[j]))
  }

  /**
   * The head of a stable sort is the FIRST element that is not greater than
   * any other: with `le` comparing keys in reverse, `sort(..., reverse=True)[0]`
   * is the first element of greatest key.
   */
  lemma {:induction false} SortHead<T(!new)>(s: seq<T>, le: (T, T) -> bool)
    requires TotalPreorder(le) && s != []
    ensures exists i :: FirstLeast(s, le, i) && Sort(s, le)[0] == s[i]
  {
    var i := SortHeadIndex(s, le);
  }

  lemma {:induction false} SortHeadIndex<T(!new)>(s: seq<T>, le: (T, T) -> bool) returns (i: nat)
    requires TotalPreorder(le) && s != []
    ensures i < |s| && Sort(s, le)[0] == s[i]
    ensures forall j :: 0 <= j < |s| ==> le(s[i], s[j])
    ensures forall j :: 0 <= j < i ==> !le(s[j], s[i])
  {
    var p := s[..|s| - 1];
    var x := s[|s| - 1];
    assert s == p + [x];
    if p == [] {
      i := 0;
    } else {
      var k := SortHeadIndex(p, le);
      var t := Sort(p, le);
      assert Sort(s, le) == Insert(x, t, le);
      i := LeastExtend(s, k, le);
    }
  }

  /** The first least of `s` given the first least `k` of all but its last element. */
  lemma LeastExtend<T(!new)>(s: seq<T>, k: nat, le: (T, T) -> bool) returns (i: nat)
    requires TotalPreorder(le) && k < |s| - 1
    requires forall j :: 0 <= j < |s| - 1 ==> le(s[k], s[j])
    requires forall j :: 0 <= j < k ==> !le(s[j], s[k])
    ensures i == if le(s[k], s[|s| - 1]) then k else |s| - 1
    ensures forall j :: 0 <= j < |s| ==> le(s[i], s[j])
    ensures forall j :: 0 <= j < i ==> !le(s[j], s[i])
  {
    if le(s[k], s[|s| - 1]) {
      i := k;
    } else {
      i := |s| - 1;
      forall j | 0 <= j < |s| - 1 ensures !le(s[j], s[i]) {
        assert le(s[k], s[j]);
      }
    }
  }

  /** The last element of inserting `x` into a sorted `t`. */
  lemma {:induction false} InsertLast<T(!new)>(x: T, t: seq<T>, le: (T, T) -> bool)
    requires TotalPreorder(le) && Sorted(t, le) && t != []
    ensures var r := Insert(x, t, le);
      r[|r| - 1] == if le(t[|t| - 1], x) then x else t[|t| - 1]
  {
    assert |t| == 1 || le(t[0], t[|t| - 1]);
    if le(t[0], x) && |t| > 1 {
      assert Sorted(t[1..], le);
      InsertLast(x, t[1..], le);
    }
  }

  /**
   * The last element of a stable sort is the LAST element that is not smaller
   * than any other: `sorted(...)[-1]` is the last element of greatest key.
   */
  lemma {:induction false} SortLast<T(!new)>(s: seq<T>, le: (T, T) -> bool)
    requires TotalPreorder(le) && s != []
    ensures exists i :: LastGreatest(s, le, i) && Sort(s, le)[|s| - 1] == s[i]
  {
    var i := SortLastIndex(s, le);
  }

  lemma {:induction false} SortLastIndex<T(!new)>(s: seq<T>, le: (T, T) -> bool) returns (i: nat)
    requires TotalPreorder(le) && s != []
    ensures i < |s| && Sort(s, le)[|s| - 1] == s[i]
    ensures forall j :: 0 <= j < |s| ==> le(s[j], s[i])
    ensures forall j :: i < j < |s| ==> !le(s[i], s[j])
  {
    var p := s[..|s| - 1];
    var x := s[|s| - 1];
    assert s == p + [x];
    if p == [] {
      i := 0;
    } else {
      var k := SortLastIndex(p, le);
      var t := Sort(p, le);
      SortSorted(p, le);
      InsertLast(x, t, le);
      assert Sort(s, le) == Insert(x, t, le);
      i := GreatestExtend(s, k, le);
    }
  }

  /** The last greatest of `s` given the last greatest `k` of all but its last element. */
  lemma GreatestExtend<T(!new)>(s: seq<T>, k: nat, le: (T, T) -> bool) returns (i: nat)
    requires TotalPreorder(le) && k < |s| - 1
    requires forall j :: 0 <= j < |s| - 1 ==> le(s[j], s[k])
    requires forall j :: k < j < |s| - 1 ==> !le(s[k], s[j])
    ensures i == if le(s[k], s[|s| - 1]) then |s| - 1 else k
    ensures forall j :: 0 <= j < |s| ==> le(s[j], s[i])
    ensures forall j :: i < j < |s| ==> !le(s[i], s[j])
  {
    if le(s[k], s[|s| - 1]) {
      i := |s| - 1;
    } else {
      i := k;
    }
  }

  /** Sorting what is already sorted changes nothing: the sort is stable. */
  lemma {:induction false} SortOfSorted<T(!new)>(s: seq<T>, le: (T, T) -> bool)
    requires TotalPreorder(le) && Sorted(s, le)
    ensures Sort(s, le) == s
  {
    if s != [] {
      var p := s[..|s| - 1];
      var x := s[|s| - 1];
      assert Sorted(p, le);
      SortOfSorted(p, le);
      InsertAtEnd(x, p, le);
      assert s == p + [x];
    }
  }

  lemma {:induction false} InsertAtEnd<T>(x: T, t: seq<T>, le: (T, T) -> bool)
    requires forall k :: 0 <= k < |t| ==> le(t[k], x)
    ensures Insert(x, t, le) == t + [x]
  {
    if t != [] {
      InsertAtEnd(x, t[1..], le);
      assert t == [t[0]] + t[1..];
    }
  }

  /** No two distinct elements of `s` compare equal under `le`. */
  ghost predicate Antisymmetric<T>(s: seq<T>, le: (T, T) -> bool)
  {
    forall i, j :: 0 <= i < |s| && 0 <= j < |s| && le(s[i], s[j]) && le(s[j], s[i]) ==> s[i] == s[j]
  }

  /**
   * A sorted arrangement is unique when no two distinct elements compare equal:
   * whatever order the elements arrive in, sorting yields the same sequence.
   */
  lemma {:induction false} SortedUnique<T>(a: seq<T>, b: seq<T>, le: (T, T) -> bool)
    requires Sorted(a, le) && Sorted(b, le)
    requires multiset(a) == multiset(b)
    requires Antisymmetric(a, le)
    ensures a == b
  {
    assert |a| == |b| by {
      assert |a| == |multiset(a)| && |b| == |multiset(b)|;
    }
    if a != [] {
      SameFirst(a, b, le);
      TailsAgree(a, b, le);
      AntisymmetricTail(a, le);
      SortedUnique(a[1..], b[1..], le);
      assert a == [a[0]] + a[1..] && b == [b[0]] + b[1..];
    }
  }

  /** Dropping an equal first element keeps the hypotheses of `SortedUnique`. */
  lemma TailsAgree<T>(a: seq<T>, b: seq<T>, le: (T, T) -> bool)
    requires a != [] && b != [] && a[0] == b[0]
    requires Sorted(a, le) && Sorted(b, le)
    requires multiset(a) == multiset(b)
    ensures Sorted(a[1..], le) && Sorted(b[1..], le)
    ensures multiset(a[1..]) == multiset(b[1..])
  {
    SortedTail(a, le);
    SortedTail(b, le);
  }

  /** The tail of a sorted sequence is sorted and holds all but its first element. */
  lemma SortedTail<T>(a: seq<T>, le: (T, T) -> bool)
    requires a != [] && Sorted(a, le)
    ensures Sorted(a[1..], le)
    ensures multiset(a[1..]) == multiset(a) - multiset{a[0]}
  {
    assert a == [a[0]] + a[1..];
  }

  lemma AntisymmetricTail<T>(a: seq<T>, le: (T, T) -> bool)
    requires a != [] && Antisymmetric(a, le)
    ensures Antisymmetric(a[1..], le)
  {
    var t := a[1..];
    forall i, j | 0 <= i < |t| && 0 <= j < |t| && le(t[i], t[j]) && le(t[j], t[i]) ensures t[i] == t[j] {
      assert t[i] == a[i + 1] && t[j] == a[j + 1];
    }
  }

  lemma SameFirst<T>(a: seq<T>, b: seq<T>, le: (T, T) -> bool)
    requires a != [] && |a| == |b|
    requires Sorted(a, le) && Sorted(b, le)
    requires multiset(a) == multiset(b)
    requires Antisymmetric(a, le)
    ensures a[0] == b[0]
  {
    assert b[0] in multiset(a) && a[0] in multiset(b);
    var i :| 0 <= i < |a| && a[i] == b[0];
    var j :| 0 <= j < |b| && b[j] == a[0];
    if i != 0 && j != 0 {
      assert le(a[0], a[i]) && le(b[0], b[j]);
      assert le(a[i], a[0]);
    }
  }

  lemma NonEmptyHasElement(s: set<int>)
    requires s != {}
    ensures exists x :: x in s
  {
    if forall x :: x !in s {
      assert false;
    }
  }

  /** A least element of a non-empty finite set of instants exists. */
  lemma {:induction false} HasLeast(s: set<int>)
    requires s != {}
    ensures exists m :: m in s && forall y :: y in s ==> m <= y
    decreases |s|
  {
    NonEmptyHasElement(s);
    var x :| x in s;
    var rest := s - {x};
    if rest == {} {
      forall y | y in s ensures x <= y {
        assert y in rest || y == x;
      }
    } else {
      HasLeast(rest);
      var m :| m in rest && forall y :: y in rest ==> m <= y;
      var least := if x < m then x else m;
      forall y | y in s ensures least <= y {
        if y != x { assert y in rest; }
      }
      assert least in s;
    }
  }

  function Least(s: set<int>): (m: int)
    requires s != {}
    ensures m in s && forall y :: y in s ==> m <= y
  {
    HasLeast(s);
    var m :| m in s && forall y :: y in s ==> m <= y;
    m
  }

  ghost predicate StrictlyIncreasing(s: seq<int>)
  {
    forall i, j :: 0 <= i < j < |s| ==> s[i] < s[j]
  }

  /** `sorted(s)` for a set of instants: the elements in increasing order. */
  function SortedElems(s: set<int>): (r: seq<int>)
    ensures |r| == |s|
    ensures forall x :: x in r <==> x in s
    ensures StrictlyIncreasing(r)
    decreases |s|
  {
    if s == {} then []
    else
      var m := Least(s);
      var t := SortedElems(s - {m});
      assert forall i :: 0 <= i < |t| ==> m < t[i] by {
        forall i | 0 <= i < |t| ensures m < t[i] {
          assert t[i] in s - {m};
        }
      }
      [m] + t
  }

  /** The strictly increasing sequence holding exactly the elements of `s` is `SortedElems(s)`. */
  lemma {:induction false} SortedElemsUnique(s: set<int>, q: seq<int>)
    requires StrictlyIncreasing(q)
    requires forall x :: x in q <==> x in s
    ensures q == SortedElems(s)
    decreases |s|
  {
    if s == {} {
      MemberOfNonEmpty(q, s);
    } else {
      var m := Least(s);
      FirstIsLeast(s, q);
      TailIsRest(s, q);
      IncreasingTail(q);
      SortedElemsUnique(s - {m}, q[1..]);
      SortedElemsUnfold(s);
      assert q == [q[0]] + q[1..];
    }
  }

  lemma IncreasingTail(q: seq<int>)
    requires q != [] && StrictlyIncreasing(q)
    ensures StrictlyIncreasing(q[1..])
  {
  }

  lemma SortedElemsUnfold(s: set<int>)
    requires s != {}
    ensures SortedElems(s) == [Least(s)] + SortedElems(s - {Least(s)})
  {
  }

  /** Without its first element, an increasing listing of `s` lists `s` without its least element. */
  lemma TailIsRest(s: set<int>, q: seq<int>)
    requires q != [] && StrictlyIncreasing(q) && s != {} && q[0] == Least(s)
    requires forall x :: x in q <==> x in s
    ensures forall x :: x in q[1..] <==> x in s - {Least(s)}
  {
    forall x ensures x in q[1..] <==> x in s - {Least(s)} {
      TailMember(q, x);
    }
  }

  lemma MemberOfNonEmpty(q: seq<int>, s: set<int>)
    requires forall x :: x in q ==> x in s
    ensures q != [] ==> q[0] in s
  {
    if q != [] {
      var y := q[0];
      assert y in q;
    }
  }

  lemma FirstIsLeast(s: set<int>, q: seq<int>)
    requires s != {}
    requires StrictlyIncreasing(q)
    requires forall x :: x in q <==> x in s
    ensures q != [] && q[0] == Least(s)
    ensures StrictlyIncreasing(q[1..])
  {
    var m := Least(s);
    assert m in q;
    var k :| 0 <= k < |q| && q[k] == m;
    assert q[0] in s;
    assert q[0] <= q[k];
  }

  lemma TailMember(q: seq<int>, x: int)
    requires q != [] && StrictlyIncreasing(q)
    ensures x in q[1..] <==> x in q && x != q[0]
  {
    if x in q[1..] {
      var i :| 0 <= i < |q| - 1 && q[1..][i] == x;
      assert q[i + 1] == x && q[0] < q[i + 1];
    }
    if x in q && x != q[0] {
      var i :| 0 <= i < |q| && q[i] == x;
      assert q[1..][i - 1] == x;
    }
  }
}
