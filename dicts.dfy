/**
 * Python dictionaries keep insertion order, and the source iterates several of
 * them (registry metadata, `npm view` time data, declared dependencies).  A
 * dictionary is therefore a sequence of (key, value) entries.
 */
module Dicts {
  import opened Wrappers

  type Dict<K, V> = seq<(K, V)>

  predicate HasKey<K(==), V>(d: Dict<K, V>, k: K)
  {
    exists i :: 0 <= i < |d| && d[i].0 == k
  }

  /** No key occurs twice; every dictionary built by `Put` has this shape. */
  predicate DistinctKeys<K(==), V>(d: Dict<K, V>)
  {
    forall i, j :: 0 <= i < j < |d| ==> d[i].0 != d[j].0
  }

  /** `d.get(k)`: the value of the first entry with key `k`. */
  function Get<K(==), V>(d: Dict<K, V>, k: K): (r: Option<V>)
    ensures r.Some? <==> HasKey(d, k)
    ensures r.Some? ==> exists i :: 0 <= i < |d| && d[i] == (k, r.value)
  {
    if d == [] then None
    else if d[0].0 == k then Some(d[0].1)
    else Get(d[1..], k)
  }

  /** `d[k] = v`: an existing key keeps its position and takes the new value, a new key is appended. */
  function Put<K(==), V>(d: Dict<K, V>, k: K, v: V): (r: Dict<K, V>)
  {
    if d == [] then [(k, v)]
    else if d[0].0 == k then [(k, v)] + d[1..]
    else [d[0]] + Put(d[1..], k, v)
  }

  lemma {:induction false} PutGet<K, V>(d: Dict<K, V>, k: K, v: V, k': K)
    ensures Get(Put(d, k, v), k') == if k' == k then Some(v) else Get(d, k')
  {
    if d != [] && d[0].0 != k {
      PutGet(d[1..], k, v, k');
    }
  }

  lemma HasKeyCons<K, V>(e: (K, V), t: Dict<K, V>, k: K)
    ensures HasKey([e] + t, k) <==> e.0 == k || HasKey(t, k)
  {
    var d := [e] + t;
    assert d[0] == e;
    if HasKey(t, k) {
      var i :| 0 <= i < |t| && t[i].0 == k;
      assert d[i + 1].0 == k;
    }
    if HasKey(d, k) && e.0 != k {
      var i :| 0 <= i < |d| && d[i].0 == k;
      assert t[i - 1].0 == k;
    }
  }

  lemma {:induction false} PutKeepsDistinct<K, V>(d: Dict<K, V>, k: K, v: V)
    requires DistinctKeys(d)
    ensures DistinctKeys(Put(d, k, v))
    ensures |Put(d, k, v)| == if HasKey(d, k) then |d| else |d| + 1
    ensures forall k' :: HasKey(Put(d, k, v), k') <==> k' == k || HasKey(d, k')
  {
    if d == [] {
      forall k' ensures HasKey([(k, v)], k') <==> k' == k {
        HasKeyCons((k, v), [], k');
      }
    } else {
      var t := d[1..];
      assert d == [d[0]] + t;
      forall k' ensures HasKey(d, k') <==> d[0].0 == k' || HasKey(t, k') {
        HasKeyCons(d[0], t, k');
      }
      if d[0].0 == k {
        var r := [(k, v)] + t;
        forall k' ensures HasKey(r, k') <==> k' == k || HasKey(d, k') {
          HasKeyCons((k, v), t, k');
        }
      } else {
        assert DistinctKeys(t);
        PutKeepsDistinct(t, k, v);
        var pt := Put(t, k, v);
        var r := [d[0]] + pt;
        forall k' ensures HasKey(r, k') <==> k' == k || HasKey(d, k') {
          HasKeyCons(d[0], pt, k');
        }
        forall m | 0 <= m < |t| ensures t[m].0 != d[0].0 {
          assert t[m] == d[m + 1];
        }
        forall i, j | 0 <= i < j < |r| ensures r[i].0 != r[j].0 {
          if i == 0 {
            assert r[j] == pt[j - 1];
            assert HasKey(pt, r[j].0);
          } else {
            assert r[i] == pt[i - 1] && r[j] == pt[j - 1];
          }
        }
      }
    }
  }

  /** `{k: v for k, v in pairs}`: later pairs overwrite earlier ones, a key keeps its first position. */
  function FromPairs<K(==, !new), V>(ps: seq<(K, V)>): (r: Dict<K, V>)
    ensures DistinctKeys(r)
  {
    if ps == [] then []
    else
      var d := FromPairs(ps[..|ps| - 1]);
      PutKeepsDistinct(d, ps[|ps| - 1].0, ps[|ps| - 1].1);
      Put(d, ps[|ps| - 1].0, ps[|ps| - 1].1)
  }

  /** A key is present iff some pair carries it. */
  lemma {:induction false} FromPairsHasKey<K(!new), V>(ps: seq<(K, V)>, k: K)
    ensures HasKey(FromPairs(ps), k) <==> exists i :: 0 <= i < |ps| && ps[i].0 == k
  {
    if exists i :: 0 <= i < |ps| && ps[i].0 == k {
      var i :| 0 <= i < |ps| && ps[i].0 == k;
      var j := LastWith(ps, k, i);
      FromPairsLast(ps, k, j);
    } else {
      FromPairsAbsent(ps, k);
    }
  }

  /** The last position at or after `j` whose pair carries `k`. */
  lemma LastWith<K, V>(ps: seq<(K, V)>, k: K, j: int) returns (l: int)
    requires 0 <= j < |ps| && ps[j].0 == k
    ensures j <= l < |ps| && ps[l].0 == k && forall i :: l < i < |ps| ==> ps[i].0 != k
    decreases |ps| - j
  {
    if exists i :: j < i < |ps| && ps[i].0 == k {
      var i :| j < i < |ps| && ps[i].0 == k;
      l := LastWith(ps, k, i);
    } else {
      l := j;
    }
  }

  /** The value for a key is that of its LAST pair. */
  lemma {:induction false} FromPairsLast<K(!new), V>(ps: seq<(K, V)>, k: K, j: int)
    requires 0 <= j < |ps| && ps[j].0 == k
    requires forall i :: j < i < |ps| ==> ps[i].0 != k
    ensures Get(FromPairs(ps), k) == Some(ps[j].1)
  {
    var n := |ps| - 1;
    PutGet(FromPairs(ps[..n]), ps[n].0, ps[n].1, k);
    if j < n {
      FromPairsLast(ps[..n], k, j);
    }
  }

  /** A key no pair carries is absent. */
  lemma {:induction false} FromPairsAbsent<K(!new), V>(ps: seq<(K, V)>, k: K)
    requires forall i :: 0 <= i < |ps| ==> ps[i].0 != k
    ensures Get(FromPairs(ps), k) == None
  {
    if ps != [] {
      var n := |ps| - 1;
      PutGet(FromPairs(ps[..n]), ps[n].0, ps[n].1, k);
      FromPairsAbsent(ps[..n], k);
    }
  }
}
