/**
 * `time_utils.py`: timestamp parsing as an oracle and `build_intervals`, which
 * pairs consecutive elements of the sorted set `dates ∪ {start, end}`.
 */
module TimeUtils {
  import opened Wrappers
  import opened Sorting

  /**
   * `parse_timestamp`: an empty string is no timestamp; any other string goes
   * to the ISO 8601 parser `parse` (None: the parser raised ValueError).
   */
  function ParseTimestamp(parse: string -> Option<int>, value: string): (r: Option<int>)
    ensures value == "" ==> r == None
    ensures value != "" ==> r == parse(value)
  {
    if value == "" then None else parse(value)
  }

  /** Consecutive pairs of `q`: `zip(q[:-1], q[1:])`. */
  function Pairs(q: seq<int>): (r: seq<(int, int)>)
    ensures |r| == if |q| == 0 then 0 else |q| - 1
    ensures forall i :: 0 <= i < |r| ==> r[i] == (q[i], q[i + 1])
  {
    if |q| < 2 then [] else seq(|q| - 1, i requires 0 <= i < |q| - 1 => (q[i], q[i + 1]))
  }

  /** The instants `build_intervals` sorts: `set(dates) | {start, end}`. */
  function Boundaries(dates: seq<int>, start: int, end: int): (b: set<int>)
    ensures forall x :: x in b <==> x in dates || x == start || x == end
  {
    set x | x in dates + [start, end]
  }

  predicate IsBoundary(r: seq<(int, int)>, x: int)
  {
    exists i :: 0 <= i < |r| && (r[i].0 == x || r[i].1 == x)
  }

  /**
   * `build_intervals(dates, start, end)`: the intervals are strictly increasing,
   * contiguous, and one fewer than the distinct boundaries.
   */
  function BuildIntervals(dates: seq<int>, start: int, end: int): (r: seq<(int, int)>)
    ensures |r| == |Boundaries(dates, start, end)| - 1
    ensures forall i :: 0 <= i < |r| ==> r[i].0 < r[i].1
    ensures forall i :: 0 <= i < |r| - 1 ==> r[i].1 == r[i + 1].0
  {
    var q := SortedElems(Boundaries(dates, start, end));
    assert start in q;
    PairsChain(q);
    Pairs(q)
  }

  lemma PairsChain(q: seq<int>)
    requires StrictlyIncreasing(q)
    ensures forall i :: 0 <= i < |Pairs(q)| ==> Pairs(q)[i].0 < Pairs(q)[i].1
    ensures forall i :: 0 <= i < |Pairs(q)| - 1 ==> Pairs(q)[i].1 == Pairs(q)[i + 1].0
  {
    var r := Pairs(q);
    forall i | 0 <= i < |r| ensures r[i].0 < r[i].1 {
      assert r[i] == (q[i], q[i + 1]);
    }
    forall i | 0 <= i < |r| - 1 ensures r[i].1 == r[i + 1].0 {
      assert r[i] == (q[i], q[i + 1]) && r[i + 1] == (q[i + 1], q[i + 2]);
    }
  }

  /** An instant is an endpoint of some pair of `q` iff it is an element of `q`. */
  lemma PairsEndpoints(q: seq<int>, x: int)
    requires |q| >= 2
    ensures IsBoundary(Pairs(q), x) <==> x in q
  {
    var r := Pairs(q);
    if x in q {
      var k :| 0 <= k < |q| && q[k] == x;
      if k < |r| {
        assert r[k].0 == x;
      } else {
        assert r[k - 1].1 == x;
      }
    }
    if IsBoundary(r, x) {
      var i :| 0 <= i < |r| && (r[i].0 == x || r[i].1 == x);
      assert r[i] == (q[i], q[i + 1]);
    }
  }

  /** The endpoints of the intervals are exactly `dates ∪ {start, end}` (when there is an interval). */
  lemma BoundariesOfIntervals(dates: seq<int>, start: int, end: int, x: int)
    requires BuildIntervals(dates, start, end) != []
    ensures IsBoundary(BuildIntervals(dates, start, end), x) <==> x in Boundaries(dates, start, end)
  {
    var q := SortedElems(Boundaries(dates, start, end));
    assert BuildIntervals(dates, start, end) == Pairs(q);
    PairsEndpoints(q, x);
  }

  /** No interval when `start == end` and every date is that instant; otherwise at least one. */
  lemma EmptyIntervals(dates: seq<int>, start: int, end: int)
    ensures BuildIntervals(dates, start, end) == [] <==>
      start == end && forall i :: 0 <= i < |dates| ==> dates[i] == start
  {
    var b := Boundaries(dates, start, end);
    if start == end && forall i :: 0 <= i < |dates| ==> dates[i] == start {
      assert b == {start};
    } else if start != end {
      assert {start, end} <= b;
      assert |{start, end}| == 2;
      SubsetCardinality({start, end}, b);
    } else {
      var i :| 0 <= i < |dates| && dates[i] != start;
      assert {start, dates[i]} <= b;
      assert |{start, dates[i]}| == 2;
      SubsetCardinality({start, dates[i]}, b);
    }
  }

  lemma SubsetCardinality(a: set<int>, b: set<int>)
    requires a <= b
    ensures |a| <= |b|
  {
    assert b == a + (b - a);
  }

  /**
   * The result depends only on the set of dates: the order of `dates` and any
   * repeated instant make no difference.
   */
  lemma IntervalsIgnoreOrderAndDuplicates(d1: seq<int>, d2: seq<int>, start: int, end: int)
    requires forall x :: x in d1 <==> x in d2
    ensures BuildIntervals(d1, start, end) == BuildIntervals(d2, start, end)
  {
    assert Boundaries(d1, start, end) == Boundaries(d2, start, end);
  }

  /**
   * The intervals are the pairs of ANY strictly increasing listing of
   * `dates ∪ {start, end}`: sorting the set is the only way to build them.
   */
  lemma IntervalsAreCanonical(dates: seq<int>, start: int, end: int, q: seq<int>)
    requires StrictlyIncreasing(q)
    requires forall x :: x in q <==> x in dates || x == start || x == end
    ensures BuildIntervals(dates, start, end) == Pairs(q)
  {
    SortedElemsUnique(Boundaries(dates, start, end), q);
  }

  /** The first and last elements of an increasing listing of a set are its least and greatest. */
  lemma FirstAndLast(q: seq<int>, b: set<int>, lo: int, hi: int)
    requires StrictlyIncreasing(q)
    requires forall x :: x in q <==> x in b
    requires lo in b && hi in b
    requires forall x :: x in b ==> lo <= x <= hi
    ensures q != [] && q[0] == lo && q[|q| - 1] == hi
  {
    assert lo in q && hi in q;
    var s :| 0 <= s < |q| && q[s] == lo;
    var e :| 0 <= e < |q| && q[e] == hi;
    assert q[0] in b && q[|q| - 1] in b;
    assert q[0] <= q[s] && q[e] <= q[|q| - 1];
  }

  /** With every date in `[start, end]`, the first interval starts at `start` and the last ends at `end`. */
  lemma IntervalsSpanWindow(dates: seq<int>, start: int, end: int)
    requires start <= end
    requires forall i :: 0 <= i < |dates| ==> start <= dates[i] <= end
    ensures var r := BuildIntervals(dates, start, end);
      r != [] ==> r[0].0 == start && r[|r| - 1].1 == end
  {
    var b := Boundaries(dates, start, end);
    var q := SortedElems(b);
    var r := BuildIntervals(dates, start, end);
    assert r == Pairs(q);
    forall x | x in b ensures start <= x <= end {
      if x in dates {
        var i :| 0 <= i < |dates| && dates[i] == x;
      }
    }
    FirstAndLast(q, b, start, end);
    if r != [] {
      assert r[0] == (q[0], q[1]);
      assert r[|r| - 1] == (q[|q| - 2], q[|q| - 1]);
    }
  }

  /**
   * The intervals cover the window `[start, end]`: none iff `start == end`;
   * otherwise contiguous, from `start` to `end`, each inside the window.
   */
  ghost predicate CoversWindow(r: seq<(int, int)>, start: int, end: int)
  {
    && (r == [] <==> start == end)
    && (start <= end && r != [] ==> r[0].0 == start && r[|r| - 1].1 == end)
    && (forall i :: 0 <= i < |r| - 1 ==> r[i].1 == r[i + 1].0)
    && (start <= end ==> forall i :: 0 <= i < |r| ==> start <= r[i].0 < r[i].1 <= end)
  }

  /** With every date in `[start, end]`, the intervals cover that window. */
  lemma WindowedIntervals(dates: seq<int>, start: int, end: int)
    requires forall i :: 0 <= i < |dates| ==> start <= dates[i] <= end
    ensures CoversWindow(BuildIntervals(dates, start, end), start, end)
  {
    EmptyIntervals(dates, start, end);
    if start <= end {
      IntervalsSpanWindow(dates, start, end);
      IntervalsWithinWindow(dates, start, end);
    }
  }

  /** With every date in `[start, end]`, every interval lies inside `[start, end]`. */
  lemma IntervalsWithinWindow(dates: seq<int>, start: int, end: int)
    requires start <= end
    requires forall i :: 0 <= i < |dates| ==> start <= dates[i] <= end
    ensures var r := BuildIntervals(dates, start, end);
      forall i :: 0 <= i < |r| ==> start <= r[i].0 < r[i].1 <= end
  {
    var r := BuildIntervals(dates, start, end);
    forall i | 0 <= i < |r| ensures start <= r[i].0 < r[i].1 <= end {
      BoundaryInWindow(dates, start, end, r[i].0);
      BoundaryInWindow(dates, start, end, r[i].1);
      assert IsBoundary(r, r[i].0) && IsBoundary(r, r[i].1);
    }
  }

  lemma BoundaryInWindow(dates: seq<int>, start: int, end: int, x: int)
    requires start <= end
    requires forall i :: 0 <= i < |dates| ==> start <= dates[i] <= end
    requires IsBoundary(BuildIntervals(dates, start, end), x)
    ensures start <= x <= end
  {
    BoundariesOfIntervals(dates, start, end, x);
    if x in dates {
      var i :| 0 <= i < |dates| && dates[i] == x;
    }
  }

  /**
   * The repeated-date shape: a later date listed first and an earlier date
   * listed twice still give three sorted, de-duplicated intervals.
   */
  lemma UniqueSortedDates(start: int, early: int, late: int, end: int)
    requires start < early < late < end
    ensures BuildIntervals([late, early, early], start, end) == [(start, early), (early, late), (late, end)]
  {
    var dates := [late, early, early];
    var q := [start, early, late, end];
    assert StrictlyIncreasing(q);
    assert forall x :: x in q <==> x in dates || x == start || x == end by {
      assert forall x :: x in dates <==> x == late || x == early;
    }
    IntervalsAreCanonical(dates, start, end, q);
    var r := Pairs(q);
    assert |r| == 3 && r[0] == (q[0], q[1]) && r[1] == (q[1], q[2]) && r[2] == (q[2], q[3]);
  }

  /** Dates are not clipped: a date before `start` becomes the first boundary. */
  lemma IntervalsAreNotClipped(d: int, start: int, end: int)
    requires d < start < end
    ensures BuildIntervals([d], start, end) == [(d, start), (start, end)]
  {
    var q := [d, start, end];
    assert StrictlyIncreasing(q);
    IntervalsAreCanonical([d], start, end, q);
    var r := Pairs(q);
    assert |r| == 2 && r[0] == (d, start) && r[1] == (start, end);
  }
}
