/**
 * The release-history loops shared by `resolvers.py` and `analyzer.py`: each
 * walks a registry dict in order, keeps the versions whose release instant is
 * known and in range, then sorts them (`sorted`/`list.sort`, a stable sort).
 */
module Selection {
  import opened Wrappers
  import opened Dicts
  import opened Models
  import opened Versions
  import opened Sorting
  import opened TimeUtils
  import opened Seqs

  /** A release history in dict order: each version with its parsed release instant (None: missing, empty or unparsable). */
  type ReleaseView = seq<(string, Option<int>)>

  /** `npm view <pkg> time --json` data: each version with `parse_timestamp(timestamp)`. */
  function TimeDataView(time: Dict<string, string>, parseTs: string -> Option<int>): (r: ReleaseView)
    ensures |r| == |time|
    ensures forall i :: 0 <= i < |r| ==> r[i].0 == time[i].0 && r[i].1 == ParseTimestamp(parseTs, time[i].1)
  {
    seq(|time|, i requires 0 <= i < |time| => (time[i].0, ParseTimestamp(parseTs, time[i].1)))
  }

  /** An npm `versions` entry's `dist.published`; a falsy value is skipped. */
  function PublishedInstant(d: NpmVersionData, parseTs: string -> Option<int>): Option<int>
  {
    if d.published.Some? && d.published.value != "" then ParseTimestamp(parseTs, d.published.value) else None
  }

  /** A PyPI release's first-file `upload_time`; no files or a falsy value is skipped. */
  function UploadInstant(files: seq<ReleaseFile>, parseTs: string -> Option<int>): Option<int>
  {
    if files != [] && files[0].uploadTime.Some? && files[0].uploadTime.value != ""
    then ParseTimestamp(parseTs, files[0].uploadTime.value)
    else None
  }

  /** npm metadata `versions`, each with its published instant. */
  function VersionsView(meta: Metadata, parseTs: string -> Option<int>): (r: ReleaseView)
    ensures |r| == |meta.versions|
    ensures forall i :: 0 <= i < |r| ==> r[i] == (meta.versions[i].0, PublishedInstant(meta.versions[i].1, parseTs))
  {
    seq(|meta.versions|, i requires 0 <= i < |meta.versions| =>
      (meta.versions[i].0, PublishedInstant(meta.versions[i].1, parseTs)))
  }

  /** PyPI metadata `releases`, each with its upload instant. */
  function ReleasesView(meta: Metadata, parseTs: string -> Option<int>): (r: ReleaseView)
    ensures |r| == |meta.releases|
    ensures forall i :: 0 <= i < |r| ==> r[i] == (meta.releases[i].0, UploadInstant(meta.releases[i].1, parseTs))
  {
    seq(|meta.releases|, i requires 0 <= i < |meta.releases| =>
      (meta.releases[i].0, UploadInstant(meta.releases[i].1, parseTs)))
  }

  // ---------------------------------------------------------------------------
  // get_all_versions_with_dates: the versions released in [start, end], by date
  // ---------------------------------------------------------------------------

  /** The entries with a known instant in `[start, end]`, in dict order. */
  function InWindow(view: ReleaseView, name: string, start: int, end: int): (r: seq<PackageVersion>)
    ensures forall k :: 0 <= k < |r| ==> r[k].name == name && start <= r[k].releasedAt <= end
  {
    if view == [] then []
    else
      var e := view[|view| - 1];
      var rest := InWindow(view[..|view| - 1], name, start, end);
      if e.1.Some? && start <= e.1.value <= end then rest + [PackageVersion(name, e.0, e.1.value)] else rest
  }

  function ReleasedLe(a: PackageVersion, b: PackageVersion): bool
  {
    a.releasedAt <= b.releasedAt
  }

  lemma ReleasedLeTotal()
    ensures TotalPreorder(ReleasedLe)
  {
  }

  /** `sorted(version_dates, key=lambda x: x.released_at)`: ascending by date, the same versions. */
  function WindowVersions(view: ReleaseView, name: string, start: int, end: int): (r: seq<PackageVersion>)
    ensures Sorted(r, ReleasedLe)
    ensures multiset(r) == multiset(InWindow(view, name, start, end))
    ensures forall k :: 0 <= k < |r| ==> r[k].name == name && start <= r[k].releasedAt <= end
  {
    var w := InWindow(view, name, start, end);
    ReleasedLeTotal();
    SortSorted(w, ReleasedLe);
    var r := Sort(w, ReleasedLe);
    assert forall k :: 0 <= k < |r| ==> r[k] in w by {
      forall k | 0 <= k < |r| ensures r[k] in w {
        assert r[k] in multiset(r);
      }
    }
    r
  }

  /** A version is listed iff the history has it with a known instant inside the window. */
  lemma {:induction false} InWindowMembers(view: ReleaseView, name: string, start: int, end: int, pv: PackageVersion)
    ensures pv in InWindow(view, name, start, end) <==>
      pv.name == name && start <= pv.releasedAt <= end && (pv.version, Some(pv.releasedAt)) in view
  {
    if view != [] {
      var p := view[..|view| - 1];
      InWindowMembers(p, name, start, end, pv);
      assert view == p + [view[|view| - 1]];
    }
  }

  /** The collecting loop, then the sort. */
  method CollectWindow(view: ReleaseView, name: string, start: int, end: int) returns (r: seq<PackageVersion>)
    ensures r == WindowVersions(view, name, start, end)
  {
    var versionDates: seq<PackageVersion> := [];
    var i := 0;
    while i < |view|
      invariant 0 <= i <= |view|
      invariant versionDates == InWindow(view[..i], name, start, end)
    {
      assert view[..i + 1][..i] == view[..i];
      var (ver, pubDate) := view[i];
      if pubDate.Some? && start <= pubDate.value <= end {
        versionDates := versionDates + [PackageVersion(name, ver, pubDate.value)];
      }
      i := i + 1;
    }
    assert view[..i] == view;
    r := Sort(versionDates, ReleasedLe);
  }

  // ---------------------------------------------------------------------------
  // The latest version by date at or before an instant
  // ---------------------------------------------------------------------------

  /** The entries with a known instant at or before `end`, in dict order. */
  function AtOrBefore(view: ReleaseView, end: int): (r: seq<(string, int)>)
    ensures forall k :: 0 <= k < |r| ==> r[k].1 <= end
  {
    if view == [] then []
    else
      var e := view[|view| - 1];
      var rest := AtOrBefore(view[..|view| - 1], end);
      if e.1.Some? && e.1.value <= end then rest + [(e.0, e.1.value)] else rest
  }

  /** A pair is a candidate iff the history has that version with that known instant, at or before `end`. */
  lemma {:induction false} AtOrBeforeMembers(view: ReleaseView, end: int, v: string, t: int)
    ensures (v, t) in AtOrBefore(view, end) <==> (v, Some(t)) in view && t <= end
  {
    if view != [] {
      var p := view[..|view| - 1];
      AtOrBeforeMembers(p, end, v, t);
      assert view == p + [view[|view| - 1]];
    }
  }

  /** Descending by date: the comparison `sort(key=date, reverse=True)` uses. */
  function DateGe(a: (string, int), b: (string, int)): bool
  {
    a.1 >= b.1
  }

  lemma DateGeTotal()
    ensures TotalPreorder(DateGe)
  {
  }

  /**
   * `valid_versions.sort(key=date, reverse=True)[0]`: None when no version
   * qualifies (the source raises ValueError); otherwise the FIRST candidate, in
   * dict order, of greatest release instant.
   */
  function Latest(view: ReleaseView, end: int): (r: Option<(string, int)>)
    ensures r.None? <==> AtOrBefore(view, end) == []
    ensures r.Some? ==> exists i :: FirstLeast(AtOrBefore(view, end), DateGe, i) && AtOrBefore(view, end)[i] == r.value
  {
    var valid := AtOrBefore(view, end);
    if valid == [] then None
    else
      DateGeTotal();
      SortHead(valid, DateGe);
      Some(Sort(valid, DateGe)[0])
  }

  /** The latest version's instant is at or before `end` and no candidate is later. */
  lemma LatestIsLatest(view: ReleaseView, end: int)
    requires Latest(view, end).Some?
    ensures var (v, t) := Latest(view, end).value;
      t <= end && (v, Some(t)) in view &&
      forall k :: 0 <= k < |view| && view[k].1.Some? && view[k].1.value <= end ==> view[k].1.value <= t
  {
    var valid := AtOrBefore(view, end);
    var (v, t) := Latest(view, end).value;
    var i :| FirstLeast(valid, DateGe, i) && valid[i] == (v, t);
    AtOrBeforeMembers(view, end, v, t);
    forall k | 0 <= k < |view| && view[k].1.Some? && view[k].1.value <= end
      ensures view[k].1.value <= t
    {
      AtOrBeforeMembers(view, end, view[k].0, view[k].1.value);
      NoneLater(valid, i, (view[k].0, view[k].1.value));
    }
  }

  /** The first greatest date of a listing is at least the date of every member. */
  lemma NoneLater(valid: seq<(string, int)>, i: int, x: (string, int))
    requires FirstLeast(valid, DateGe, i) && x in valid
    ensures x.1 <= valid[i].1
  {
    var j :| 0 <= j < |valid| && valid[j] == x;
    assert DateGe(valid[i], valid[j]);
  }

  /** The collecting loop, then the descending sort and its head. */
  method SelectLatest(view: ReleaseView, end: int) returns (r: Option<(string, int)>)
    ensures r == Latest(view, end)
  {
    var validVersions: seq<(string, int)> := [];
    var i := 0;
    while i < |view|
      invariant 0 <= i <= |view|
      invariant validVersions == AtOrBefore(view[..i], end)
    {
      assert view[..i + 1][..i] == view[..i];
      var (ver, pubDate) := view[i];
      if pubDate.Some? && pubDate.value <= end {
        validVersions := validVersions + [(ver, pubDate.value)];
      }
      i := i + 1;
    }
    assert view[..i] == view;
    if validVersions == [] {
      r := None;
    } else {
      var sorted := Sort(validVersions, DateGe);
      r := Some(sorted[0]);
    }
  }

  // ---------------------------------------------------------------------------
  // The highest version by version order
  // ---------------------------------------------------------------------------

  /**
   * The keys `list.sort(key=lambda v: parse(v))` computes, in list order: the
   * first string that does not parse raises InvalidVersion.
   */
  function ParseKeys<T>(cands: seq<T>, name: T -> string, parseVer: string -> Option<Version>): (r: Result<seq<(T, Version)>>)
    ensures r.Err? <==> exists i :: 0 <= i < |cands| && parseVer(name(cands[i])).None?
    ensures r.Ok? ==> (|r.value| == |cands| &&
      forall i :: 0 <= i < |cands| ==> r.value[i].0 == cands[i] && parseVer(name(cands[i])) == Some(r.value[i].1))
  {
    if cands == [] then Ok([])
    else
      match parseVer(name(cands[0]))
      case None => Err("Invalid version: '" + name(cands[0]) + "'")
      case Some(v) =>
        var rest := ParseKeys(cands[1..], name, parseVer);
        assert forall i :: 1 <= i < |cands| ==> cands[i] == cands[1..][i - 1];
        if rest.Err? then Err(rest.error) else Ok([(cands[0], v)] + rest.value)
  }

  function KeyLe<T>(a: (T, Version), b: (T, Version)): bool
  {
    Le(a.1, b.1)
  }

  lemma KeyLeTotal<T(!new)>()
    ensures TotalPreorder(KeyLe<T>)
  {
    LeIsTotalOrder();
  }

  /** `i` is the last candidate of greatest version, every candidate parsing. */
  ghost predicate LastHighest<T>(cands: seq<T>, name: T -> string, parseVer: string -> Option<Version>, i: int)
  {
    && 0 <= i < |cands|
    && (forall j :: 0 <= j < |cands| ==> parseVer(name(cands[j])).Some?)
    && (forall j :: 0 <= j < |cands| ==> Le(parseVer(name(cands[j])).value, parseVer(name(cands[i])).value))
    && (forall j :: i < j < |cands| ==> Lt(parseVer(name(cands[j])).value, parseVer(name(cands[i])).value))
  }

  /**
   * `cands.sort(key=parse); cands[-1]`: an error when some candidate does not
   * parse, None when there is no candidate, otherwise the LAST candidate of
   * greatest version (the sort is stable).
   */
  function HighestOf<T(!new)>(cands: seq<T>, name: T -> string, parseVer: string -> Option<Version>): (r: Result<Option<T>>)
    ensures r.Err? <==> exists i :: 0 <= i < |cands| && parseVer(name(cands[i])).None?
    ensures r == Ok(None) <==> cands == []
    ensures r.Ok? && r.value.Some? ==> exists i :: LastHighest(cands, name, parseVer, i) && cands[i] == r.value.value
  {
    if cands == [] then Ok(None)
    else
      match ParseKeys(cands, name, parseVer)
      case Err(e) => Err(e)
      case Ok(keyed) =>
        var top := Sort(keyed, KeyLe<T>)[|keyed| - 1];
        assert exists i :: LastHighest(cands, name, parseVer, i) && cands[i] == top.0 by {
          KeyLeTotal<T>();
          SortLast(keyed, KeyLe<T>);
          var i :| LastGreatest(keyed, KeyLe<T>, i) && Sort(keyed, KeyLe<T>)[|keyed| - 1] == keyed[i];
          KeyedLastHighest(cands, name, parseVer, keyed, i);
        }
        Ok(Some(top.0))
  }

  lemma KeyedLastHighest<T>(cands: seq<T>, name: T -> string, parseVer: string -> Option<Version>, keyed: seq<(T, Version)>, i: int)
    requires |keyed| == |cands|
    requires forall j :: 0 <= j < |cands| ==> keyed[j].0 == cands[j] && parseVer(name(cands[j])) == Some(keyed[j].1)
    requires LastGreatest(keyed, KeyLe<T>, i)
    ensures LastHighest(cands, name, parseVer, i) && cands[i] == keyed[i].0
  {
    LeIsTotalOrder();
    forall j | 0 <= j < |cands| ensures Le(parseVer(name(cands[j])).value, parseVer(name(cands[i])).value) {
      assert KeyLe(keyed[j], keyed[i]);
    }
    forall j | i < j < |cands| ensures Lt(parseVer(name(cands[j])).value, parseVer(name(cands[i])).value) {
      assert !KeyLe(keyed[i], keyed[j]);
    }
  }

  function Id(s: string): string
  {
    s
  }

  /** `get_highest_semver_version_at_date` on one release history. */
  function Highest(view: ReleaseView, at: int, parseVer: string -> Option<Version>): (r: Result<Option<string>>)
  {
    HighestOf(Firsts(AtOrBefore(view, at)), Id, parseVer)
  }

  /** The collecting loop: the names of the versions released at or before `at`, in dict order. */
  method CollectAtOrBefore(view: ReleaseView, at: int) returns (names: seq<string>)
    ensures names == Firsts(AtOrBefore(view, at))
  {
    names := [];
    var i := 0;
    while i < |view|
      invariant 0 <= i <= |view|
      invariant names == Firsts(AtOrBefore(view[..i], at))
    {
      assert view[..i + 1][..i] == view[..i];
      var (ver, pubDate) := view[i];
      if pubDate.Some? && pubDate.value <= at {
        names := names + [ver];
      }
      i := i + 1;
    }
    assert view[..i] == view;
  }

  /** `cands.sort(key=lambda x: parse(name(x))); cands[-1]`, when the list is non-empty. */
  method ChooseHighest<T(!new)>(cands: seq<T>, name: T -> string, parseVer: string -> Option<Version>) returns (r: Result<Option<T>>)
    ensures r == HighestOf(cands, name, parseVer)
  {
    if cands == [] {
      r := Ok(None);
    } else {
      var keyed := ParseKeys(cands, name, parseVer);
      if keyed.Err? {
        r := Err(keyed.error);
      } else {
        var sorted := Sort(keyed.value, KeyLe<T>);
        r := Ok(Some(sorted[|sorted| - 1].0));
      }
    }
  }

  /** The collecting loop, then the keyed sort and its last element. */
  method SelectHighest(view: ReleaseView, at: int, parseVer: string -> Option<Version>) returns (r: Result<Option<string>>)
    ensures r == Highest(view, at, parseVer)
  {
    var validVersions := CollectAtOrBefore(view, at);
    r := ChooseHighest(validVersions, Id, parseVer);
  }
}
