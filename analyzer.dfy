/**
 * `analyzer.py`: the `DependencyAnalyzer`.  For one package it walks every
 * declared dependency, cuts the analysis window into intervals at the release
 * instants of the package and the dependency, records per interval whether the
 * dependency was at its highest version (updated) and free of a known,
 * already-fixed vulnerability (remediated), and turns the intervals into TTU
 * and TTR in days.  Registry calls and `npm view` runs go through a `Registry`
 * of oracles; `math.exp`/`math.log` through the `decay` oracle.
 */
module Analyzer {
  import opened Wrappers
  import opened Dicts
  import opened Text
  import opened Models
  import opened Versions
  import opened Sorting
  import opened TimeUtils
  import opened Selection
  import opened OsvBuilder
  import opened OsvService
  import opened Resolvers
  import opened Seqs

  /**
   * The analyzer's settings: the ecosystem already lower-cased (as the
   * constructor does), the window as instants, the weighting type and the
   * optional half-life in days.
   */
  datatype Config = Config(
    ecosystem: string,
    package: string,
    startDate: int,
    endDate: int,
    weighting: string,
    halfLife: Option<real>)

  /** One row of the frame `analyze_dependency` returns: the parent version and the interval record. */
  datatype IntervalRow = IntervalRow(packageVersion: string, rec: DependencyIntervalRecord)

  /** What `analyze` reports; a metric is None when pandas would divide by a zero weight sum (NaN or an infinity). */
  datatype Summary = Summary(package: string, version: string, ttu: Option<real>, ttr: Option<real>, numDependencies: nat)

  // ---------------------------------------------------------------------------
  // get_all_versions_with_dates
  // ---------------------------------------------------------------------------

  /** The history the metadata fallback walks: npm `versions`, PyPI `releases`, nothing for another ecosystem. */
  function MetadataHistory(c: Config, meta: Metadata, parseTs: string -> Option<int>): (r: ReleaseView)
    ensures c.ecosystem != "npm" && c.ecosystem != "pypi" ==> r == []
  {
    if c.ecosystem == "npm" then VersionsView(meta, parseTs)
    else if c.ecosystem == "pypi" then ReleasesView(meta, parseTs)
    else []
  }

  /** The `npm view` time data the analyzer uses: npm, a non-empty name, and exit status 0. */
  function TimeOutputFor(c: Config, reg: Registry, packageName: Option<string>): (r: Option<Dict<string, string>>)
    ensures r.Some? ==> c.ecosystem == "npm" && NoTimeKeys(r.value)
  {
    if c.ecosystem == "npm" && packageName.Some? && packageName.value != "" then
      match reg.npmTime(packageName.value)
      case TimeOutput(d) => Some(StripTimeKeys(d))
      case _ => None
    else None
  }

  /** The versions released in `[start_date, end_date]`, ascending by release instant. */
  function VersionsWithDates(c: Config, reg: Registry, meta: Metadata, packageName: Option<string>): (r: seq<PackageVersion>)
    ensures Sorted(r, ReleasedLe)
    ensures forall k :: 0 <= k < |r| ==> c.startDate <= r[k].releasedAt <= c.endDate
  {
    var name := if packageName.Some? then packageName.value else c.package;
    match TimeOutputFor(c, reg, packageName)
    case Some(d) => WindowVersions(TimeDataView(d, reg.parseTs), name, c.startDate, c.endDate)
    case None => WindowVersions(MetadataHistory(c, meta, reg.parseTs), name, c.startDate, c.endDate)
  }

  method GetAllVersionsWithDates(c: Config, reg: Registry, meta: Metadata, packageName: Option<string>) returns (r: seq<PackageVersion>)
    ensures r == VersionsWithDates(c, reg, meta, packageName)
  {
    var name := if packageName.Some? then packageName.value else c.package;
    if c.ecosystem == "npm" && packageName.Some? && packageName.value != "" {
      var outcome := reg.npmTime(packageName.value);
      if outcome.TimeOutput? {
        var timeData := StripTimeKeys(outcome.data);
        r := CollectWindow(TimeDataView(timeData, reg.parseTs), name, c.startDate, c.endDate);
        return;
      }
    }
    r := CollectWindow(MetadataHistory(c, meta, reg.parseTs), name, c.startDate, c.endDate);
  }

  // ---------------------------------------------------------------------------
  // Resolution and highest version, as the analyzer does them
  // ---------------------------------------------------------------------------

  /**
   * `resolve_dependency_version`: npm through `npm view --before` (uncached;
   * an empty JSON list raises IndexError), PyPI through the constraint
   * resolver with every failure read as None, None for another ecosystem.
   */
  function ResolveAt(c: Config, reg: Registry, dependency: string, constraint: string, at: int): (r: Result<Option<string>>)
    ensures r.Err? <==> c.ecosystem == "npm" && reg.npmVersion(dependency, constraint, at) == VersionJsonList([])
    ensures c.ecosystem == "npm" ==> r == ResolveLoad(reg.npmVersion(dependency, constraint, at))
    ensures c.ecosystem == "pypi" ==> (r.Ok? && (r.value.Some? ==> reg.pypiResolve(dependency, constraint, at) == Ok(r.value)))
    ensures c.ecosystem == "pypi" && reg.pypiResolve(dependency, constraint, at).Ok? ==> r == reg.pypiResolve(dependency, constraint, at)
    ensures c.ecosystem == "pypi" && reg.pypiResolve(dependency, constraint, at).Err? ==> r == Ok(None)
    ensures c.ecosystem != "npm" && c.ecosystem != "pypi" ==> r == Ok(None)
  {
    if c.ecosystem == "npm" then ResolveLoad(reg.npmVersion(dependency, constraint, at))
    else if c.ecosystem == "pypi" then
      match reg.pypiResolve(dependency, constraint, at)
      case Ok(v) => Ok(v)
      case Err(_) => Ok(None)
    else Ok(None)
  }

  /** The versions `get_highest_semver_version_at_date` chooses among. */
  function HighestCandidates(c: Config, reg: Registry, dependency: string, depMeta: Metadata, at: int): seq<string>
  {
    if c.ecosystem == "npm" then NpmHighestCandidates(TimeLoad(reg.npmTime(dependency)), depMeta, at, reg.parseTs)
    else if c.ecosystem == "pypi" then Firsts(AtOrBefore(ReleasesView(depMeta, reg.parseTs), at))
    else []
  }

  /**
   * The analyzer's `get_highest_semver_version_at_date`: the last candidate of
   * greatest version, and None — not an error — when there is no candidate or
   * some candidate does not parse.
   */
  function HighestAt(c: Config, reg: Registry, dependency: string, depMeta: Metadata, at: int): (r: Option<string>)
    ensures var cands := HighestCandidates(c, reg, dependency, depMeta, at);
      r.None? <==> cands == [] || exists i :: 0 <= i < |cands| && reg.parseVer(cands[i]).None?
    ensures var cands := HighestCandidates(c, reg, dependency, depMeta, at);
      r.Some? ==> exists i :: LastHighest(cands, Id, reg.parseVer, i) && cands[i] == r.value
  {
    match HighestOf(HighestCandidates(c, reg, dependency, depMeta, at), Id, reg.parseVer)
    case Ok(v) => v
    case Err(_) => None
  }

  method GetHighestSemverVersionAtDate(c: Config, reg: Registry, dependency: string, depMeta: Metadata, at: int) returns (r: Option<string>)
    ensures r == HighestAt(c, reg, dependency, depMeta, at)
  {
    var validVersions: seq<string> := [];
    if c.ecosystem == "npm" {
      var td := TimeLoad(reg.npmTime(dependency));
      validVersions := CollectAtOrBefore(TimeDataView(TimeData(td), reg.parseTs), at);
      if validVersions == [] {
        validVersions := CollectAtOrBefore(VersionsView(depMeta, reg.parseTs), at);
      }
    } else if c.ecosystem == "pypi" {
      validVersions := CollectAtOrBefore(ReleasesView(depMeta, reg.parseTs), at);
    }
    var highest := ChooseHighest(validVersions, Id, reg.parseVer);
    r := if highest.Ok? then highest.value else None;
  }

  // ---------------------------------------------------------------------------
  // calculate_weight
  // ---------------------------------------------------------------------------

  /** `(b - a).days`: whole days, rounded down. */
  function DaysBetween(a: int, b: int): (r: int)
    ensures r * 86400 <= b - a < r * 86400 + 86400
  {
    (b - a) / 86400
  }

  /**
   * `calculate_weight`: 1.0 when disabled or for an unknown type; linear decay
   * to 0 over the window (1.0 for a window shorter than a day); exponential
   * decay with the given half-life (an error without one, or with 0); and
   * `1/(1+age)`, which fails only at age -1.
   */
  function CalculateWeight(c: Config, age: real, decay: (real, real) -> real): (r: Result<real>)
    ensures c.weighting == "disable" ==> r == Ok(1.0)
    ensures c.weighting !in {"disable", "linear", "exponential", "inverse"} ==> r == Ok(1.0)
    ensures c.weighting == "linear" ==> r.Ok?
    ensures c.weighting == "linear" && DaysBetween(c.startDate, c.endDate) <= 0 ==> r == Ok(1.0)
    ensures c.weighting == "linear" && DaysBetween(c.startDate, c.endDate) > 0 ==>
      r.value * (DaysBetween(c.startDate, c.endDate) as real) == DaysBetween(c.startDate, c.endDate) as real - age
    ensures c.weighting == "exponential" ==> (r.Err? <==> c.halfLife.None? || c.halfLife == Some(0.0))
    ensures c.weighting == "exponential" && r.Ok? ==> r.value == decay(c.halfLife.value, age)
    ensures c.weighting == "inverse" ==> (r.Err? <==> age == -1.0)
    ensures c.weighting == "inverse" && r.Ok? ==> r.value * (1.0 + age) == 1.0
  {
    if c.weighting == "disable" then Ok(1.0)
    else if c.weighting == "linear" then
      var maxAge := DaysBetween(c.startDate, c.endDate);
      if maxAge > 0 then Ok(1.0 - age / maxAge as real) else Ok(1.0)
    else if c.weighting == "exponential" then
      match c.halfLife
      case None => Err("Half-life required for exponential weighting")
      case Some(h) => if h == 0.0 then Err("float division by zero") else Ok(decay(h, age))
    else if c.weighting == "inverse" then
      if 1.0 + age == 0.0 then Err("float division by zero") else Ok(1.0 / (1.0 + age))
    else Ok(1.0)
  }

  /**
   * Linear and inverse weights lie in [0, 1] for ages inside the window and do
   * not grow with age: older intervals never weigh more.
   */
  lemma WeightsDecreaseWithAge(c: Config, a1: real, a2: real, decay: (real, real) -> real)
    requires c.weighting == "linear" || c.weighting == "inverse"
    requires 0.0 <= a1 <= a2
    requires c.weighting == "linear" ==> a2 <= DaysBetween(c.startDate, c.endDate) as real
    ensures CalculateWeight(c, a1, decay).Ok? && CalculateWeight(c, a2, decay).Ok?
    ensures 0.0 <= CalculateWeight(c, a2, decay).value <= CalculateWeight(c, a1, decay).value <= 1.0
  {
    if c.weighting == "linear" {
      var m := DaysBetween(c.startDate, c.endDate);
      if m > 0 {
        LinearWeightsDecrease(m as real, a1, a2);
      }
    } else {
      InverseMonotone(1.0 + a1, 1.0 + a2);
    }
  }

  lemma LinearWeightsDecrease(m: real, a1: real, a2: real)
    requires m > 0.0 && 0.0 <= a1 <= a2 <= m
    ensures 0.0 <= 1.0 - a2 / m <= 1.0 - a1 / m <= 1.0
  {
    DivMonotone(a1, a2, m);
    DivMonotone(a2, m, m);
    DivMonotone(0.0, a1, m);
    assert m / m == 1.0;
  }

  lemma DivMonotone(x: real, y: real, d: real)
    requires x <= y && d > 0.0
    ensures x / d <= y / d
  {
    assert y / d - x / d == (y - x) / d;
  }

  lemma InverseMonotone(x: real, y: real)
    requires 1.0 <= x <= y
    ensures 0.0 < 1.0 / y <= 1.0 / x <= 1.0
  {
    assert 1.0 / x - 1.0 / y == (y - x) / (x * y);
    assert (y - x) / (x * y) >= 0.0 by { DivMonotone(0.0, y - x, x * y); }
    assert 1.0 / x <= 1.0 / 1.0 by { InverseStep(x); }
  }

  lemma InverseStep(x: real)
    requires 1.0 <= x
    ensures 1.0 / x <= 1.0
  {
    assert 1.0 - 1.0 / x == (x - 1.0) / x;
    DivMonotone(0.0, x - 1.0, x);
  }

  // ---------------------------------------------------------------------------
  // analyze_dependency
  // ---------------------------------------------------------------------------

  /** The effective start: the window start, moved up to the first release of the parent and of the dependency. */
  function EffectiveStart(start: int, pkg: seq<PackageVersion>, dep: seq<PackageVersion>): (r: int)
    ensures start <= r
    ensures pkg != [] ==> pkg[0].releasedAt <= r
    ensures dep != [] ==> dep[0].releasedAt <= r
    ensures r == start || (pkg != [] && r == pkg[0].releasedAt) || (dep != [] && r == dep[0].releasedAt)
  {
    var a := if pkg != [] && pkg[0].releasedAt > start then pkg[0].releasedAt else start;
    if dep != [] && dep[0].releasedAt > a then dep[0].releasedAt else a
  }

  /** The release instants of `vs` inside `[lo, hi]`, in order. */
  function Clipped(vs: seq<PackageVersion>, lo: int, hi: int): (r: seq<int>)
    ensures forall k :: 0 <= k < |r| ==> lo <= r[k] <= hi
  {
    if vs == [] then []
    else
      var rest := Clipped(vs[..|vs| - 1], lo, hi);
      var d := vs[|vs| - 1].releasedAt;
      if lo <= d <= hi then rest + [d] else rest
  }

  /** An instant is kept iff some version was released then and it lies in `[lo, hi]`. */
  lemma {:induction false} ClippedMembers(vs: seq<PackageVersion>, lo: int, hi: int, x: int)
    ensures x in Clipped(vs, lo, hi) <==> lo <= x <= hi && exists k :: 0 <= k < |vs| && vs[k].releasedAt == x
  {
    if vs != [] {
      var p := vs[..|vs| - 1];
      ClippedMembers(p, lo, hi, x);
      assert forall k :: 0 <= k < |p| ==> p[k] == vs[k];
      if lo <= x <= hi && (exists k :: 0 <= k < |vs| && vs[k].releasedAt == x) {
        var k :| 0 <= k < |vs| && vs[k].releasedAt == x;
        if k < |p| {
          assert p[k].releasedAt == x;
        }
      }
    }
  }

  /** The intervals of one dependency: `sorted(all_dates)` paired up, `all_dates` being the clipped instants and both ends. */
  function DependencyIntervals(c: Config, pkg: seq<PackageVersion>, dep: seq<PackageVersion>): seq<(int, int)>
  {
    var eff := EffectiveStart(c.startDate, pkg, dep);
    BuildIntervals(Clipped(pkg, eff, c.endDate) + Clipped(dep, eff, c.endDate), eff, c.endDate)
  }

  /**
   * There is no interval iff the effective start is the end date; otherwise,
   * with the effective start not after the end, the intervals run contiguously
   * from the effective start to the end date, and every boundary lies between.
   */
  lemma DependencyIntervalsSpan(c: Config, pkg: seq<PackageVersion>, dep: seq<PackageVersion>)
    ensures CoversWindow(DependencyIntervals(c, pkg, dep), EffectiveStart(c.startDate, pkg, dep), c.endDate)
  {
    var eff := EffectiveStart(c.startDate, pkg, dep);
    var a, b := Clipped(pkg, eff, c.endDate), Clipped(dep, eff, c.endDate);
    InWindowAppend(a, b, eff, c.endDate);
    WindowedIntervals(a + b, eff, c.endDate);
  }

  lemma InWindowAppend(a: seq<int>, b: seq<int>, lo: int, hi: int)
    requires forall i :: 0 <= i < |a| ==> lo <= a[i] <= hi
    requires forall i :: 0 <= i < |b| ==> lo <= b[i] <= hi
    ensures forall i :: 0 <= i < |a + b| ==> lo <= (a + b)[i] <= hi
  {
    forall i | 0 <= i < |a + b| ensures lo <= (a + b)[i] <= hi {
      if i >= |a| {
        assert (a + b)[i] == b[i - |a|];
      }
    }
  }

  /** The constraint a parent version's `dependencies` declares for the dependency, if any. */
  function Declared(pkgMeta: Metadata, v: PackageVersion, dependency: string): Option<string>
  {
    Get(NpmEntry(pkgMeta, v.version).dependencies, dependency)
  }

  /** Every entry is a parent version of `pkg` with its release instant and its declared constraint. */
  ghost predicate InfoSound(pkgMeta: Metadata, pkg: seq<PackageVersion>, dependency: string, r: seq<(string, int, string)>)
  {
    forall k :: 0 <= k < |r| ==>
      exists j :: 0 <= j < |pkg| && r[k].0 == pkg[j].version && r[k].1 == pkg[j].releasedAt
        && Declared(pkgMeta, pkg[j], dependency) == Some(r[k].2)
  }

  /** Every parent version of `pkg` that declares a constraint has its entry. */
  ghost predicate InfoComplete(pkgMeta: Metadata, pkg: seq<PackageVersion>, dependency: string, r: seq<(string, int, string)>)
  {
    forall j :: 0 <= j < |pkg| && Declared(pkgMeta, pkg[j], dependency).Some? ==>
      (pkg[j].version, pkg[j].releasedAt, Declared(pkgMeta, pkg[j], dependency).value) in r
  }

  /** The npm parent versions whose `dependencies` name the dependency: version, release instant, constraint. */
  function NpmConstraintInfo(pkgMeta: Metadata, pkg: seq<PackageVersion>, dependency: string): (r: seq<(string, int, string)>)
    ensures |r| <= |pkg|
  {
    if pkg == [] then []
    else NpmConstraintInfo(pkgMeta, pkg[..|pkg| - 1], dependency) + VersionInfo(pkgMeta, pkg[|pkg| - 1], dependency)
  }

  /** Exactly the parent versions that declare a constraint for the dependency have an entry, and each entry is true to its version. */
  lemma {:induction false} NpmConstraintInfoExact(pkgMeta: Metadata, pkg: seq<PackageVersion>, dependency: string)
    ensures InfoSound(pkgMeta, pkg, dependency, NpmConstraintInfo(pkgMeta, pkg, dependency))
    ensures InfoComplete(pkgMeta, pkg, dependency, NpmConstraintInfo(pkgMeta, pkg, dependency))
  {
    if pkg != [] {
      var p := pkg[..|pkg| - 1];
      var rest := NpmConstraintInfo(pkgMeta, p, dependency);
      var v := pkg[|pkg| - 1];
      NpmConstraintInfoExact(pkgMeta, p, dependency);
      assert forall j :: 0 <= j < |p| ==> p[j] == pkg[j];
      assert InfoComplete(pkgMeta, pkg, dependency, rest + VersionInfo(pkgMeta, v, dependency)) by {
        forall j | 0 <= j < |pkg| && Declared(pkgMeta, pkg[j], dependency).Some?
          ensures (pkg[j].version, pkg[j].releasedAt, Declared(pkgMeta, pkg[j], dependency).value) in rest + VersionInfo(pkgMeta, v, dependency)
        {
          if j < |p| {
            assert p[j] == pkg[j];
          }
        }
      }
    }
  }

  /** The entry one parent version contributes: none unless it declares a constraint for the dependency. */
  function VersionInfo(pkgMeta: Metadata, v: PackageVersion, dependency: string): seq<(string, int, string)>
  {
    match Declared(pkgMeta, v, dependency)
    case Some(cst) => [(v.version, v.releasedAt, cst)]
    case None => []
  }

  /** The constraint list keeps the order of the history: it distributes over concatenation. */
  lemma {:induction false} NpmConstraintInfoAppend(pkgMeta: Metadata, a: seq<PackageVersion>, b: seq<PackageVersion>, dependency: string)
    ensures NpmConstraintInfo(pkgMeta, a + b, dependency) == NpmConstraintInfo(pkgMeta, a, dependency) + NpmConstraintInfo(pkgMeta, b, dependency)
    decreases |b|
  {
    if b == [] {
      assert a + b == a;
    } else {
      var front := b[..|b| - 1];
      var last := VersionInfo(pkgMeta, b[|b| - 1], dependency);
      assert (a + b)[..|a + b| - 1] == a + front;
      assert (a + b)[|a + b| - 1] == b[|b| - 1];
      assert NpmConstraintInfo(pkgMeta, a + b, dependency) == NpmConstraintInfo(pkgMeta, a + front, dependency) + last;
      NpmConstraintInfoAppend(pkgMeta, a, front, dependency);
      assert NpmConstraintInfo(pkgMeta, b, dependency) == NpmConstraintInfo(pkgMeta, front, dependency) + last;
    }
  }

  /** `pkg_version_info` before its sort: empty for PyPI, whose per-version constraints are never fetched. */
  function ConstraintInfo(c: Config, pkgMeta: Metadata, pkg: seq<PackageVersion>, dependency: string): (r: seq<(string, int, string)>)
    ensures c.ecosystem != "npm" ==> r == []
  {
    if c.ecosystem == "npm" then NpmConstraintInfo(pkgMeta, pkg, dependency) else []
  }

  function InfoLe(a: (string, int, string), b: (string, int, string)): bool
  {
    a.1 <= b.1
  }

  lemma InfoLeTotal()
    ensures TotalPreorder(InfoLe)
  {
  }

  /** Parent versions taken from a date-sorted history are already in date order. */
  lemma {:induction false} NpmConstraintInfoSorted(pkgMeta: Metadata, pkg: seq<PackageVersion>, dependency: string)
    requires Sorted(pkg, ReleasedLe)
    ensures Sorted(NpmConstraintInfo(pkgMeta, pkg, dependency), InfoLe)
  {
    if pkg != [] {
      var p := pkg[..|pkg| - 1];
      var rest := NpmConstraintInfo(pkgMeta, p, dependency);
      var v := pkg[|pkg| - 1];
      assert Sorted(p, ReleasedLe) by {
        forall i, j | 0 <= i < j < |p| ensures ReleasedLe(p[i], p[j]) {
          assert p[i] == pkg[i] && p[j] == pkg[j];
        }
      }
      NpmConstraintInfoSorted(pkgMeta, p, dependency);
      match Declared(pkgMeta, v, dependency)
      case None =>
      case Some(cst) =>
        NpmConstraintInfoExact(pkgMeta, p, dependency);
        forall k | 0 <= k < |rest| ensures InfoLe(rest[k], (v.version, v.releasedAt, cst)) {
          var j :| 0 <= j < |p| && rest[k].0 == p[j].version && rest[k].1 == p[j].releasedAt
            && Declared(pkgMeta, p[j], dependency) == Some(rest[k].2);
          assert p[j] == pkg[j];
          assert ReleasedLe(pkg[j], pkg[|pkg| - 1]);
        }
        SortedAppend(rest, (v.version, v.releasedAt, cst), InfoLe);
    }
  }

  /** `pkg_version_info.sort(key=date)` never reorders anything: the versions already come sorted by date. */
  lemma ConstraintInfoSortIsIdentity(c: Config, reg: Registry, pkgMeta: Metadata, dependency: string)
    ensures var info := ConstraintInfo(c, pkgMeta, VersionsWithDates(c, reg, pkgMeta, Some(c.package)), dependency);
      Sort(info, InfoLe) == info
  {
    var pkg := VersionsWithDates(c, reg, pkgMeta, Some(c.package));
    InfoLeTotal();
    if c.ecosystem == "npm" {
      NpmConstraintInfoSorted(pkgMeta, pkg, dependency);
    }
    SortOfSorted(ConstraintInfo(c, pkgMeta, pkg, dependency), InfoLe);
  }

  /** The (version, constraint) pairs released at or before `at`, in date order. */
  function Available(info: seq<(string, int, string)>, at: int): (r: seq<(string, string)>)
    ensures r == [] <==> forall k :: 0 <= k < |info| ==> info[k].1 > at
    ensures forall x :: x in r <==> exists k :: 0 <= k < |info| && info[k].1 <= at && x == (info[k].0, info[k].2)
  {
    if info == [] then []
    else
      var p := info[..|info| - 1];
      var rest := Available(p, at);
      assert forall k :: 0 <= k < |p| ==> p[k] == info[k];
      var e := info[|info| - 1];
      if e.1 <= at then rest + [(e.0, e.2)] else rest
  }

  /** The available pairs keep the order of `info`: the selection distributes over concatenation. */
  lemma {:induction false} AvailableAppend(a: seq<(string, int, string)>, b: seq<(string, int, string)>, at: int)
    ensures Available(a + b, at) == Available(a, at) + Available(b, at)
    decreases |b|
  {
    if b == [] {
      assert a + b == a;
    } else {
      var front := b[..|b| - 1];
      assert (a + b)[..|a + b| - 1] == a + front;
      assert (a + b)[|a + b| - 1] == b[|b| - 1];
      AvailableAppend(a, front, at);
    }
  }

  function PairName(x: (string, string)): string
  {
    x.0
  }

  /**
   * The parent version of an interval and its constraint: None when no
   * constraint-bearing parent version is out yet; otherwise the last of
   * greatest version, or the last by date when some version does not parse.
   */
  function ParentAt(info: seq<(string, int, string)>, at: int, parseVer: string -> Option<Version>): (r: Option<(string, string)>)
    ensures r.None? <==> forall k :: 0 <= k < |info| ==> info[k].1 > at
    ensures r.Some? && (forall j :: 0 <= j < |Available(info, at)| ==> parseVer(Available(info, at)[j].0).Some?) ==>
      exists i :: LastHighest(Available(info, at), PairName, parseVer, i) && Available(info, at)[i] == r.value
    ensures r.Some? && (exists j :: 0 <= j < |Available(info, at)| && parseVer(Available(info, at)[j].0).None?) ==>
      r.value == Available(info, at)[|Available(info, at)| - 1]
  {
    var avail := Available(info, at);
    if avail == [] then None
    else
      match HighestOf(avail, PairName, parseVer)
      case Ok(v) => v
      case Err(_) => Some(avail[|avail| - 1])
  }

  /** `updated`: both versions known, non-empty and equal. */
  predicate Updated(depVersion: Option<string>, highest: Option<string>)
  {
    depVersion.Some? && highest.Some? && depVersion.value != "" && highest.value != "" && depVersion.value == highest.value
  }

  /** The row of one interval; None when the interval has no parent version yet. */
  function RowFor(c: Config, reg: Registry, decay: (real, real) -> real, dependency: string, depMeta: Metadata, table: VulnTable,
                  info: seq<(string, int, string)>, iv: (int, int)): (r: Result<Option<IntervalRow>>)
    ensures ParentAt(info, iv.0, reg.parseVer).None? ==> r == Ok(None)
    ensures r.Ok? && r.value.Some? ==>
      var row := r.value.value;
      && ParentAt(info, iv.0, reg.parseVer) == Some((row.packageVersion, row.rec.dependencyConstraint))
      && row.rec.dependency == dependency
      && row.rec.intervalStart == iv.0 && row.rec.intervalEnd == iv.1
      && (row.rec.updated <==> row.rec.dependencyVersion.Some? && row.rec.dependencyVersion.value != ""
                               && row.rec.dependencyVersion == row.rec.dependencyHighestVersion)
      && row.rec.ageOfIntervalDays * 86400 <= c.endDate - iv.0 < row.rec.ageOfIntervalDays * 86400 + 86400
      && ResolveAt(c, reg, dependency, row.rec.dependencyConstraint, iv.0) == Ok(row.rec.dependencyVersion)
      && row.rec.dependencyHighestVersion == HighestAt(c, reg, dependency, depMeta, iv.0)
      && row.rec.remediated == IsRemediated(RemediationContext(dependency, iv.0, depMeta, c.ecosystem, reg.parseVer, reg.parseTs),
                                            row.rec.dependencyVersion, table)
      && CalculateWeight(c, row.rec.ageOfIntervalDays as real, decay) == Ok(row.rec.weight)
    ensures r.Err? <==>
      && ParentAt(info, iv.0, reg.parseVer).Some?
      && (|| ResolveAt(c, reg, dependency, ParentAt(info, iv.0, reg.parseVer).value.1, iv.0).Err?
          || CalculateWeight(c, DaysBetween(iv.0, c.endDate) as real, decay).Err?)
  {
    match ParentAt(info, iv.0, reg.parseVer)
    case None => Ok(None)
    case Some((pv, cst)) =>
      match ResolveAt(c, reg, dependency, cst, iv.0)
      case Err(e) => Err(e)
      case Ok(depVersion) =>
        var highest := HighestAt(c, reg, dependency, depMeta, iv.0);
        var age := DaysBetween(iv.0, c.endDate);
        match CalculateWeight(c, age as real, decay)
        case Err(e) => Err(e)
        case Ok(w) =>
          var ctx := RemediationContext(dependency, iv.0, depMeta, c.ecosystem, reg.parseVer, reg.parseTs);
          var remediated := IsRemediated(ctx, depVersion, table);
          Ok(Some(IntervalRow(pv, DependencyIntervalRecord(
            dependency, cst, depVersion, highest, iv.0, iv.1, Updated(depVersion, highest), remediated, age, w))))
  }

  /** The interval loop: rows in interval order, the first error ending the analysis. */
  function IntervalRows(c: Config, reg: Registry, decay: (real, real) -> real, dependency: string, depMeta: Metadata, table: VulnTable,
                        info: seq<(string, int, string)>, intervals: seq<(int, int)>): (r: Result<seq<IntervalRow>>)
    ensures r.Ok? ==> |r.value| <= |intervals|
  {
    if intervals == [] then Ok([])
    else
      match IntervalRows(c, reg, decay, dependency, depMeta, table, info, intervals[..|intervals| - 1])
      case Err(e) => Err(e)
      case Ok(rows) =>
        match RowFor(c, reg, decay, dependency, depMeta, table, info, intervals[|intervals| - 1])
        case Err(e) => Err(e)
        case Ok(None) => Ok(rows)
        case Ok(Some(row)) => Ok(rows + [row])
  }

  /**
   * Every row belongs to one of the intervals, and when interval starts
   * strictly increase so do row starts: at most one row per interval, in order.
   */
  lemma {:induction false} IntervalRowsFollowIntervals(c: Config, reg: Registry, decay: (real, real) -> real, dependency: string,
                                                       depMeta: Metadata, table: VulnTable, info: seq<(string, int, string)>, intervals: seq<(int, int)>)
    requires IntervalRows(c, reg, decay, dependency, depMeta, table, info, intervals).Ok?
    ensures var rows := IntervalRows(c, reg, decay, dependency, depMeta, table, info, intervals).value;
      SpansAmong(rows, intervals) && OrderFollows(rows, intervals)
  {
    if intervals != [] {
      var p := intervals[..|intervals| - 1];
      IntervalRowsStep(c, reg, decay, dependency, depMeta, table, info, intervals);
      IntervalRowsFollowIntervals(c, reg, decay, dependency, depMeta, table, info, p);
      var rows := IntervalRows(c, reg, decay, dependency, depMeta, table, info, p).value;
      var all := IntervalRows(c, reg, decay, dependency, depMeta, table, info, intervals).value;
      SpansExtend(rows, all, p, intervals);
    }
  }

  /** Some interval's row could not be built. */
  ghost predicate SomeIntervalFails(c: Config, reg: Registry, decay: (real, real) -> real, dependency: string, depMeta: Metadata,
                                    table: VulnTable, info: seq<(string, int, string)>, intervals: seq<(int, int)>)
  {
    exists i :: 0 <= i < |intervals| && RowFor(c, reg, decay, dependency, depMeta, table, info, intervals[i]).Err?
  }

  /** Every row is the row `RowFor` builds for one of the intervals. */
  ghost predicate RowsFromIntervals(c: Config, reg: Registry, decay: (real, real) -> real, dependency: string, depMeta: Metadata,
                                    table: VulnTable, info: seq<(string, int, string)>, intervals: seq<(int, int)>, rows: seq<IntervalRow>)
  {
    forall k :: 0 <= k < |rows| ==>
      exists i :: 0 <= i < |intervals| && RowFor(c, reg, decay, dependency, depMeta, table, info, intervals[i]) == Ok(Some(rows[k]))
  }

  /** A row built for an interval, if any, is among the rows. */
  ghost predicate RowKept(built: Result<Option<IntervalRow>>, rows: seq<IntervalRow>)
  {
    built.Ok? && built.value.Some? ==> built.value.value in rows
  }

  /** Every row `RowFor` builds for one of the intervals is among the rows. */
  ghost predicate IntervalRowsKept(c: Config, reg: Registry, decay: (real, real) -> real, dependency: string, depMeta: Metadata,
                                   table: VulnTable, info: seq<(string, int, string)>, intervals: seq<(int, int)>, rows: seq<IntervalRow>)
  {
    forall i :: 0 <= i < |intervals| ==> RowKept(RowFor(c, reg, decay, dependency, depMeta, table, info, intervals[i]), rows)
  }

  /** A failed analysis of the intervals comes from the row of some interval. */
  lemma {:induction false} IntervalRowsFailure(c: Config, reg: Registry, decay: (real, real) -> real, dependency: string,
                                               depMeta: Metadata, table: VulnTable, info: seq<(string, int, string)>, intervals: seq<(int, int)>)
    requires IntervalRows(c, reg, decay, dependency, depMeta, table, info, intervals).Err?
    ensures SomeIntervalFails(c, reg, decay, dependency, depMeta, table, info, intervals)
    decreases |intervals|
  {
    var n := |intervals| - 1;
    var p := intervals[..n];
    if IntervalRows(c, reg, decay, dependency, depMeta, table, info, p).Err? {
      IntervalRowsFailure(c, reg, decay, dependency, depMeta, table, info, p);
      var i :| 0 <= i < n && RowFor(c, reg, decay, dependency, depMeta, table, info, p[i]).Err?;
      assert p[i] == intervals[i];
    } else {
      assert RowFor(c, reg, decay, dependency, depMeta, table, info, intervals[n]).Err?;
    }
  }

  /** The analysis of the intervals fails iff the row of some interval fails. */
  lemma IntervalRowsFail(c: Config, reg: Registry, decay: (real, real) -> real, dependency: string,
                         depMeta: Metadata, table: VulnTable, info: seq<(string, int, string)>, intervals: seq<(int, int)>)
    ensures IntervalRows(c, reg, decay, dependency, depMeta, table, info, intervals).Err?
      <==> SomeIntervalFails(c, reg, decay, dependency, depMeta, table, info, intervals)
  {
    if IntervalRows(c, reg, decay, dependency, depMeta, table, info, intervals).Err? {
      IntervalRowsFailure(c, reg, decay, dependency, depMeta, table, info, intervals);
    } else if SomeIntervalFails(c, reg, decay, dependency, depMeta, table, info, intervals) {
      var i :| 0 <= i < |intervals| && RowFor(c, reg, decay, dependency, depMeta, table, info, intervals[i]).Err?;
      var before := IntervalRows(c, reg, decay, dependency, depMeta, table, info, intervals[..i]);
      assert intervals[..|intervals|] == intervals;
      if before.Ok? {
        PrefixStep(c, reg, decay, dependency, depMeta, table, info, intervals, i, before.value);
        NoRecoveryAfterError(c, reg, decay, dependency, depMeta, table, info, intervals, i + 1);
      } else {
        NoRecoveryAfterError(c, reg, decay, dependency, depMeta, table, info, intervals, i);
      }
      assert false;
    }
  }

  /** Every record of a successful analysis is the row of one of the intervals. */
  lemma {:induction false} IntervalRowsFromIntervals(c: Config, reg: Registry, decay: (real, real) -> real, dependency: string,
                                                     depMeta: Metadata, table: VulnTable, info: seq<(string, int, string)>, intervals: seq<(int, int)>)
    requires IntervalRows(c, reg, decay, dependency, depMeta, table, info, intervals).Ok?
    ensures RowsFromIntervals(c, reg, decay, dependency, depMeta, table, info, intervals,
                              IntervalRows(c, reg, decay, dependency, depMeta, table, info, intervals).value)
    decreases |intervals|
  {
    if intervals != [] {
      var n := |intervals| - 1;
      var p := intervals[..n];
      var rows := IntervalRows(c, reg, decay, dependency, depMeta, table, info, p).value;
      var all := IntervalRows(c, reg, decay, dependency, depMeta, table, info, intervals).value;
      IntervalRowsFromIntervals(c, reg, decay, dependency, depMeta, table, info, p);
      IntervalRowsLast(c, reg, decay, dependency, depMeta, table, info, intervals);
      forall k | 0 <= k < |all|
        ensures exists i :: 0 <= i < |intervals| && RowFor(c, reg, decay, dependency, depMeta, table, info, intervals[i]) == Ok(Some(all[k]))
      {
        if k < |rows| {
          var i :| 0 <= i < n && RowFor(c, reg, decay, dependency, depMeta, table, info, p[i]) == Ok(Some(rows[k]));
          assert p[i] == intervals[i] && all[k] == rows[k];
        } else {
          assert k == |rows|;
        }
      }
    }
  }

  /** Every interval that has a row contributes it to a successful analysis. */
  lemma {:induction false} IntervalRowsKeepAll(c: Config, reg: Registry, decay: (real, real) -> real, dependency: string,
                                               depMeta: Metadata, table: VulnTable, info: seq<(string, int, string)>, intervals: seq<(int, int)>)
    requires IntervalRows(c, reg, decay, dependency, depMeta, table, info, intervals).Ok?
    ensures IntervalRowsKept(c, reg, decay, dependency, depMeta, table, info, intervals,
                             IntervalRows(c, reg, decay, dependency, depMeta, table, info, intervals).value)
    decreases |intervals|
  {
    if intervals != [] {
      var n := |intervals| - 1;
      var p := intervals[..n];
      var rows := IntervalRows(c, reg, decay, dependency, depMeta, table, info, p).value;
      var all := IntervalRows(c, reg, decay, dependency, depMeta, table, info, intervals).value;
      IntervalRowsKeepAll(c, reg, decay, dependency, depMeta, table, info, p);
      IntervalRowsLast(c, reg, decay, dependency, depMeta, table, info, intervals);
      forall i | 0 <= i < |intervals|
        ensures RowKept(RowFor(c, reg, decay, dependency, depMeta, table, info, intervals[i]), all)
      {
        var built := RowFor(c, reg, decay, dependency, depMeta, table, info, intervals[i]);
        if i < n {
          assert p[i] == intervals[i];
          assert RowKept(built, rows);
          assert rows <= all;
        } else {
          assert i == n;
        }
      }
    }
  }

  /** The last interval's row, if it has one, is appended to the rows of the others. */
  lemma IntervalRowsLast(c: Config, reg: Registry, decay: (real, real) -> real, dependency: string,
                         depMeta: Metadata, table: VulnTable, info: seq<(string, int, string)>, intervals: seq<(int, int)>)
    requires intervals != []
    requires IntervalRows(c, reg, decay, dependency, depMeta, table, info, intervals).Ok?
    ensures var rows := IntervalRows(c, reg, decay, dependency, depMeta, table, info, intervals[..|intervals| - 1]);
      var last := RowFor(c, reg, decay, dependency, depMeta, table, info, intervals[|intervals| - 1]);
      var all := IntervalRows(c, reg, decay, dependency, depMeta, table, info, intervals).value;
      rows.Ok? && last.Ok? && all == rows.value + (if last.value.Some? then [last.value.value] else [])
  {
  }

  /**
   * The records `analyze_dependency` returns are exactly the rows of its
   * intervals: the analysis fails iff some interval fails, every record is the
   * row of some interval, and every interval that has a row contributes it.
   */
  lemma IntervalRowsAreRowFor(c: Config, reg: Registry, decay: (real, real) -> real, dependency: string,
                              depMeta: Metadata, table: VulnTable, info: seq<(string, int, string)>, intervals: seq<(int, int)>)
    ensures var r := IntervalRows(c, reg, decay, dependency, depMeta, table, info, intervals);
      && (r.Err? <==> SomeIntervalFails(c, reg, decay, dependency, depMeta, table, info, intervals))
      && (r.Ok? ==> RowsFromIntervals(c, reg, decay, dependency, depMeta, table, info, intervals, r.value))
      && (r.Ok? ==> IntervalRowsKept(c, reg, decay, dependency, depMeta, table, info, intervals, r.value))
  {
    IntervalRowsFail(c, reg, decay, dependency, depMeta, table, info, intervals);
    if IntervalRows(c, reg, decay, dependency, depMeta, table, info, intervals).Ok? {
      IntervalRowsFromIntervals(c, reg, decay, dependency, depMeta, table, info, intervals);
      IntervalRowsKeepAll(c, reg, decay, dependency, depMeta, table, info, intervals);
    }
  }

  /** The start and end of a row's interval. */
  function Span(row: IntervalRow): (int, int)
  {
    (row.rec.intervalStart, row.rec.intervalEnd)
  }

  /** The last interval adds no row, or one row for that interval. */
  lemma IntervalRowsStep(c: Config, reg: Registry, decay: (real, real) -> real, dependency: string,
                         depMeta: Metadata, table: VulnTable, info: seq<(string, int, string)>, intervals: seq<(int, int)>)
    requires intervals != []
    requires IntervalRows(c, reg, decay, dependency, depMeta, table, info, intervals).Ok?
    ensures var p := intervals[..|intervals| - 1];
      IntervalRows(c, reg, decay, dependency, depMeta, table, info, p).Ok? &&
      var rows := IntervalRows(c, reg, decay, dependency, depMeta, table, info, p).value;
      var all := IntervalRows(c, reg, decay, dependency, depMeta, table, info, intervals).value;
      all == rows || (all != [] && all == rows + [all[|all| - 1]] && Span(all[|all| - 1]) == intervals[|intervals| - 1])
  {
  }

  /** Every row's span is one of the intervals. */
  ghost predicate SpansAmong(rows: seq<IntervalRow>, intervals: seq<(int, int)>)
  {
    forall k :: 0 <= k < |rows| ==> exists i :: 0 <= i < |intervals| && Span(rows[k]) == intervals[i]
  }

  /** When the interval starts increase, so do the row starts. */
  ghost predicate OrderFollows(rows: seq<IntervalRow>, intervals: seq<(int, int)>)
  {
    (forall i, j :: 0 <= i < j < |intervals| ==> intervals[i].0 < intervals[j].0) ==>
      forall k, l :: 0 <= k < l < |rows| ==> rows[k].rec.intervalStart < rows[l].rec.intervalStart
  }

  /** Appending the row of a new last interval keeps rows within intervals and in order. */
  lemma SpansExtend(rows: seq<IntervalRow>, all: seq<IntervalRow>, p: seq<(int, int)>, intervals: seq<(int, int)>)
    requires intervals != [] && p == intervals[..|intervals| - 1]
    requires all == rows || (all != [] && all == rows + [all[|all| - 1]] && Span(all[|all| - 1]) == intervals[|intervals| - 1])
    requires SpansAmong(rows, p) && OrderFollows(rows, p)
    ensures SpansAmong(all, intervals) && OrderFollows(all, intervals)
  {
    var n := |intervals| - 1;
    assert forall i :: 0 <= i < |p| ==> p[i] == intervals[i];
    if all != rows {
      var row := all[|all| - 1];
      forall k | 0 <= k < |all| ensures exists i :: 0 <= i < |intervals| && Span(all[k]) == intervals[i] {
        if k < |rows| {
          var i :| 0 <= i < |p| && Span(rows[k]) == p[i];
          assert all[k] == rows[k];
        } else {
          assert Span(all[k]) == intervals[n];
        }
      }
      if forall i, j :: 0 <= i < j < |intervals| ==> intervals[i].0 < intervals[j].0 {
        forall k | 0 <= k < |rows| ensures rows[k].rec.intervalStart < row.rec.intervalStart {
          var i :| 0 <= i < |p| && Span(rows[k]) == p[i];
          assert intervals[i].0 < intervals[n].0;
        }
      }
    }
  }

  /** `analyze_dependency`: the rows of one dependency, or the error that stopped it. */
  function DependencyAnalysis(c: Config, reg: Registry, decay: (real, real) -> real, dependency: string,
                              pkgMeta: Metadata, depMeta: Metadata, table: VulnTable): Result<seq<IntervalRow>>
  {
    HistoryRows(c, reg, decay, dependency, pkgMeta, depMeta, table,
                VersionsWithDates(c, reg, pkgMeta, Some(c.package)), VersionsWithDates(c, reg, depMeta, Some(dependency)))
  }

  /** The rows `analyze_dependency` builds once the two version histories are known. */
  function HistoryRows(c: Config, reg: Registry, decay: (real, real) -> real, dependency: string,
                       pkgMeta: Metadata, depMeta: Metadata, table: VulnTable,
                       pkg: seq<PackageVersion>, dep: seq<PackageVersion>): Result<seq<IntervalRow>>
  {
    var info := Sort(ConstraintInfo(c, pkgMeta, pkg, dependency), InfoLe);
    IntervalRows(c, reg, decay, dependency, depMeta, table, info, DependencyIntervals(c, pkg, dep))
  }

  /**
   * Rows in strictly ascending order of interval start, each interval inside
   * `[lo, hi]` whenever that window is not empty.
   */
  ghost predicate OrderedWithin(rows: seq<IntervalRow>, lo: int, hi: int)
  {
    && (forall k, l :: 0 <= k < l < |rows| ==> rows[k].rec.intervalStart < rows[l].rec.intervalStart)
    && (lo <= hi ==> forall k :: 0 <= k < |rows| ==> lo <= rows[k].rec.intervalStart < rows[k].rec.intervalEnd <= hi)
  }

  /**
   * Whatever the histories, the rows come one per interval at most, in
   * ascending order of interval start, each inside `[effective start,
   * end_date]`; when the effective start is the end date there are none.
   */
  lemma HistoryRowsShape(c: Config, reg: Registry, decay: (real, real) -> real, dependency: string,
                         pkgMeta: Metadata, depMeta: Metadata, table: VulnTable, pkg: seq<PackageVersion>, dep: seq<PackageVersion>)
    requires HistoryRows(c, reg, decay, dependency, pkgMeta, depMeta, table, pkg, dep).Ok?
    ensures var eff := EffectiveStart(c.startDate, pkg, dep);
      var rows := HistoryRows(c, reg, decay, dependency, pkgMeta, depMeta, table, pkg, dep).value;
      && |rows| <= |DependencyIntervals(c, pkg, dep)|
      && OrderedWithin(rows, eff, c.endDate)
      && (eff == c.endDate ==> rows == [])
  {
    var eff := EffectiveStart(c.startDate, pkg, dep);
    var intervals := DependencyIntervals(c, pkg, dep);
    var info := Sort(ConstraintInfo(c, pkgMeta, pkg, dependency), InfoLe);
    DependencyIntervalsSpan(c, pkg, dep);
    RowsOnIntervals(c, reg, decay, dependency, depMeta, table, info, intervals, eff);
  }

  /** The rows built over contiguous, non-empty intervals keep the intervals' order and bounds. */
  lemma RowsOnIntervals(c: Config, reg: Registry, decay: (real, real) -> real, dependency: string, depMeta: Metadata, table: VulnTable,
                        info: seq<(string, int, string)>, intervals: seq<(int, int)>, lo: int)
    requires IntervalRows(c, reg, decay, dependency, depMeta, table, info, intervals).Ok?
    requires forall i :: 0 <= i < |intervals| ==> intervals[i].0 < intervals[i].1
    requires CoversWindow(intervals, lo, c.endDate)
    ensures var rows := IntervalRows(c, reg, decay, dependency, depMeta, table, info, intervals).value;
      && |rows| <= |intervals|
      && OrderedWithin(rows, lo, c.endDate)
      && (lo == c.endDate ==> rows == [])
  {
    if intervals != [] {
      forall i, j | 0 <= i < j < |intervals| ensures intervals[i].0 < intervals[j].0 {
        IntervalsIncrease(intervals, i, j);
      }
    }
    IntervalRowsFollowIntervals(c, reg, decay, dependency, depMeta, table, info, intervals);
  }

  /**
   * Only npm yields interval rows: for PyPI and other ecosystems no parent
   * version carries a constraint, so every interval is skipped and a
   * dependency whose metadata could be fetched contributes TTU = TTR = 0.
   */
  lemma OnlyNpmHasRows(c: Config, reg: Registry, decay: (real, real) -> real, dependency: string,
                       pkgMeta: Metadata, depMeta: Metadata, table: VulnTable, pkg: seq<PackageVersion>, dep: seq<PackageVersion>)
    requires c.ecosystem != "npm"
    ensures HistoryRows(c, reg, decay, dependency, pkgMeta, depMeta, table, pkg, dep) == Ok([])
    ensures CalculateTtuTtr(c, HistoryRows(c, reg, decay, dependency, pkgMeta, depMeta, table, pkg, dep).value) == (Some(0.0), Some(0.0))
  {
    assert Sort(ConstraintInfo(c, pkgMeta, pkg, dependency), InfoLe) == [];
    NoInfoNoRows(c, reg, decay, dependency, depMeta, table, DependencyIntervals(c, pkg, dep));
  }

  lemma {:induction false} IntervalsIncrease(r: seq<(int, int)>, i: int, j: int)
    requires forall k :: 0 <= k < |r| ==> r[k].0 < r[k].1
    requires forall k :: 0 <= k < |r| - 1 ==> r[k].1 == r[k + 1].0
    requires 0 <= i < j < |r|
    ensures r[i].0 < r[j].0
    decreases j - i
  {
    if j > i + 1 {
      IntervalsIncrease(r, i, j - 1);
    }
  }

  lemma {:induction false} NoInfoNoRows(c: Config, reg: Registry, decay: (real, real) -> real, dependency: string,
                                        depMeta: Metadata, table: VulnTable, intervals: seq<(int, int)>)
    ensures IntervalRows(c, reg, decay, dependency, depMeta, table, [], intervals) == Ok([])
  {
    if intervals != [] {
      NoInfoNoRows(c, reg, decay, dependency, depMeta, table, intervals[..|intervals| - 1]);
    }
  }

  /** The collecting loop of `all_dates`: the set grows by each clipped release instant. */
  lemma BoundariesAppend(dates: seq<int>, d: int, start: int, end: int)
    ensures Boundaries(dates + [d], start, end) == Boundaries(dates, start, end) + {d}
  {
  }

  /** The `all_dates` loops: both ends, plus every release instant of either history inside `[eff, end]`. */
  method CollectDates(pkgVersions: seq<PackageVersion>, depVersions: seq<PackageVersion>, eff: int, end: int) returns (allDates: set<int>)
    ensures allDates == Boundaries(Clipped(pkgVersions, eff, end) + Clipped(depVersions, eff, end), eff, end)
  {
    allDates := {eff, end};
    var i := 0;
    while i < |pkgVersions|
      invariant 0 <= i <= |pkgVersions|
      invariant allDates == Boundaries(Clipped(pkgVersions[..i], eff, end), eff, end)
    {
      assert pkgVersions[..i + 1][..i] == pkgVersions[..i];
      var date := pkgVersions[i].releasedAt;
      if eff <= date <= end {
        BoundariesAppend(Clipped(pkgVersions[..i], eff, end), date, eff, end);
        allDates := allDates + {date};
      }
      i := i + 1;
    }
    assert pkgVersions[..i] == pkgVersions;
    var pkgDates := Clipped(pkgVersions, eff, end);
    var j := 0;
    while j < |depVersions|
      invariant 0 <= j <= |depVersions|
      invariant allDates == Boundaries(pkgDates + Clipped(depVersions[..j], eff, end), eff, end)
    {
      assert depVersions[..j + 1][..j] == depVersions[..j];
      var date := depVersions[j].releasedAt;
      if eff <= date <= end {
        BoundariesAppend(pkgDates + Clipped(depVersions[..j], eff, end), date, eff, end);
        assert pkgDates + Clipped(depVersions[..j + 1], eff, end) == (pkgDates + Clipped(depVersions[..j], eff, end)) + [date];
        allDates := allDates + {date};
      }
      j := j + 1;
    }
    assert depVersions[..j] == depVersions;
  }

  /** The `pkg_version_info` loop: for npm, each parent version whose `dependencies` names the dependency. */
  method CollectConstraintInfo(c: Config, pkgMeta: Metadata, pkgVersions: seq<PackageVersion>, dependency: string)
    returns (info: seq<(string, int, string)>)
    ensures info == ConstraintInfo(c, pkgMeta, pkgVersions, dependency)
  {
    info := [];
    if c.ecosystem == "npm" {
      var k := 0;
      while k < |pkgVersions|
        invariant 0 <= k <= |pkgVersions|
        invariant info == NpmConstraintInfo(pkgMeta, pkgVersions[..k], dependency)
      {
        assert pkgVersions[..k + 1][..k] == pkgVersions[..k];
        var v := pkgVersions[k];
        assert NpmConstraintInfo(pkgMeta, pkgVersions[..k + 1], dependency) == info + VersionInfo(pkgMeta, v, dependency);
        var constraint := Get(NpmEntry(pkgMeta, v.version).dependencies, dependency);
        if constraint.Some? {
          info := info + [(v.version, v.releasedAt, constraint.value)];
        }
        k := k + 1;
      }
      assert pkgVersions[..k] == pkgVersions;
    }
  }

  method AnalyzeDependency(c: Config, reg: Registry, decay: (real, real) -> real, dependency: string,
                           pkgMeta: Metadata, depMeta: Metadata, table: VulnTable) returns (r: Result<seq<IntervalRow>>)
    ensures r == DependencyAnalysis(c, reg, decay, dependency, pkgMeta, depMeta, table)
  {
    var pkgVersions := GetAllVersionsWithDates(c, reg, pkgMeta, Some(c.package));
    var depVersions := GetAllVersionsWithDates(c, reg, depMeta, Some(dependency));
    r := AnalyzeHistories(c, reg, decay, dependency, pkgMeta, depMeta, table, pkgVersions, depVersions);
  }

  /** `analyze_dependency` once both version histories are fetched. */
  method AnalyzeHistories(c: Config, reg: Registry, decay: (real, real) -> real, dependency: string,
                          pkgMeta: Metadata, depMeta: Metadata, table: VulnTable,
                          pkgVersions: seq<PackageVersion>, depVersions: seq<PackageVersion>) returns (r: Result<seq<IntervalRow>>)
    ensures r == HistoryRows(c, reg, decay, dependency, pkgMeta, depMeta, table, pkgVersions, depVersions)
  {
    var intervalDates, intervals := IntervalsOf(c, pkgVersions, depVersions);
    var pkgVersionInfo := CollectConstraintInfo(c, pkgMeta, pkgVersions, dependency);
    pkgVersionInfo := Sort(pkgVersionInfo, InfoLe);
    if |intervalDates| < 2 {
      return Ok([]);
    }
    r := AnalyzeIntervals(c, reg, decay, dependency, depMeta, table, pkgVersionInfo, intervals);
  }

  /** The effective start, the sorted boundaries and their consecutive pairs. */
  method IntervalsOf(c: Config, pkgVersions: seq<PackageVersion>, depVersions: seq<PackageVersion>)
    returns (intervalDates: seq<int>, intervals: seq<(int, int)>)
    ensures intervals == DependencyIntervals(c, pkgVersions, depVersions)
    ensures |intervalDates| < 2 ==> intervals == []
  {
    var effectiveStart := c.startDate;
    if pkgVersions != [] && pkgVersions[0].releasedAt > effectiveStart {
      effectiveStart := pkgVersions[0].releasedAt;
    }
    if depVersions != [] && depVersions[0].releasedAt > effectiveStart {
      effectiveStart := depVersions[0].releasedAt;
    }
    assert effectiveStart == EffectiveStart(c.startDate, pkgVersions, depVersions);

    var allDates := CollectDates(pkgVersions, depVersions, effectiveStart, c.endDate);
    intervalDates := SortedElems(allDates);
    intervals := TimeUtils.Pairs(intervalDates);
  }

  /** The interval loop of `analyze_dependency`. */
  method AnalyzeIntervals(c: Config, reg: Registry, decay: (real, real) -> real, dependency: string, depMeta: Metadata, table: VulnTable,
                          info: seq<(string, int, string)>, intervals: seq<(int, int)>) returns (r: Result<seq<IntervalRow>>)
    ensures r == IntervalRows(c, reg, decay, dependency, depMeta, table, info, intervals)
  {
    var records: seq<IntervalRow> := [];
    var n := 0;
    while n < |intervals|
      invariant 0 <= n <= |intervals|
      invariant IntervalRows(c, reg, decay, dependency, depMeta, table, info, intervals[..n]) == Ok(records)
    {
      var (intervalStart, intervalEnd) := intervals[n];
      var row := IntervalRowAt(c, reg, decay, dependency, depMeta, table, info, intervalStart, intervalEnd);
      PrefixStep(c, reg, decay, dependency, depMeta, table, info, intervals, n, records);
      if row.Err? {
        NoRecoveryAfterError(c, reg, decay, dependency, depMeta, table, info, intervals, n + 1);
        assert intervals[..|intervals|] == intervals;
        return Err(row.error);
      }
      if row.value.Some? {
        records := records + [row.value.value];
      }
      n := n + 1;
    }
    assert intervals[..n] == intervals;
    r := Ok(records);
  }

  /** One more interval: the analysis of the longer prefix extends that of the shorter one by the interval's row. */
  lemma PrefixStep(c: Config, reg: Registry, decay: (real, real) -> real, dependency: string, depMeta: Metadata, table: VulnTable,
                   info: seq<(string, int, string)>, intervals: seq<(int, int)>, n: nat, records: seq<IntervalRow>)
    requires n < |intervals|
    requires IntervalRows(c, reg, decay, dependency, depMeta, table, info, intervals[..n]) == Ok(records)
    ensures IntervalRows(c, reg, decay, dependency, depMeta, table, info, intervals[..n + 1]) ==
      match RowFor(c, reg, decay, dependency, depMeta, table, info, intervals[n])
      case Err(e) => Err(e)
      case Ok(None) => Ok(records)
      case Ok(Some(row)) => Ok(records + [row])
  {
    assert intervals[..n + 1][..n] == intervals[..n];
  }

  /** Once an interval fails, the analysis of every longer prefix fails with the same error. */
  lemma {:induction false} NoRecoveryAfterError(c: Config, reg: Registry, decay: (real, real) -> real, dependency: string, depMeta: Metadata,
                                                table: VulnTable, info: seq<(string, int, string)>, intervals: seq<(int, int)>, n: int)
    requires 0 <= n <= |intervals|
    requires IntervalRows(c, reg, decay, dependency, depMeta, table, info, intervals[..n]).Err?
    ensures IntervalRows(c, reg, decay, dependency, depMeta, table, info, intervals[..|intervals|])
         == IntervalRows(c, reg, decay, dependency, depMeta, table, info, intervals[..n])
    decreases |intervals| - n
  {
    if n < |intervals| {
      assert intervals[..n + 1][..n] == intervals[..n];
      NoRecoveryAfterError(c, reg, decay, dependency, depMeta, table, info, intervals, n + 1);
    }
  }

  /** The choice of the parent version at an interval start: the available versions, then the highest of them. */
  method ChooseParent(info: seq<(string, int, string)>, at: int, parseVer: string -> Option<Version>) returns (r: Option<(string, string)>)
    ensures r == ParentAt(info, at, parseVer)
  {
    var availableVersions: seq<(string, string)> := [];
    var k := 0;
    while k < |info|
      invariant 0 <= k <= |info|
      invariant availableVersions == Available(info[..k], at)
    {
      assert info[..k + 1][..k] == info[..k];
      var (ver, date, constraint) := info[k];
      if date <= at {
        availableVersions := availableVersions + [(ver, constraint)];
      }
      k := k + 1;
    }
    assert info[..k] == info;
    if availableVersions == [] {
      return None;
    }
    var chosen := ChooseHighest(availableVersions, PairName, parseVer);
    r := if chosen.Ok? then chosen.value else Some(availableVersions[|availableVersions| - 1]);
  }

  /** One pass of the interval loop. */
  method IntervalRowAt(c: Config, reg: Registry, decay: (real, real) -> real, dependency: string, depMeta: Metadata, table: VulnTable,
                       info: seq<(string, int, string)>, intervalStart: int, intervalEnd: int) returns (r: Result<Option<IntervalRow>>)
    ensures r == RowFor(c, reg, decay, dependency, depMeta, table, info, (intervalStart, intervalEnd))
  {
    var parent := ChooseParent(info, intervalStart, reg.parseVer);
    if parent.None? {
      return Ok(None);
    }
    var (pkgVersionAtInterval, constraintAtInterval) := parent.value;
    var depVersion := ResolveAt(c, reg, dependency, constraintAtInterval, intervalStart);
    if depVersion.Err? {
      return Err(depVersion.error);
    }
    var highestDepVersion := GetHighestSemverVersionAtDate(c, reg, dependency, depMeta, intervalStart);
    var updated := Updated(depVersion.value, highestDepVersion);
    var ageOfInterval := DaysBetween(intervalStart, c.endDate);
    var weight := CalculateWeight(c, ageOfInterval as real, decay);
    if weight.Err? {
      return Err(weight.error);
    }
    var ctx := RemediationContext(dependency, intervalStart, depMeta, c.ecosystem, reg.parseVer, reg.parseTs);
    var remediated := IsRemediated(ctx, depVersion.value, table);
    r := Ok(Some(IntervalRow(pkgVersionAtInterval, DependencyIntervalRecord(
      dependency, constraintAtInterval, depVersion.value, highestDepVersion, intervalStart, intervalEnd,
      updated, remediated, ageOfInterval, weight.value))));
  }

  // ---------------------------------------------------------------------------
  // calculate_ttu_ttr
  // ---------------------------------------------------------------------------

  /** `(interval_end - interval_start).total_seconds() / 86400`. */
  function Duration(row: IntervalRow): real
  {
    (row.rec.intervalEnd - row.rec.intervalStart) as real / 86400.0
  }

  function NotUpdated(rows: seq<IntervalRow>): (r: seq<IntervalRow>)
    ensures forall x :: x in r <==> x in rows && !x.rec.updated
  {
    if rows == [] then []
    else
      var rest := NotUpdated(rows[..|rows| - 1]);
      assert rows == rows[..|rows| - 1] + [rows[|rows| - 1]];
      if !rows[|rows| - 1].rec.updated then rest + [rows[|rows| - 1]] else rest
  }

  function NotRemediated(rows: seq<IntervalRow>): (r: seq<IntervalRow>)
    ensures forall x :: x in r <==> x in rows && !x.rec.remediated
  {
    if rows == [] then []
    else
      var rest := NotRemediated(rows[..|rows| - 1]);
      assert rows == rows[..|rows| - 1] + [rows[|rows| - 1]];
      if !rows[|rows| - 1].rec.remediated then rest + [rows[|rows| - 1]] else rest
  }

  function SumDurations(rows: seq<IntervalRow>): real
  {
    if rows == [] then 0.0 else SumDurations(rows[..|rows| - 1]) + Duration(rows[|rows| - 1])
  }

  function SumWeights(rows: seq<IntervalRow>): real
  {
    if rows == [] then 0.0 else SumWeights(rows[..|rows| - 1]) + rows[|rows| - 1].rec.weight
  }

  function SumWeighted(rows: seq<IntervalRow>): real
  {
    if rows == [] then 0.0 else SumWeighted(rows[..|rows| - 1]) + rows[|rows| - 1].rec.weight * Duration(rows[|rows| - 1])
  }

  /**
   * TTU or TTR over the selected rows: the plain sum of durations when
   * weighting is disabled or nothing is selected, otherwise the weighted mean
   * (None when the weights sum to 0).
   */
  function Metric(c: Config, selected: seq<IntervalRow>): (r: Option<real>)
    ensures selected == [] ==> r == Some(0.0)
    ensures c.weighting == "disable" ==> r == Some(SumDurations(selected))
    ensures c.weighting != "disable" && selected != [] ==> (r.None? <==> SumWeights(selected) == 0.0)
    ensures c.weighting != "disable" && r.Some? && selected != [] ==> r.value * SumWeights(selected) == SumWeighted(selected)
  {
    if c.weighting != "disable" && selected != [] then
      if SumWeights(selected) == 0.0 then None else Some(SumWeighted(selected) / SumWeights(selected))
    else Some(SumDurations(selected))
  }

  /** `calculate_ttu_ttr`: (0, 0) for no rows; TTU over the rows not updated, TTR over the rows not remediated. */
  function CalculateTtuTtr(c: Config, rows: seq<IntervalRow>): (r: (Option<real>, Option<real>))
    ensures rows == [] ==> r == (Some(0.0), Some(0.0))
    ensures rows != [] ==> r == (Metric(c, NotUpdated(rows)), Metric(c, NotRemediated(rows)))
  {
    if rows == [] then (Some(0.0), Some(0.0))
    else (Metric(c, NotUpdated(rows)), Metric(c, NotRemediated(rows)))
  }

  /** TTU is 0 when every interval was updated, and TTR is 0 when every interval was remediated. */
  lemma NothingStaleMeansZero(c: Config, rows: seq<IntervalRow>)
    ensures (forall k :: 0 <= k < |rows| ==> rows[k].rec.updated) ==> CalculateTtuTtr(c, rows).0 == Some(0.0)
    ensures (forall k :: 0 <= k < |rows| ==> rows[k].rec.remediated) ==> CalculateTtuTtr(c, rows).1 == Some(0.0)
  {
    if forall k :: 0 <= k < |rows| ==> rows[k].rec.updated {
      NoneNotUpdated(rows);
    }
    if forall k :: 0 <= k < |rows| ==> rows[k].rec.remediated {
      NoneNotRemediated(rows);
    }
  }

  lemma {:induction false} NoneNotUpdated(rows: seq<IntervalRow>)
    requires forall k :: 0 <= k < |rows| ==> rows[k].rec.updated
    ensures NotUpdated(rows) == []
  {
    if rows != [] {
      NoneNotUpdated(rows[..|rows| - 1]);
    }
  }

  lemma {:induction false} NoneNotRemediated(rows: seq<IntervalRow>)
    requires forall k :: 0 <= k < |rows| ==> rows[k].rec.remediated
    ensures NotRemediated(rows) == []
  {
    if rows != [] {
      NoneNotRemediated(rows[..|rows| - 1]);
    }
  }

  /**
   * With positive weights, the weighted TTU/TTR is a true mean: it lies
   * between the shortest and the longest duration of the selected rows.
   */
  lemma WeightedMetricBounds(c: Config, selected: seq<IntervalRow>, lo: real, hi: real)
    requires c.weighting != "disable" && selected != []
    requires forall k :: 0 <= k < |selected| ==> selected[k].rec.weight > 0.0 && lo <= Duration(selected[k]) <= hi
    ensures Metric(c, selected).Some?
    ensures lo <= Metric(c, selected).value <= hi
  {
    WeightedSumBounds(selected, lo, hi);
    MeanBetween(lo, hi, Metric(c, selected).value, SumWeighted(selected), SumWeights(selected));
  }

  /** A quotient `m` of `s` by positive `w` lies between `lo` and `hi` when `s` lies between `lo * w` and `hi * w`. */
  lemma MeanBetween(lo: real, hi: real, m: real, s: real, w: real)
    requires w > 0.0 && m * w == s && lo * w <= s <= hi * w
    ensures lo <= m <= hi
  {
    ScaleCancel(lo, m, w);
    ScaleCancel(m, hi, w);
  }

  lemma ScaleCancel(a: real, b: real, w: real)
    requires w > 0.0 && a * w <= b * w
    ensures a <= b
  {
    assert (b - a) * w >= 0.0;
  }

  lemma {:induction false} WeightedSumBounds(rows: seq<IntervalRow>, lo: real, hi: real)
    requires rows != []
    requires forall k :: 0 <= k < |rows| ==> rows[k].rec.weight > 0.0 && lo <= Duration(rows[k]) <= hi
    ensures SumWeights(rows) > 0.0
    ensures lo * SumWeights(rows) <= SumWeighted(rows) <= hi * SumWeights(rows)
  {
    var p := rows[..|rows| - 1];
    var x := rows[|rows| - 1];
    var w, d := x.rec.weight, Duration(x);
    var sw, sd := SumWeights(p), SumWeighted(p);
    assert SumWeights(rows) == sw + w;
    assert SumWeighted(rows) == sd + w * d;
    TermBounds(w, d, lo, hi);
    if p != [] {
      forall k | 0 <= k < |p| ensures p[k].rec.weight > 0.0 && lo <= Duration(p[k]) <= hi {
        assert p[k] == rows[k];
      }
      WeightedSumBounds(p, lo, hi);
      assert sw > 0.0 && lo * sw <= sd <= hi * sw;
    } else {
      assert sw == 0.0 && sd == 0.0;
    }
    SumBounds(lo, hi, sw, sd, w, w * d);
  }

  /** Adding one weighted term keeps the weighted sum between the bounds. */
  lemma SumBounds(lo: real, hi: real, sw: real, sd: real, w: real, t: real)
    requires lo * sw <= sd <= hi * sw && lo * w <= t <= hi * w
    ensures lo * (sw + w) <= sd + t <= hi * (sw + w)
  {
    Distribute(lo, sw, w);
    Distribute(hi, sw, w);
  }

  lemma TermBounds(w: real, d: real, lo: real, hi: real)
    requires w > 0.0 && lo <= d <= hi
    ensures lo * w <= w * d <= hi * w
  {
    assert (d - lo) * w >= 0.0 && (hi - d) * w >= 0.0;
  }

  lemma Distribute(a: real, b: real, c: real)
    ensures a * (b + c) == a * b + a * c
  {
  }

  // ---------------------------------------------------------------------------
  // analyze
  // ---------------------------------------------------------------------------

  /** `fetch_package_metadata`: only npm and PyPI are supported. */
  function FetchMetadata(c: Config, reg: Registry, name: string): (r: Result<Metadata>)
    ensures c.ecosystem != "npm" && c.ecosystem != "pypi" ==> r.Err?
    ensures c.ecosystem == "npm" || c.ecosystem == "pypi" ==> r == reg.fetch(c.ecosystem, name)
  {
    if c.ecosystem == "npm" || c.ecosystem == "pypi" then reg.fetch(c.ecosystem, name)
    else Err("Unsupported ecosystem: " + c.ecosystem)
  }

  /**
   * `get_package_version_at_date`: the npm lookup by `npm view` time data with
   * the metadata fallback, or the PyPI lookup by upload time with the
   * per-version `requires_dist`; the same selections the resolvers make.
   */
  function VersionAtDate(c: Config, reg: Registry, meta: Metadata): (r: Result<(string, VersionData)>)
    ensures c.ecosystem != "npm" && c.ecosystem != "pypi" ==> r.Err?
    ensures c.ecosystem == "npm" && r.Ok? ==>
      r.value.1.NpmData? && NpmVersionAtDate(TimeLoad(reg.npmTime(c.package)), meta, c.endDate, reg.parseTs) == Ok((r.value.0, r.value.1.data))
    ensures c.ecosystem == "npm" ==>
      (r.Ok? <==> NpmVersionAtDate(TimeLoad(reg.npmTime(c.package)), meta, c.endDate, reg.parseTs).Ok?)
    ensures c.ecosystem == "npm" && r.Err? ==>
      NpmVersionAtDate(TimeLoad(reg.npmTime(c.package)), meta, c.endDate, reg.parseTs) == Err(r.error)
    ensures c.ecosystem == "pypi" ==> r == PypiVersionAtDate(meta, c.endDate, reg.parseTs, v => reg.fetchVersion(c.package, v))
  {
    if c.ecosystem == "npm" then
      match NpmVersionAtDate(TimeLoad(reg.npmTime(c.package)), meta, c.endDate, reg.parseTs)
      case Ok((v, d)) => Ok((v, NpmData(d)))
      case Err(e) => Err(e)
    else if c.ecosystem == "pypi" then PypiVersionAtDate(meta, c.endDate, reg.parseTs, v => reg.fetchVersion(c.package, v))
    else Err("Unsupported ecosystem: " + c.ecosystem)
  }

  /** `get_package_version_at_date`, with the loops of `_get_npm_version_at_date`, `_get_pypi_version_at_date` and `_parse_versions_from_metadata`. */
  method GetPackageVersionAtDate(c: Config, reg: Registry, meta: Metadata) returns (r: Result<(string, VersionData)>)
    ensures r == VersionAtDate(c, reg, meta)
  {
    if c.ecosystem == "npm" {
      var timeData := TimeData(TimeLoad(reg.npmTime(c.package)));
      var latest := SelectLatest(TimeDataView(timeData, reg.parseTs), c.endDate);
      if latest.None? {
        latest := SelectLatest(VersionsView(meta, reg.parseTs), c.endDate);
      }
      if latest.None? {
        return Err(NoVersionsError);
      }
      var version := latest.value.0;
      return Ok((version, NpmData(NpmEntry(meta, version))));
    } else if c.ecosystem == "pypi" {
      var latest := SelectLatest(ReleasesView(meta, reg.parseTs), c.endDate);
      if latest.None? {
        return Err(NoVersionsError);
      }
      var (version, uploaded) := latest.value;
      var versionMetadata := reg.fetchVersion(c.package, version);
      var reqs := if versionMetadata.Ok? then versionMetadata.value else [];
      return Ok((version, PypiData(uploaded, reqs)));
    }
    r := Err("Unsupported ecosystem: " + c.ecosystem);
  }

  /** `extract_dependencies`: npm `dependencies`; PyPI requirements without markers or extras. */
  function Dependencies(c: Config, reg: Registry, data: VersionData): (r: Dict<string, string>)
    ensures c.ecosystem == "pypi" && data.PypiData? ==> r == PypiDependencies(data.requiresDist, reg.parseReq, true)
    ensures c.ecosystem == "npm" && data.NpmData? ==> r == data.data.dependencies
    ensures c.ecosystem != "npm" && c.ecosystem != "pypi" ==> r == []
  {
    if c.ecosystem == "npm" then (if data.NpmData? then data.data.dependencies else [])
    else if c.ecosystem == "pypi" then (if data.PypiData? then PypiDependencies(data.requiresDist, reg.parseReq, true) else [])
    else []
  }

  method ExtractDependencies(c: Config, reg: Registry, data: VersionData) returns (deps: Dict<string, string>)
    ensures deps == Dependencies(c, reg, data)
  {
    if c.ecosystem == "npm" {
      return if data.NpmData? then data.data.dependencies else [];
    }
    deps := [];
    if c.ecosystem == "pypi" && data.PypiData? {
      var requiresDist := data.requiresDist;
      var i := 0;
      while i < |requiresDist|
        invariant 0 <= i <= |requiresDist|
        invariant deps == PypiDependencies(requiresDist[..i], reg.parseReq, true)
      {
        assert requiresDist[..i + 1][..i] == requiresDist[..i];
        var requirement := reg.parseReq(requiresDist[i]);
        if requirement.Some? && !requirement.value.hasMarker && !requirement.value.hasExtras {
          deps := Put(deps, requirement.value.name, Constraint(requirement.value));
        }
        i := i + 1;
      }
      assert requiresDist[..i] == requiresDist;
    }
  }

  /** The rows of the OSV database for this ecosystem, in order. */
  function EcosystemRows(rows: seq<VulnRecord>, ecosystem: string): (r: seq<VulnRecord>)
    ensures forall v :: v in r <==> v in rows && v.ecosystem == ecosystem
  {
    if rows == [] then []
    else
      var rest := EcosystemRows(rows[..|rows| - 1], ecosystem);
      assert rows == rows[..|rows| - 1] + [rows[|rows| - 1]];
      if rows[|rows| - 1].ecosystem == ecosystem then rest + [rows[|rows| - 1]] else rest
  }

  /** The table `analyze` checks remediation against: the database rows of this ecosystem, or an empty frame without one. */
  function OsvTableFor(c: Config, db: Option<seq<VulnRecord>>): (r: VulnTable)
    ensures db.None? ==> r == VulnTable(false, [])
    ensures db.Some? ==> r.hasPackageColumn && forall v :: v in r.rows <==> v in db.value && v.ecosystem == Upper(c.ecosystem)
  {
    match db
    case None => VulnTable(false, [])
    case Some(rows) => VulnTable(true, EcosystemRows(rows, Upper(c.ecosystem)))
  }

  /** One dependency inside the `try` of `analyze`: its (TTU, TTR), or None when any step raised. */
  function DependencyOutcome(c: Config, reg: Registry, decay: (real, real) -> real, pkgMeta: Metadata, table: VulnTable, dependency: string):
    (r: Option<(Option<real>, Option<real>)>)
    ensures r.None? <==> (FetchMetadata(c, reg, dependency).Err? ||
      DependencyAnalysis(c, reg, decay, dependency, pkgMeta, FetchMetadata(c, reg, dependency).value, table).Err?)
  {
    match FetchMetadata(c, reg, dependency)
    case Err(_) => None
    case Ok(depMeta) =>
      match DependencyAnalysis(c, reg, decay, dependency, pkgMeta, depMeta, table)
      case Err(_) => None
      case Ok(rows) => Some(CalculateTtuTtr(c, rows))
  }

  /** The outcome of every dependency, in dict order. */
  function Outcomes(c: Config, reg: Registry, decay: (real, real) -> real, pkgMeta: Metadata, table: VulnTable, deps: Dict<string, string>):
    (r: seq<Option<(Option<real>, Option<real>)>>)
    ensures |r| == |deps|
    ensures forall k :: 0 <= k < |deps| ==> r[k] == DependencyOutcome(c, reg, decay, pkgMeta, table, deps[k].0)
  {
    seq(|deps|, k requires 0 <= k < |deps| => DependencyOutcome(c, reg, decay, pkgMeta, table, deps[k].0))
  }

  /** The values of the outcomes that are present, in order: the dependencies whose `try` did not raise. */
  function Present<M>(xs: seq<Option<M>>): (r: seq<M>)
    ensures |r| <= |xs|
  {
    if xs == [] then []
    else
      var rest := Present(xs[..|xs| - 1]);
      if xs[|xs| - 1].Some? then rest + [xs[|xs| - 1].value] else rest
  }

  /** Every outcome contributes iff none of them is missing. */
  lemma {:induction false} PresentComplete<M>(xs: seq<Option<M>>)
    ensures |Present(xs)| == |xs| <==> forall k :: 0 <= k < |xs| ==> xs[k].Some?
  {
    if xs != [] {
      var p := xs[..|xs| - 1];
      PresentComplete(p);
      assert forall k :: 0 <= k < |p| ==> p[k] == xs[k];
    }
  }

  /** A missing outcome leaves the present ones as they were; a present one is appended. */
  lemma PresentAppend<M>(xs: seq<Option<M>>, x: Option<M>)
    ensures Present(xs + [x]) == if x.Some? then Present(xs) + [x.value] else Present(xs)
  {
    assert (xs + [x])[..|xs|] == xs;
  }

  function SumAll(xs: seq<Option<real>>): (r: Option<real>)
    ensures r.Some? <==> forall k :: 0 <= k < |xs| ==> xs[k].Some?
  {
    if xs == [] then Some(0.0)
    else
      var p := xs[..|xs| - 1];
      assert forall k :: 0 <= k < |p| ==> p[k] == xs[k];
      match SumAll(p)
      case None => None
      case Some(s) => if xs[|xs| - 1].Some? then Some(s + xs[|xs| - 1].value) else None
  }

  /** `sum(values) / len(values) if values else 0.0`; not finite as soon as one value is not. */
  function Mean(xs: seq<Option<real>>): (r: Option<real>)
    ensures xs == [] ==> r == Some(0.0)
    ensures r.Some? <==> forall k :: 0 <= k < |xs| ==> xs[k].Some?
  {
    if xs == [] then Some(0.0)
    else
      match SumAll(xs)
      case None => None
      case Some(s) => Some(s / |xs| as real)
  }

  /** The mean of finite values between `lo` and `hi` lies between them too. */
  lemma MeanBounds(xs: seq<Option<real>>, lo: real, hi: real)
    requires xs != []
    requires forall k :: 0 <= k < |xs| ==> xs[k].Some? && lo <= xs[k].value <= hi
    ensures Mean(xs).Some? && lo <= Mean(xs).value <= hi
  {
    SumAllBounds(xs, lo, hi);
    var n := |xs| as real;
    var s := SumAll(xs).value;
    assert Mean(xs).value == s / n;
    assert (s / n) * n == s;
    ScaleCancel(lo, s / n, n);
    ScaleCancel(s / n, hi, n);
  }

  lemma {:induction false} SumAllBounds(xs: seq<Option<real>>, lo: real, hi: real)
    requires forall k :: 0 <= k < |xs| ==> xs[k].Some? && lo <= xs[k].value <= hi
    ensures SumAll(xs).Some?
    ensures lo * |xs| as real <= SumAll(xs).value <= hi * |xs| as real
  {
    if xs != [] {
      var p := xs[..|xs| - 1];
      assert forall k :: 0 <= k < |p| ==> p[k] == xs[k];
      SumAllBounds(p, lo, hi);
    }
  }

  /**
   * `analyze`: metadata and the version at the end date (errors propagate),
   * its declared dependencies, then the mean TTU and TTR over the
   * dependencies that did not raise; `num_dependencies` counts all of them.
   */
  function Analysis(c: Config, reg: Registry, decay: (real, real) -> real, db: Option<seq<VulnRecord>>): (r: Result<Summary>)
  {
    match FetchMetadata(c, reg, c.package)
    case Err(e) => Err(e)
    case Ok(pkgMeta) =>
      match VersionAtDate(c, reg, pkgMeta)
      case Err(e) => Err(e)
      case Ok((version, data)) =>
        var deps := Dependencies(c, reg, data);
        if deps == [] then Ok(Summary(c.package, version, Some(0.0), Some(0.0), 0))
        else
          var ok := Present(Outcomes(c, reg, decay, pkgMeta, OsvTableFor(c, db), deps));
          Ok(Summary(c.package, version, Mean(Firsts(ok)), Mean(Seconds(ok)), |deps|))
  }

  /**
   * No dependencies give zeros; otherwise `num_dependencies` counts every
   * declared dependency while TTU and TTR average only those that did not
   * raise — all of them exactly when none raised.
   */
  lemma AnalysisAggregates(c: Config, reg: Registry, decay: (real, real) -> real, db: Option<seq<VulnRecord>>,
                           pkgMeta: Metadata, version: string, data: VersionData)
    requires FetchMetadata(c, reg, c.package) == Ok(pkgMeta)
    requires VersionAtDate(c, reg, pkgMeta) == Ok((version, data))
    ensures var deps := Dependencies(c, reg, data);
      var r := Analysis(c, reg, decay, db);
      var outcomes := Outcomes(c, reg, decay, pkgMeta, OsvTableFor(c, db), deps);
      && r.Ok? && r.value.package == c.package && r.value.version == version
      && (deps == [] ==> r.value.ttu == Some(0.0) && r.value.ttr == Some(0.0) && r.value.numDependencies == 0)
      && (deps != [] ==> (r.value.numDependencies == |deps|
                      && r.value.ttu == Mean(Firsts(Present(outcomes))) && r.value.ttr == Mean(Seconds(Present(outcomes)))))
      && (|Present(outcomes)| == |deps| <==> forall k :: 0 <= k < |deps| ==> DependencyOutcome(c, reg, decay, pkgMeta, OsvTableFor(c, db), deps[k].0).Some?)
  {
    var deps := Dependencies(c, reg, data);
    var outcomes := Outcomes(c, reg, decay, pkgMeta, OsvTableFor(c, db), deps);
    PresentComplete(outcomes);
  }

  /** The body of the per-dependency `try` in `analyze`: None when fetching or analysing raised. */
  method AnalyzeOne(c: Config, reg: Registry, decay: (real, real) -> real, pkgMeta: Metadata, table: VulnTable, dependency: string)
    returns (r: Option<(Option<real>, Option<real>)>)
    ensures r == DependencyOutcome(c, reg, decay, pkgMeta, table, dependency)
  {
    var depMetadata := FetchMetadata(c, reg, dependency);
    if depMetadata.Err? {
      return None;
    }
    var depRows := AnalyzeDependency(c, reg, decay, dependency, pkgMeta, depMetadata.value, table);
    if depRows.Err? {
      return None;
    }
    r := Some(CalculateTtuTtr(c, depRows.value));
  }

  /** The dependency loop of `analyze`: the TTU and TTR of every dependency that did not raise, in dict order. */
  method CollectMetrics(c: Config, reg: Registry, decay: (real, real) -> real, pkgMeta: Metadata, table: VulnTable, dependencies: Dict<string, string>)
    returns (ttuValues: seq<Option<real>>, ttrValues: seq<Option<real>>)
    ensures ttuValues == Firsts(Present(Outcomes(c, reg, decay, pkgMeta, table, dependencies)))
    ensures ttrValues == Seconds(Present(Outcomes(c, reg, decay, pkgMeta, table, dependencies)))
  {
    ghost var outcomes := Outcomes(c, reg, decay, pkgMeta, table, dependencies);
    ttuValues := [];
    ttrValues := [];
    var i := 0;
    while i < |dependencies|
      invariant 0 <= i <= |dependencies|
      invariant ttuValues == Firsts(Present(outcomes[..i]))
      invariant ttrValues == Seconds(Present(outcomes[..i]))
    {
      var outcome := AnalyzeOne(c, reg, decay, pkgMeta, table, dependencies[i].0);
      MetricsStep(outcomes, i, ttuValues, ttrValues, outcome);
      if outcome.Some? {
        ttuValues := ttuValues + [outcome.value.0];
        ttrValues := ttrValues + [outcome.value.1];
      }
      i := i + 1;
    }
    assert outcomes[..i] == outcomes;
  }

  /** One step of the dependency loop: a present outcome appends its TTU and TTR, a missing one changes nothing. */
  lemma MetricsStep(outcomes: seq<Option<(Option<real>, Option<real>)>>, i: int, ttuValues: seq<Option<real>>, ttrValues: seq<Option<real>>,
                    outcome: Option<(Option<real>, Option<real>)>)
    requires 0 <= i < |outcomes| && outcome == outcomes[i]
    requires ttuValues == Firsts(Present(outcomes[..i])) && ttrValues == Seconds(Present(outcomes[..i]))
    ensures outcome.Some? ==> (ttuValues + [outcome.value.0] == Firsts(Present(outcomes[..i + 1]))
                            && ttrValues + [outcome.value.1] == Seconds(Present(outcomes[..i + 1])))
    ensures outcome.None? ==> ttuValues == Firsts(Present(outcomes[..i + 1])) && ttrValues == Seconds(Present(outcomes[..i + 1]))
  {
    PresentAppend(outcomes[..i], outcomes[i]);
    assert outcomes[..i + 1] == outcomes[..i] + [outcomes[i]];
  }

  method Analyze(c: Config, reg: Registry, decay: (real, real) -> real, db: Option<seq<VulnRecord>>) returns (r: Result<Summary>)
    ensures r == Analysis(c, reg, decay, db)
  {
    var pkgMetadata := FetchMetadata(c, reg, c.package);
    if pkgMetadata.Err? {
      return Err(pkgMetadata.error);
    }
    var atDate := GetPackageVersionAtDate(c, reg, pkgMetadata.value);
    if atDate.Err? {
      return Err(atDate.error);
    }
    var (pkgVersion, versionData) := atDate.value;
    var dependencies := ExtractDependencies(c, reg, versionData);
    if |dependencies| == 0 {
      return Ok(Summary(c.package, pkgVersion, Some(0.0), Some(0.0), 0));
    }
    var osv := OsvTableFor(c, db);
    var ttuValues, ttrValues := CollectMetrics(c, reg, decay, pkgMetadata.value, osv, dependencies);
    r := Ok(Summary(c.package, pkgVersion, Mean(ttuValues), Mean(ttrValues), |dependencies|));
  }
}
