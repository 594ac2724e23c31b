/**
 * `resolvers.py`: the read-through caches shared by the resolvers, and the npm
 * and PyPI resolvers.  Registry requests, `npm view` subprocesses, the
 * pip-backed constraint resolver and the `packaging` parsers are oracles
 * gathered in a `Registry` value; what is modelled is the bookkeeping and the
 * selection logic around them.
 */
module Resolvers {
  import opened Wrappers
  import opened Dicts
  import opened Models
  import opened Versions
  import opened Sorting
  import opened Selection
  import opened Seqs

  /** The outcome of `npm view <pkg> time --json`. */
  datatype NpmTimeOutcome =
    | TimeExitFailure                        // non-zero exit status
    | TimeRaised(error: string)              // timeout, no npm binary, undecodable JSON
    | TimeOutput(data: Dict<string, string>)

  /** The outcome of `npm view <dep>@<constraint> version --json --before <instant>`. */
  datatype NpmVersionOutcome =
    | VersionExitFailure
    | VersionRaised(error: string)
    | VersionBlank                           // exit status 0, nothing printed
    | VersionJsonString(version: string)
    | VersionJsonList(versions: seq<string>)

  /** A PEP 508 requirement as `packaging` parses it; `specifier` is `str(requirement.specifier)`. */
  datatype Requirement = Requirement(name: string, hasExtras: bool, specifier: string, hasMarker: bool)

  /** The outside world a resolver talks to. */
  datatype Registry = Registry(
    fetch: (string, string) -> Result<Metadata>,            // GET of (ecosystem, name) metadata, raise_for_status
    fetchVersion: (string, string) -> Result<seq<string>>,  // PyPI per-version JSON: info.requires_dist
    npmTime: string -> NpmTimeOutcome,
    npmVersion: (string, string, int) -> NpmVersionOutcome,
    pypiResolve: (string, string, int) -> Result<Option<string>>,
    parseTs: string -> Option<int>,
    parseVer: string -> Option<Version>,
    parseReq: string -> Option<Requirement>)

  // ---------------------------------------------------------------------------
  // Read-through caching
  // ---------------------------------------------------------------------------

  /** What a read-through lookup returns: the stored value on a hit, otherwise the load. */
  function Lookup<K, V>(cached: map<K, V>, key: K, load: Result<V>): (r: Result<V>)
    ensures key in cached ==> r == Ok(cached[key])
    ensures key !in cached ==> r == load
  {
    if key in cached then Ok(cached[key]) else load
  }

  /**
   * The cache after a read-through lookup: a hit leaves it as it was, a
   * successful load is stored, a failed one is not; no other key changes, and
   * the next lookup of the same key returns what this one returned.
   */
  function Store<K, V>(cached: map<K, V>, key: K, load: Result<V>): (r: map<K, V>)
    ensures key in cached ==> r == cached
    ensures r.Keys == if Lookup(cached, key, load).Ok? then cached.Keys + {key} else cached.Keys
    ensures forall k :: k in cached && k != key ==> r[k] == cached[k]
    ensures Lookup(cached, key, load).Ok? ==> key in r && Ok(r[key]) == Lookup(cached, key, load)
  {
    if key in cached then cached
    else if load.Ok? then cached[key := load.value]
    else cached
  }

  /** `time_data.pop('modified', None); time_data.pop('created', None)`. */
  predicate NoTimeKeys(d: Dict<string, string>)
  {
    !HasKey(d, "modified") && !HasKey(d, "created")
  }

  function StripTimeKeys(d: Dict<string, string>): (r: Dict<string, string>)
    ensures NoTimeKeys(r)
    ensures forall k :: k != "modified" && k != "created" ==> Get(r, k) == Get(d, k)
    ensures forall i :: 0 <= i < |r| ==> r[i] in d
  {
    if d == [] then []
    else
      var rest := StripTimeKeys(d[1..]);
      if d[0].0 == "modified" || d[0].0 == "created" then rest
      else
        HasKeyCons(d[0], rest, "modified");
        HasKeyCons(d[0], rest, "created");
        [d[0]] + rest
  }

  /** `_get_npm_time_data` on a cache miss: a failed exit is None, an exception propagates. */
  function TimeLoad(outcome: NpmTimeOutcome): (r: Result<Option<Dict<string, string>>>)
    ensures r.Ok? && r.value.Some? ==> NoTimeKeys(r.value.value)
    ensures r.Err? <==> outcome.TimeRaised?
    ensures r == Ok(None) <==> outcome.TimeExitFailure?
  {
    match outcome
    case TimeExitFailure => Ok(None)
    case TimeRaised(e) => Err(e)
    case TimeOutput(d) => Ok(Some(StripTimeKeys(d)))
  }

  /** The time data a lookup yields: only real data is ever cached. */
  function TimeLookup(cached: map<string, Dict<string, string>>, name: string, outcome: NpmTimeOutcome): Result<Option<Dict<string, string>>>
  {
    if name in cached then Ok(Some(cached[name])) else TimeLoad(outcome)
  }

  function TimeStore(cached: map<string, Dict<string, string>>, name: string, outcome: NpmTimeOutcome): (r: map<string, Dict<string, string>>)
    ensures name in cached ==> r == cached
    ensures name !in cached && outcome.TimeOutput? ==> r == cached[name := StripTimeKeys(outcome.data)]
    ensures name !in cached && !outcome.TimeOutput? ==> r == cached
  {
    if name in cached then cached
    else match outcome
      case TimeOutput(d) => cached[name := StripTimeKeys(d)]
      case _ => cached
  }

  /** The time data callers use: `if time_data:` treats None, `{}` and a caught exception alike. */
  function TimeData(td: Result<Option<Dict<string, string>>>): Dict<string, string>
  {
    if td.Ok? && td.value.Some? then td.value.value else []
  }

  /**
   * `resolve_dependency_version` on an npm cache miss: a failure or a blank
   * output resolves to None, a JSON list to its last element, and an empty
   * list raises IndexError, which nothing catches.
   */
  function ResolveLoad(outcome: NpmVersionOutcome): (r: Result<Option<string>>)
    ensures r.Err? <==> outcome == VersionJsonList([])
    ensures r.Ok? && r.value.Some? ==> (outcome.VersionJsonString? || (outcome.VersionJsonList? && r.value.value == outcome.versions[|outcome.versions| - 1]))
    ensures r == Ok(None) <==> (outcome.VersionExitFailure? || outcome.VersionRaised? || outcome.VersionBlank?)
  {
    match outcome
    case VersionJsonString(v) => Ok(Some(v))
    case VersionJsonList(vs) => if vs == [] then Err("list index out of range") else Ok(Some(vs[|vs| - 1]))
    case _ => Ok(None)
  }

  /** The cache key `f"{package}@{version}"` of the PyPI per-version caches. */
  function VersionKey(package: string, version: string): string
  {
    package + "@" + version
  }

  /** `ResolverCache`: the shared in-memory caches (the HTTP session is not modelled). */
  class ResolverCache {
    var metadataCache: map<(string, string), Metadata>
    var pypiVersionMetadataCache: map<string, seq<string>>
    var pypiVersionDepsCache: map<string, Dict<string, string>>
    var npmTimeCache: map<string, Dict<string, string>>
    var npmResolveCache: map<(string, string, int), Option<string>>

    /** Stored time data has had its bookkeeping keys removed; stored dependency maps are dicts. */
    ghost predicate Valid()
      reads this
    {
      && (forall name :: name in npmTimeCache ==> NoTimeKeys(npmTimeCache[name]))
      && (forall key :: key in pypiVersionDepsCache ==> DistinctKeys(pypiVersionDepsCache[key]))
    }

    constructor()
      ensures Valid()
      ensures metadataCache == map[] && pypiVersionMetadataCache == map[] && pypiVersionDepsCache == map[]
      ensures npmTimeCache == map[] && npmResolveCache == map[]
    {
      metadataCache := map[];
      pypiVersionMetadataCache := map[];
      pypiVersionDepsCache := map[];
      npmTimeCache := map[];
      npmResolveCache := map[];
    }

    /** The cache logic of `fetch_package_metadata`, keyed by (ecosystem, name). */
    method FetchMetadata(ecosystem: string, name: string, fetch: (string, string) -> Result<Metadata>) returns (r: Result<Metadata>)
      requires Valid()
      modifies this
      ensures Valid()
      ensures r == Lookup(old(metadataCache), (ecosystem, name), fetch(ecosystem, name))
      ensures metadataCache == Store(old(metadataCache), (ecosystem, name), fetch(ecosystem, name))
      ensures unchanged(this`pypiVersionMetadataCache, this`pypiVersionDepsCache, this`npmTimeCache, this`npmResolveCache)
    {
      var key := (ecosystem, name);
      if key in metadataCache {
        return Ok(metadataCache[key]);
      }
      r := fetch(ecosystem, name);
      if r.Ok? {
        metadataCache := metadataCache[key := r.value];
      }
    }
  }

  // ---------------------------------------------------------------------------
  // PyPI requirement filtering (shared by resolvers.py and analyzer.py)
  // ---------------------------------------------------------------------------

  /** Whether `extract_dependencies` keeps a parsed requirement; the analyzer also drops those with markers. */
  predicate Kept(q: Requirement, dropMarkers: bool)
  {
    !q.hasExtras && !(dropMarkers && q.hasMarker)
  }

  /** The constraint recorded for a requirement: its specifier, `"*"` when it has none. */
  function Constraint(q: Requirement): (r: string)
    ensures r != ""
    ensures q.specifier != "" ==> r == q.specifier
  {
    if q.specifier != "" then q.specifier else "*"
  }

  /** Requirement text `s` parses and is kept under the name `n`. */
  predicate KeptAs(s: string, parseReq: string -> Option<Requirement>, dropMarkers: bool, n: string)
  {
    parseReq(s).Some? && Kept(parseReq(s).value, dropMarkers) && parseReq(s).value.name == n
  }

  /** The dependency dict `extract_dependencies` builds from `requires_dist`, entry by entry. */
  function PypiDependencies(reqs: seq<string>, parseReq: string -> Option<Requirement>, dropMarkers: bool): (r: Dict<string, string>)
    ensures DistinctKeys(r)
  {
    if reqs == [] then []
    else
      var rest := PypiDependencies(reqs[..|reqs| - 1], parseReq, dropMarkers);
      var q := parseReq(reqs[|reqs| - 1]);
      if q.Some? && Kept(q.value, dropMarkers) then
        PutKeepsDistinct(rest, q.value.name, Constraint(q.value));
        Put(rest, q.value.name, Constraint(q.value))
      else rest
  }

  /** A name is present iff some requirement text parses and is kept under it. */
  lemma {:induction false} PypiDependenciesHas(reqs: seq<string>, parseReq: string -> Option<Requirement>, dropMarkers: bool, n: string)
    ensures Get(PypiDependencies(reqs, parseReq, dropMarkers), n).Some? <==>
      exists i :: 0 <= i < |reqs| && KeptAs(reqs[i], parseReq, dropMarkers, n)
  {
    if reqs != [] {
      var p := reqs[..|reqs| - 1];
      PypiDependenciesHas(p, parseReq, dropMarkers, n);
      assert reqs == p + [reqs[|reqs| - 1]];
      var q := parseReq(reqs[|reqs| - 1]);
      if q.Some? && Kept(q.value, dropMarkers) {
        PutGet(PypiDependencies(p, parseReq, dropMarkers), q.value.name, Constraint(q.value), n);
      }
    }
  }

  /**
   * The constraint of a name is that of the LAST requirement kept under it:
   * later entries overwrite earlier ones.
   */
  lemma {:induction false} PypiDependenciesLast(reqs: seq<string>, parseReq: string -> Option<Requirement>, dropMarkers: bool, n: string, i: int)
    requires 0 <= i < |reqs| && KeptAs(reqs[i], parseReq, dropMarkers, n)
    requires forall j :: i < j < |reqs| ==> !KeptAs(reqs[j], parseReq, dropMarkers, n)
    ensures Get(PypiDependencies(reqs, parseReq, dropMarkers), n) == Some(Constraint(parseReq(reqs[i]).value))
  {
    var p := reqs[..|reqs| - 1];
    var q := parseReq(reqs[|reqs| - 1]);
    if q.Some? && Kept(q.value, dropMarkers) {
      PutGet(PypiDependencies(p, parseReq, dropMarkers), q.value.name, Constraint(q.value), n);
    }
    if i < |reqs| - 1 {
      assert forall j :: i < j < |p| ==> p[j] == reqs[j];
      PypiDependenciesLast(p, parseReq, dropMarkers, n, i);
    }
  }

  /** The parse of the four requirement strings of the repository's `requires_dist` example. */
  function ExampleRequirement(s: string): Option<Requirement>
  {
    if s == "requests>=2.0" then Some(Requirement("requests", false, ">=2.0", false))
    else if s == "urllib3 (>=1.26); python_version < '4'" then Some(Requirement("urllib3", false, ">=1.26", true))
    else if s == "numpy[extra]>=1.0" then Some(Requirement("numpy", true, ">=1.0", false))
    else if s == "pandas" then Some(Requirement("pandas", false, "", false))
    else None
  }

  /**
   * On that example the resolver keeps the marker requirement `urllib3` and the
   * analyzer drops it; the extras requirement is dropped by both and `pandas`
   * gets `"*"`.
   */
  lemma ExtractMarkerDisagreement()
    ensures var reqs := ["requests>=2.0", "urllib3 (>=1.26); python_version < '4'", "numpy[extra]>=1.0", "pandas"];
      && PypiDependencies(reqs, ExampleRequirement, false) == [("requests", ">=2.0"), ("urllib3", ">=1.26"), ("pandas", "*")]
      && PypiDependencies(reqs, ExampleRequirement, true) == [("requests", ">=2.0"), ("pandas", "*")]
  {
    var reqs := ["requests>=2.0", "urllib3 (>=1.26); python_version < '4'", "numpy[extra]>=1.0", "pandas"];
    assert reqs[..3][..2][..1][..0] == [];
    assert reqs[..3][..2][..1] == ["requests>=2.0"];
    assert reqs[..3][..2] == ["requests>=2.0", "urllib3 (>=1.26); python_version < '4'"];
    assert reqs[..3] == ["requests>=2.0", "urllib3 (>=1.26); python_version < '4'", "numpy[extra]>=1.0"];
    assert PypiDependencies(reqs[..3][..2][..1], ExampleRequirement, false) == [("requests", ">=2.0")];
    assert PypiDependencies(reqs[..3][..2][..1], ExampleRequirement, true) == [("requests", ">=2.0")];
    assert ExampleRequirement(reqs[1]) == Some(Requirement("urllib3", false, ">=1.26", true));
    assert Put([("requests", ">=2.0")], "urllib3", ">=1.26") == [("requests", ">=2.0"), ("urllib3", ">=1.26")];
    assert PypiDependencies(reqs[..3][..2], ExampleRequirement, false) == [("requests", ">=2.0"), ("urllib3", ">=1.26")];
    assert PypiDependencies(reqs[..3][..2], ExampleRequirement, true) == [("requests", ">=2.0")];
    assert ExampleRequirement(reqs[2]).value.hasExtras;
    assert PypiDependencies(reqs[..3], ExampleRequirement, false) == [("requests", ">=2.0"), ("urllib3", ">=1.26")];
    assert ExampleRequirement(reqs[3]) == Some(Requirement("pandas", false, "", false));
    assert Put([("requests", ">=2.0"), ("urllib3", ">=1.26")], "pandas", "*") == [("requests", ">=2.0"), ("urllib3", ">=1.26"), ("pandas", "*")];
    assert Put([("requests", ">=2.0")], "pandas", "*") == [("requests", ">=2.0"), ("pandas", "*")];
  }

  /** The message `get_highest_semver_version_at_date` re-raises any failure with. */
  const HighestErrorPrefix := "Error getting highest semver version for "

  function HighestError(packageName: string, e: string): (r: string)
    ensures |r| == |HighestErrorPrefix| + |packageName| + 2 + |e|
    ensures r[..|HighestErrorPrefix|] == HighestErrorPrefix
    ensures r[|HighestErrorPrefix|..|HighestErrorPrefix| + |packageName|] == packageName
    ensures r[|HighestErrorPrefix| + |packageName|..|r| - |e|] == ": "
    ensures r[|r| - |e|..] == e
  {
    HighestErrorPrefix + packageName + ": " + e
  }

  function WrapHighest(packageName: string, r: Result<Option<string>>): Result<Option<string>>
  {
    if r.Err? then Err(HighestError(packageName, r.error)) else r
  }

  const NoVersionsError := "No versions found before end date"

  // ---------------------------------------------------------------------------
  // npm
  // ---------------------------------------------------------------------------

  /** `_parse_versions_from_metadata`: the latest `versions` entry published at or before `end`. */
  function NpmLatestFromMetadata(meta: Metadata, end: int, parseTs: string -> Option<int>): (r: Result<(string, NpmVersionData)>)
    ensures r.Err? <==> Latest(VersionsView(meta, parseTs), end).None?
    ensures r.Ok? ==> Latest(VersionsView(meta, parseTs), end).value.0 == r.value.0 && r.value.1 == NpmEntry(meta, r.value.0)
  {
    match Latest(VersionsView(meta, parseTs), end)
    case None => Err(NoVersionsError)
    case Some((v, _)) => Ok((v, NpmEntry(meta, v)))
  }

  /**
   * `get_package_version_at_date` for npm: the latest version by `npm view`
   * time data when that data names one at or before `end`, otherwise the
   * metadata fallback.
   */
  function NpmVersionAtDate(td: Result<Option<Dict<string, string>>>, meta: Metadata, end: int, parseTs: string -> Option<int>): (r: Result<(string, NpmVersionData)>)
  {
    match Latest(TimeDataView(TimeData(td), parseTs), end)
    case Some((v, _)) => Ok((v, NpmEntry(meta, v)))
    case None => NpmLatestFromMetadata(meta, end, parseTs)
  }

  /**
   * The npm version at a date fails iff neither source knows a version
   * released at or before `end`; otherwise it is released at or before `end`
   * and nothing in the source it came from is later.
   */
  lemma NpmVersionAtDateIsLatest(td: Result<Option<Dict<string, string>>>, meta: Metadata, end: int, parseTs: string -> Option<int>)
    ensures var r := NpmVersionAtDate(td, meta, end, parseTs);
      var timeView := TimeDataView(TimeData(td), parseTs);
      var metaView := VersionsView(meta, parseTs);
      && (r.Err? <==> AtOrBefore(timeView, end) == [] && AtOrBefore(metaView, end) == [])
      && (r.Ok? && AtOrBefore(timeView, end) != [] ==> LatestIn(timeView, end, r.value.0))
      && (r.Ok? && AtOrBefore(timeView, end) == [] ==> LatestIn(metaView, end, r.value.0))
  {
    var timeView := TimeDataView(TimeData(td), parseTs);
    var metaView := VersionsView(meta, parseTs);
    if Latest(timeView, end).Some? {
      LatestIsLatest(timeView, end);
    } else if Latest(metaView, end).Some? {
      LatestIsLatest(metaView, end);
    }
  }

  /** Version `v` has a release instant at or before `end` that no other release at or before `end` exceeds. */
  ghost predicate LatestIn(view: ReleaseView, end: int, v: string)
  {
    exists t :: t <= end && (v, Some(t)) in view &&
      forall k :: 0 <= k < |view| && view[k].1.Some? && view[k].1.value <= end ==> view[k].1.value <= t
  }

  /** `get_all_versions_with_dates` for npm, given the time data the call obtained (`Ok(None)` when no package name was given). */
  function NpmAllVersions(td: Result<Option<Dict<string, string>>>, meta: Metadata, name: string, start: int, end: int, parseTs: string -> Option<int>): (r: seq<PackageVersion>)
    ensures Sorted(r, ReleasedLe)
    ensures TimeData(td) != [] ==> multiset(r) == multiset(InWindow(TimeDataView(TimeData(td), parseTs), name, start, end))
    ensures TimeData(td) == [] ==> multiset(r) == multiset(InWindow(VersionsView(meta, parseTs), name, start, end))
  {
    if TimeData(td) != [] then WindowVersions(TimeDataView(TimeData(td), parseTs), name, start, end)
    else WindowVersions(VersionsView(meta, parseTs), name, start, end)
  }

  /** The candidates of the npm highest-version lookup: from time data, or from metadata when that yields none. */
  function NpmHighestCandidates(td: Result<Option<Dict<string, string>>>, meta: Metadata, at: int, parseTs: string -> Option<int>): (r: seq<string>)
    ensures Firsts(AtOrBefore(TimeDataView(TimeData(td), parseTs), at)) != [] ==> r == Firsts(AtOrBefore(TimeDataView(TimeData(td), parseTs), at))
    ensures Firsts(AtOrBefore(TimeDataView(TimeData(td), parseTs), at)) == [] ==> r == Firsts(AtOrBefore(VersionsView(meta, parseTs), at))
  {
    var fromTime := Firsts(AtOrBefore(TimeDataView(TimeData(td), parseTs), at));
    if fromTime != [] then fromTime else Firsts(AtOrBefore(VersionsView(meta, parseTs), at))
  }

  class NpmResolver {
    const package: string
    const startDate: int
    const endDate: int
    const cache: ResolverCache
    const registry: Registry

    constructor(package: string, startDate: int, endDate: int, cache: ResolverCache, registry: Registry)
      ensures this.package == package && this.startDate == startDate && this.endDate == endDate
      ensures this.cache == cache && this.registry == registry
    {
      this.package := package;
      this.startDate := startDate;
      this.endDate := endDate;
      this.cache := cache;
      this.registry := registry;
    }

    method FetchPackageMetadata(packageName: string) returns (r: Result<Metadata>)
      requires cache.Valid()
      modifies cache
      ensures cache.Valid()
      ensures r == Lookup(old(cache.metadataCache), ("npm", packageName), registry.fetch("npm", packageName))
      ensures cache.metadataCache == Store(old(cache.metadataCache), ("npm", packageName), registry.fetch("npm", packageName))
      ensures unchanged(cache`pypiVersionMetadataCache, cache`pypiVersionDepsCache, cache`npmTimeCache, cache`npmResolveCache)
    {
      r := cache.FetchMetadata("npm", packageName, registry.fetch);
    }

    /** `_get_npm_time_data`: cached on success only; stored data never has `modified`/`created`. */
    method GetNpmTimeData(packageName: string) returns (r: Result<Option<Dict<string, string>>>)
      requires cache.Valid()
      modifies cache
      ensures cache.Valid()
      ensures r == TimeLookup(old(cache.npmTimeCache), packageName, registry.npmTime(packageName))
      ensures r.Ok? && r.value.Some? ==> NoTimeKeys(r.value.value)
      ensures cache.npmTimeCache == TimeStore(old(cache.npmTimeCache), packageName, registry.npmTime(packageName))
      ensures unchanged(cache`metadataCache, cache`pypiVersionMetadataCache, cache`pypiVersionDepsCache, cache`npmResolveCache)
    {
      if packageName in cache.npmTimeCache {
        return Ok(Some(cache.npmTimeCache[packageName]));
      }
      var outcome := registry.npmTime(packageName);
      match outcome {
        case TimeExitFailure =>
          r := Ok(None);
        case TimeRaised(e) =>
          r := Err(e);
        case TimeOutput(data) =>
          var timeData := StripTimeKeys(data);
          cache.npmTimeCache := cache.npmTimeCache[packageName := timeData];
          r := Ok(Some(timeData));
      }
    }

    /** `_parse_versions_from_metadata`. */
    method ParseVersionsFromMetadata(metadata: Metadata) returns (r: Result<(string, NpmVersionData)>)
      ensures r == NpmLatestFromMetadata(metadata, endDate, registry.parseTs)
    {
      var latest := SelectLatest(VersionsView(metadata, registry.parseTs), endDate);
      if latest.None? {
        return Err(NoVersionsError);
      }
      var version := latest.value.0;
      r := Ok((version, NpmEntry(metadata, version)));
    }

    /** `get_package_version_at_date`. */
    method GetPackageVersionAtDate(metadata: Metadata) returns (r: Result<(string, NpmVersionData)>)
      requires cache.Valid()
      modifies cache
      ensures cache.Valid()
      ensures r == NpmVersionAtDate(TimeLookup(old(cache.npmTimeCache), package, registry.npmTime(package)), metadata, endDate, registry.parseTs)
      ensures cache.npmTimeCache == TimeStore(old(cache.npmTimeCache), package, registry.npmTime(package))
      ensures unchanged(cache`metadataCache, cache`pypiVersionMetadataCache, cache`pypiVersionDepsCache, cache`npmResolveCache)
    {
      var td := GetNpmTimeData(package);
      if TimeData(td) != [] {
        var latest := SelectLatest(TimeDataView(TimeData(td), registry.parseTs), endDate);
        if latest.Some? {
          var version := latest.value.0;
          return Ok((version, NpmEntry(metadata, version)));
        }
      } else {
        assert TimeDataView(TimeData(td), registry.parseTs) == [];
      }
      r := ParseVersionsFromMetadata(metadata);
    }

    /** `get_all_versions_with_dates`: time data is consulted only when a package name is given. */
    method GetAllVersionsWithDates(metadata: Metadata, packageName: Option<string>) returns (r: seq<PackageVersion>)
      requires cache.Valid()
      modifies cache
      ensures cache.Valid()
      ensures packageName.Some? && packageName.value != "" ==>
        && r == NpmAllVersions(TimeLookup(old(cache.npmTimeCache), packageName.value, registry.npmTime(packageName.value)),
                               metadata, packageName.value, startDate, endDate, registry.parseTs)
        && cache.npmTimeCache == TimeStore(old(cache.npmTimeCache), packageName.value, registry.npmTime(packageName.value))
      ensures !(packageName.Some? && packageName.value != "") ==>
        && r == NpmAllVersions(Ok(None), metadata, package, startDate, endDate, registry.parseTs)
        && cache.npmTimeCache == old(cache.npmTimeCache)
      ensures unchanged(cache`metadataCache, cache`pypiVersionMetadataCache, cache`pypiVersionDepsCache, cache`npmResolveCache)
    {
      if packageName.Some? && packageName.value != "" {
        var td := GetNpmTimeData(packageName.value);
        if TimeData(td) != [] {
          r := CollectWindow(TimeDataView(TimeData(td), registry.parseTs), packageName.value, startDate, endDate);
          return;
        }
      }
      var name := if packageName.Some? && packageName.value != "" then packageName.value else package;
      r := CollectWindow(VersionsView(metadata, registry.parseTs), name, startDate, endDate);
    }

    /** `resolve_dependency_version`: the result, None included, is cached per (dependency, constraint, instant). */
    method ResolveDependencyVersion(dependency: string, constraint: string, before: int) returns (r: Result<Option<string>>)
      requires cache.Valid()
      modifies cache
      ensures cache.Valid()
      ensures r == Lookup(old(cache.npmResolveCache), (dependency, constraint, before), ResolveLoad(registry.npmVersion(dependency, constraint, before)))
      ensures cache.npmResolveCache == Store(old(cache.npmResolveCache), (dependency, constraint, before), ResolveLoad(registry.npmVersion(dependency, constraint, before)))
      ensures r.Ok? ==> (dependency, constraint, before) in cache.npmResolveCache && cache.npmResolveCache[(dependency, constraint, before)] == r.value
      ensures unchanged(cache`metadataCache, cache`pypiVersionMetadataCache, cache`pypiVersionDepsCache, cache`npmTimeCache)
    {
      var key := (dependency, constraint, before);
      if key in cache.npmResolveCache {
        return Ok(cache.npmResolveCache[key]);
      }
      var resolved: Option<string> := None;
      match registry.npmVersion(dependency, constraint, before) {
        case VersionJsonString(v) =>
          resolved := Some(v);
        case VersionJsonList(vs) =>
          if vs == [] {
            return Err("list index out of range");
          }
          resolved := Some(vs[|vs| - 1]);
        case _ =>
      }
      cache.npmResolveCache := cache.npmResolveCache[key := resolved];
      r := Ok(resolved);
    }

    /** `get_highest_semver_version_at_date`: any failure comes back as one error carrying the package name. */
    method GetHighestSemverVersionAtDate(packageName: string, at: int, metadata: Option<Metadata>) returns (r: Result<Option<string>>)
      requires cache.Valid()
      modifies cache
      ensures cache.Valid()
      ensures var m := if metadata.Some? then Ok(metadata.value)
                       else Lookup(old(cache.metadataCache), ("npm", packageName), registry.fetch("npm", packageName));
        && (m.Err? ==> r == Err(HighestError(packageName, m.error)) && cache.npmTimeCache == old(cache.npmTimeCache))
        && (m.Ok? ==>
              && r == WrapHighest(packageName, HighestOf(
                        NpmHighestCandidates(TimeLookup(old(cache.npmTimeCache), packageName, registry.npmTime(packageName)),
                                             m.value, at, registry.parseTs), Id, registry.parseVer))
              && cache.npmTimeCache == TimeStore(old(cache.npmTimeCache), packageName, registry.npmTime(packageName)))
      ensures cache.metadataCache == if metadata.Some? then old(cache.metadataCache)
                                     else Store(old(cache.metadataCache), ("npm", packageName), registry.fetch("npm", packageName))
      ensures unchanged(cache`pypiVersionMetadataCache, cache`pypiVersionDepsCache, cache`npmResolveCache)
    {
      var meta: Metadata;
      if metadata.Some? {
        meta := metadata.value;
      } else {
        var fetched := FetchPackageMetadata(packageName);
        if fetched.Err? {
          return Err(HighestError(packageName, fetched.error));
        }
        meta := fetched.value;
      }
      var td := GetNpmTimeData(packageName);
      var validVersions := CollectAtOrBefore(TimeDataView(TimeData(td), registry.parseTs), at);
      if validVersions == [] {
        validVersions := CollectAtOrBefore(VersionsView(meta, registry.parseTs), at);
      }
      var highest := ChooseHighest(validVersions, Id, registry.parseVer);
      r := WrapHighest(packageName, highest);
    }

    /** `extract_dependencies`: the entry's `dependencies` dict. */
    function ExtractDependencies(versionData: NpmVersionData): (r: Dict<string, string>)
      ensures forall meta: Metadata, v :: versionData == NpmEntry(meta, v) && !HasKey(meta.versions, v) ==> r == []
      ensures forall meta: Metadata, v :: versionData == NpmEntry(meta, v) && HasKey(meta.versions, v) ==>
        r == Get(meta.versions, v).value.dependencies
    {
      versionData.dependencies
    }

    /** `get_version_dependencies`: the `dependencies` of a listed version, `{}` for an unlisted one. */
    method GetVersionDependencies(packageName: string, version: string) returns (r: Result<Dict<string, string>>)
      requires cache.Valid()
      modifies cache
      ensures cache.Valid()
      ensures var m := Lookup(old(cache.metadataCache), ("npm", packageName), registry.fetch("npm", packageName));
        && (m.Err? ==> r == Err(m.error))
        && (m.Ok? && HasKey(m.value.versions, version) ==> r == Ok(Get(m.value.versions, version).value.dependencies))
        && (m.Ok? && !HasKey(m.value.versions, version) ==> r == Ok([]))
      ensures cache.metadataCache == Store(old(cache.metadataCache), ("npm", packageName), registry.fetch("npm", packageName))
      ensures unchanged(cache`pypiVersionMetadataCache, cache`pypiVersionDepsCache, cache`npmTimeCache, cache`npmResolveCache)
    {
      var metadata := FetchPackageMetadata(packageName);
      if metadata.Err? {
        return Err(metadata.error);
      }
      r := Ok(ExtractDependencies(NpmEntry(metadata.value, version)));
    }
  }

  // ---------------------------------------------------------------------------
  // PyPI
  // ---------------------------------------------------------------------------

  /**
   * PyPI `get_package_version_at_date`: the latest release uploaded at or
   * before `end`, with its upload instant and the `requires_dist` of its
   * per-version metadata (`[]` when that cannot be fetched).
   */
  function PypiVersionAtDate(meta: Metadata, end: int, parseTs: string -> Option<int>, requiresDist: string -> Result<seq<string>>): (r: Result<(string, VersionData)>)
    ensures r.Err? <==> AtOrBefore(ReleasesView(meta, parseTs), end) == []
    ensures r.Ok? ==> r.value.1.PypiData? && Latest(ReleasesView(meta, parseTs), end) == Some((r.value.0, r.value.1.uploadTime))
    ensures r.Ok? ==> r.value.1.requiresDist == match requiresDist(r.value.0) case Ok(reqs) => reqs case Err(_) => []
  {
    match Latest(ReleasesView(meta, parseTs), end)
    case None => Err(NoVersionsError)
    case Some((v, t)) =>
      var reqs := match requiresDist(v) case Ok(reqs) => reqs case Err(_) => [];
      Ok((v, PypiData(t, reqs)))
  }

  class PyPIResolver {
    const package: string
    const startDate: int
    const endDate: int
    const cache: ResolverCache
    const registry: Registry

    constructor(package: string, startDate: int, endDate: int, cache: ResolverCache, registry: Registry)
      ensures this.package == package && this.startDate == startDate && this.endDate == endDate
      ensures this.cache == cache && this.registry == registry
    {
      this.package := package;
      this.startDate := startDate;
      this.endDate := endDate;
      this.cache := cache;
      this.registry := registry;
    }

    method FetchPackageMetadata(packageName: string) returns (r: Result<Metadata>)
      requires cache.Valid()
      modifies cache
      ensures cache.Valid()
      ensures r == Lookup(old(cache.metadataCache), ("pypi", packageName), registry.fetch("pypi", packageName))
      ensures cache.metadataCache == Store(old(cache.metadataCache), ("pypi", packageName), registry.fetch("pypi", packageName))
      ensures unchanged(cache`pypiVersionMetadataCache, cache`pypiVersionDepsCache, cache`npmTimeCache, cache`npmResolveCache)
    {
      r := cache.FetchMetadata("pypi", packageName, registry.fetch);
    }

    /** `_get_pypi_version_metadata`: cached per `package@version` on success only. */
    method GetPypiVersionMetadata(packageName: string, version: string) returns (r: Result<seq<string>>)
      requires cache.Valid()
      modifies cache
      ensures cache.Valid()
      ensures r == Lookup(old(cache.pypiVersionMetadataCache), VersionKey(packageName, version), registry.fetchVersion(packageName, version))
      ensures cache.pypiVersionMetadataCache == Store(old(cache.pypiVersionMetadataCache), VersionKey(packageName, version), registry.fetchVersion(packageName, version))
      ensures unchanged(cache`metadataCache, cache`pypiVersionDepsCache, cache`npmTimeCache, cache`npmResolveCache)
    {
      var key := VersionKey(packageName, version);
      if key in cache.pypiVersionMetadataCache {
        return Ok(cache.pypiVersionMetadataCache[key]);
      }
      r := registry.fetchVersion(packageName, version);
      if r.Ok? {
        cache.pypiVersionMetadataCache := cache.pypiVersionMetadataCache[key := r.value];
      }
    }

    /** `get_package_version_at_date`. */
    method GetPackageVersionAtDate(metadata: Metadata) returns (r: Result<(string, VersionData)>)
      requires cache.Valid()
      modifies cache
      ensures cache.Valid()
      ensures var cached := old(cache.pypiVersionMetadataCache);
        r == PypiVersionAtDate(metadata, endDate, registry.parseTs,
               v => Lookup(cached, VersionKey(package, v), registry.fetchVersion(package, v)))
      ensures r.Err? ==> cache.pypiVersionMetadataCache == old(cache.pypiVersionMetadataCache)
      ensures r.Ok? ==> (cache.pypiVersionMetadataCache ==
        Store(old(cache.pypiVersionMetadataCache), VersionKey(package, r.value.0), registry.fetchVersion(package, r.value.0)))
      ensures unchanged(cache`metadataCache, cache`pypiVersionDepsCache, cache`npmTimeCache, cache`npmResolveCache)
    {
      var latest := SelectLatest(ReleasesView(metadata, registry.parseTs), endDate);
      if latest.None? {
        return Err(NoVersionsError);
      }
      var (version, uploaded) := latest.value;
      var versionMetadata := GetPypiVersionMetadata(package, version);
      var reqs := if versionMetadata.Ok? then versionMetadata.value else [];
      r := Ok((version, PypiData(uploaded, reqs)));
    }

    /** `get_all_versions_with_dates`: the releases uploaded in `[start_date, end_date]`, by upload time. */
    method GetAllVersionsWithDates(metadata: Metadata, packageName: Option<string>) returns (r: seq<PackageVersion>)
      ensures var name := if packageName.Some? && packageName.value != "" then packageName.value else package;
        r == WindowVersions(ReleasesView(metadata, registry.parseTs), name, startDate, endDate)
    {
      var name := if packageName.Some? && packageName.value != "" then packageName.value else package;
      r := CollectWindow(ReleasesView(metadata, registry.parseTs), name, startDate, endDate);
    }

    /** `resolve_dependency_version`: the constraint resolver's answer, None when it fails. */
    method ResolveDependencyVersion(dependency: string, constraint: string, before: int) returns (r: Option<string>)
      ensures r.Some? <==> registry.pypiResolve(dependency, constraint, before).Ok? && registry.pypiResolve(dependency, constraint, before).value.Some?
      ensures r.Some? ==> registry.pypiResolve(dependency, constraint, before) == Ok(r)
    {
      var resolved := registry.pypiResolve(dependency, constraint, before);
      r := if resolved.Ok? then resolved.value else None;
    }

    /** `get_highest_semver_version_at_date`. */
    method GetHighestSemverVersionAtDate(packageName: string, at: int, metadata: Option<Metadata>) returns (r: Result<Option<string>>)
      requires cache.Valid()
      modifies cache
      ensures cache.Valid()
      ensures var m := if metadata.Some? then Ok(metadata.value)
                       else Lookup(old(cache.metadataCache), ("pypi", packageName), registry.fetch("pypi", packageName));
        && (m.Err? ==> r == Err(HighestError(packageName, m.error)))
        && (m.Ok? ==> r == WrapHighest(packageName, Highest(ReleasesView(m.value, registry.parseTs), at, registry.parseVer)))
      ensures cache.metadataCache == if metadata.Some? then old(cache.metadataCache)
                                     else Store(old(cache.metadataCache), ("pypi", packageName), registry.fetch("pypi", packageName))
      ensures unchanged(cache`pypiVersionMetadataCache, cache`pypiVersionDepsCache, cache`npmTimeCache, cache`npmResolveCache)
    {
      var meta: Metadata;
      if metadata.Some? {
        meta := metadata.value;
      } else {
        var fetched := FetchPackageMetadata(packageName);
        if fetched.Err? {
          return Err(HighestError(packageName, fetched.error));
        }
        meta := fetched.value;
      }
      var highest := SelectHighest(ReleasesView(meta, registry.parseTs), at, registry.parseVer);
      r := WrapHighest(packageName, highest);
    }

    /** `extract_dependencies`: requirements with markers are kept. */
    method ExtractDependencies(requiresDist: seq<string>) returns (deps: Dict<string, string>)
      ensures deps == PypiDependencies(requiresDist, registry.parseReq, false)
    {
      deps := [];
      var i := 0;
      while i < |requiresDist|
        invariant 0 <= i <= |requiresDist|
        invariant deps == PypiDependencies(requiresDist[..i], registry.parseReq, false)
      {
        assert requiresDist[..i + 1][..i] == requiresDist[..i];
        var requirement := registry.parseReq(requiresDist[i]);
        if requirement.Some? && !requirement.value.hasExtras {
          deps := Put(deps, requirement.value.name, Constraint(requirement.value));
        }
        i := i + 1;
      }
      assert requiresDist[..i] == requiresDist;
    }

    /** `get_version_dependencies`: cached per `package@version`, `{}` included when the metadata fetch fails. */
    method GetVersionDependencies(packageName: string, version: string) returns (r: Dict<string, string>)
      requires cache.Valid()
      modifies cache
      ensures cache.Valid()
      ensures var key := VersionKey(packageName, version);
        && (key in old(cache.pypiVersionDepsCache) ==>
              && r == old(cache.pypiVersionDepsCache)[key]
              && cache.pypiVersionDepsCache == old(cache.pypiVersionDepsCache)
              && cache.pypiVersionMetadataCache == old(cache.pypiVersionMetadataCache))
        && (key !in old(cache.pypiVersionDepsCache) ==>
              var m := Lookup(old(cache.pypiVersionMetadataCache), key, registry.fetchVersion(packageName, version));
              && r == (if m.Ok? then PypiDependencies(m.value, registry.parseReq, false) else [])
              && cache.pypiVersionDepsCache == old(cache.pypiVersionDepsCache)[key := r]
              && cache.pypiVersionMetadataCache == Store(old(cache.pypiVersionMetadataCache), key, registry.fetchVersion(packageName, version)))
      ensures VersionKey(packageName, version) in cache.pypiVersionDepsCache && cache.pypiVersionDepsCache[VersionKey(packageName, version)] == r
      ensures unchanged(cache`metadataCache, cache`npmTimeCache, cache`npmResolveCache)
    {
      var key := VersionKey(packageName, version);
      if key in cache.pypiVersionDepsCache {
        return cache.pypiVersionDepsCache[key];
      }
      var deps: Dict<string, string> := [];
      var versionMetadata := GetPypiVersionMetadata(packageName, version);
      if versionMetadata.Ok? {
        deps := ExtractDependencies(versionMetadata.value);
      }
      cache.pypiVersionDepsCache := cache.pypiVersionDepsCache[key := deps];
      r := deps;
    }
  }
}
