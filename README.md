# dependency-update-metrics, modelled in Dafny

The tool measures two things about a package's dependencies over a date window:
- **Time-To-Update (TTU)**: how long each dependency stayed behind its highest released version.
- **Time-To-Remediate (TTR)**: how long each dependency stayed on a version with a known vulnerability whose fix had already been released.

For each dependency it cuts the window into intervals at the release instants of the package and of the dependency. Each interval gets these fields:
- the parent version in force;
- the constraint that version declares;
- the resolved dependency version;
- an `updated` flag and a `remediated` flag;
- its age in whole days and a weight.

The intervals whose flag is false are summed, or averaged with the weights, into TTU and TTR. The per-dependency figures are then averaged over the dependencies that did not fail.

Vulnerability data comes from OSV documents. The `events` of each range are paired into (introduced, fixed) rows, and both versions are normalised to three components.

A bulk mode reads a CSV of (ecosystem, package, end date, optional start date) rows. It then:
- drops duplicate rows and groups the rest by package;
- processes each group in date order;
- writes one summary per row, ordered by CSV line.

## How the model is organised

One Dafny module per source component:

| module | file | models |
|---|---|---|
| `TimeUtils` | time_utils.dfy | `parse_timestamp` as an oracle and `build_intervals` |
| `OsvBuilder` | osv_builder.dfy | `transformation_semver`, the affected/ranges/events loops of `parse_osv_files`, and `get_vulnerabilities` |
| `OsvService` | osv_service.dfy | `is_remediated` and `get_version_release_date` |
| `Selection` | selection.dfy | the release-list loops that `resolvers.py` repeats: the window filter, latest-by-date and highest-by-version |
| `Resolvers` | resolvers.dfy | `ResolverCache` as a class of maps, and `NpmResolver` and `PyPIResolver` as classes over it |
| `Analyzer` | analyzer.dfy | `DependencyAnalyzer`: versions, weights, intervals, per-interval rows, TTU/TTR and the package-level averages |
| `Cli` | cli.dfy | the bulk path of `main`: CSV header handling, de-duplication, grouping, group order, `_process_row`, the worker count and the final order |
| `Models` | models.dfy | the records of `models.py` and the metadata shapes |
| `Wrappers`, `Dicts`, `Text`, `Sorting`, `Seqs`, `Versions` | | the Python building blocks the code relies on (see below) |

The building blocks are:
- `Dicts`: an insertion-ordered `dict`, as a sequence of pairs. Lookup takes the first pair with the key. `Put` on a dict with distinct keys keeps them distinct, and `FromPairs` always builds one with distinct keys. Metadata dicts given as input are not required to have distinct keys.
- `Text`: ASCII case mapping for `lower`/`upper`; `strip` with Python's white-space set (`str.isspace`); and the code-point order of `str`.
- `Sorting`: a stable insertion sort, standing for `sorted` and `list.sort`.
- `Versions`: a total order standing for `packaging.version.Version`.

How the source's values are represented:
- Instants are integer seconds; whole days are `(b - a) / 86400`, which floors like `timedelta.days`.
- Durations and weights are `real`.
- Everything that crosses the process boundary is a function-typed parameter. The `Registry` value holds:
  - the HTTP metadata fetches;
  - the `npm view` runs;
  - the pip-backed constraint resolver;
  - the ISO 8601, PEP 440 and PEP 508 parsers.

  The analyzer's `math.exp`/`math.log` is the `decay` parameter. In the bulk path, the analyzer, the `YYYY-MM-DD` parser and today's date are parameters too.

Imperative code stays imperative:
- The caches are fields of `ResolverCache` that the resolver methods update in place.
- Each collecting loop is a `method` with loop invariants, proved equal to the specification function that the lemmas are about. The loops covered are the release-list loops, the OSV event loops, the interval loop of `analyze_dependency`, the per-dependency loop of `analyze`, and de-duplication and grouping in `main`.

Where the tests and the code disagree, the model follows the code:
- `tests/test_pypi_resolver.py:4-24` expects `DependencyAnalyzer.extract_dependencies` to keep a requirement that carries an environment marker.
- `dependency_metrics/analyzer.py:267-268` drops it.
- `Resolvers.ExtractMarkerDisagreement` shows that the same input gives both answers: the resolver keeps the marker requirement and the analyzer drops it.

## Model

| member | source | states |
|---|---|---|
| TimeUtils.ParseTimestamp | dependency_metrics/time_utils.py:18-26 | an empty string is no timestamp; any other string is whatever the ISO 8601 parser yields (None when it raises ValueError) |
| TimeUtils.Pairs | dependency_metrics/time_utils.py:39 | `zip(q[:-1], q[1:])`: one pair fewer than elements, pair i being (q[i], q[i+1]) |
| TimeUtils.Boundaries | dependency_metrics/time_utils.py:35-37 | an instant is a boundary iff it is one of the dates, the start or the end |
| TimeUtils.BuildIntervals | dependency_metrics/time_utils.py:29-39 | every interval (a, b) has a < b, consecutive intervals share their end and start (no gap, no overlap), and there is one interval fewer than distinct boundaries |
| TimeUtils.PairsChain | dependency_metrics/time_utils.py:38-39 | pairing a strictly increasing list gives strictly increasing, contiguous pairs |
| TimeUtils.PairsEndpoints | dependency_metrics/time_utils.py:39 | an instant is an endpoint of some pair iff it is an element of the paired list |
| TimeUtils.BoundariesOfIntervals | dependency_metrics/time_utils.py:35-39 | the interval endpoints are exactly `dates ∪ {start, end}` |
| TimeUtils.EmptyIntervals | dependency_metrics/time_utils.py:35-39 | no interval iff start == end and every date is that instant |
| TimeUtils.IntervalsIgnoreOrderAndDuplicates | dependency_metrics/time_utils.py:35 | two date lists with the same members give the same intervals: order and repeats make no difference |
| TimeUtils.UniqueSortedDates | tests/test_pypi_resolver.py:104-121 | a later date listed first and an earlier date listed twice give the three sorted intervals start→early→late→end |
| TimeUtils.IntervalsAreCanonical | dependency_metrics/time_utils.py:38-39 | the result is the pairing of any strictly increasing listing of the boundary set |
| TimeUtils.IntervalsSpanWindow | dependency_metrics/time_utils.py:35-39 | with every date in [start, end], the first interval starts at start and the last ends at end |
| TimeUtils.IntervalsWithinWindow | dependency_metrics/time_utils.py:35-39 | with every date in [start, end], every interval lies inside [start, end] |
| TimeUtils.WindowedIntervals | dependency_metrics/time_utils.py:35-39 | with every date in [start, end], the intervals cover the window: none iff start == end, otherwise contiguous from start to end and inside it |
| TimeUtils.IntervalsAreNotClipped | dependency_metrics/time_utils.py:35-39 | a date before the start is not clipped: it becomes the first boundary, giving [(d, start), (start, end)] |
| OsvBuilder.DigitPrefix | dependency_metrics/osv_builder.py:83 | the length of the leading run of decimal digits, which the regular expression `\d+` consumes |
| OsvBuilder.TransformationSemver | dependency_metrics/osv_builder.py:70-86 | the result only appends "", ".0" or ".0.0"; no dot gives ".0.0" (so "0" gives "0.0.0"); one dot right after leading digits gives ".0"; anything else is unchanged |
| OsvBuilder.TransformationSemverExamples | tests/test_basic.py:69-72 | "0"→"0.0.0", "1"→"1.0.0", "1.2"→"1.2.0", "1.2.3" unchanged, and "v1.2" unchanged |
| OsvBuilder.TransformationSemverIdempotent | dependency_metrics/osv_builder.py:79-86 | normalising twice is normalising once |
| OsvBuilder.EventRecords | dependency_metrics/osv_builder.py:130-136 | every row of a range carries the document id, the upper-cased ecosystem and the package name |
| OsvBuilder.LastIntroducedIsMostRecent | dependency_metrics/osv_builder.py:121-125 | the tracked `vul_introduced` is v iff some event introduces v and no later event introduces anything |
| OsvBuilder.EventRecordsSound | dependency_metrics/osv_builder.py:123-136 | each row comes from a `fixed` event that has an `introduced` before it, paired with the most recent preceding `introduced` |
| OsvBuilder.EventRecordsComplete | dependency_metrics/osv_builder.py:123-136 | each `fixed` event preceded by an `introduced` yields its row |
| OsvBuilder.NoIntroducedNoRecords | dependency_metrics/osv_builder.py:121-128 | a range whose events never introduce a version yields no rows |
| OsvBuilder.PairingExamples | dependency_metrics/osv_builder.py:121-136 | consecutive `fixed` events share one `introduced`; a `fixed` before any `introduced` is dropped; a later `introduced` replaces an earlier one |
| OsvBuilder.EcosystemOf | dependency_metrics/osv_builder.py:113 | the stored ecosystem has no lower-case letter |
| OsvBuilder.EcosystemsUpperCase | dependency_metrics/osv_builder.py:109-136 | every row parsed from any set of files has an upper-case ecosystem |
| OsvBuilder.Normalize | dependency_metrics/osv_builder.py:145-147 | each row keeps its id, ecosystem and package, and both version columns are replaced by their normalised form |
| OsvBuilder.PairEvents | dependency_metrics/osv_builder.py:123-136 | the events loop appends exactly the paired rows of the range to `records` |
| OsvBuilder.CollectRange | dependency_metrics/osv_builder.py:116-136 | one range appends its paired rows, and nothing when it has no `events` |
| OsvBuilder.CollectRanges | dependency_metrics/osv_builder.py:115-136 | the ranges loop appends the rows of every range, in order |
| OsvBuilder.CollectAffectedEntry | dependency_metrics/osv_builder.py:110-136 | one affected entry appends its rows, and nothing without `package` or `ranges` |
| OsvBuilder.CollectAffected | dependency_metrics/osv_builder.py:109-136 | the affected loop appends the rows of every entry, in order |
| OsvBuilder.ParseOsvFiles | dependency_metrics/osv_builder.py:88-150 | the table is the rows of every readable file, in file order, after normalisation; unreadable files contribute nothing |
| OsvBuilder.FilterRows | dependency_metrics/osv_builder.py:203-208 | a row is kept iff its ecosystem is the upper-cased argument and its package is the argument |
| OsvBuilder.FilterRowsAppend | dependency_metrics/osv_builder.py:205-208 | the filter keeps the table's row order: filtering a concatenation concatenates the filtered parts |
| OsvBuilder.GetVulnerabilities | dependency_metrics/osv_builder.py:186-210 | a missing database file is an error; otherwise exactly the matching rows |
| OsvService.ReleaseDate | dependency_metrics/osv_service.py:62-88 | npm reads `versions[v].dist.published` and pypi reads `releases[v][0].upload_time`, both through the parser; a present, non-empty field gives exactly the parser's answer; a missing version, an empty field, a failed parse or another ecosystem gives None |
| OsvService.DepRows | dependency_metrics/osv_service.py:35 | exactly the rows whose package is the dependency |
| OsvService.NoBlockingRow | dependency_metrics/osv_service.py:44-59 | the loop runs to its end iff no row blocks: none has introduced ≤ current < fixed with a fix released at or before the interval start |
| OsvService.IsRemediated | dependency_metrics/osv_service.py:19-59 | no version means not remediated; an empty table, one without a `package` column, or no rows for the dependency means remediated; an unparsable version means not remediated (`_check_remediation`, analyzer.py:683-740, is the same check up to the timestamp parser) |
| OsvService.RemediatedIff | dependency_metrics/osv_service.py:44-59 | with a table and a parsable version: remediated iff no row of the dependency blocks |
| OsvService.RemediatedOrderFree | dependency_metrics/osv_service.py:44-59 | reordering the table's rows does not change the answer |
| OsvService.UnusableRowNeverBlocks | dependency_metrics/osv_service.py:45-57 | a row whose bounds do not parse, or whose fixed version has no known release date, never blocks |
| OsvService.UnusableRowNeverMatters | dependency_metrics/osv_service.py:44-59 | adding such a row to the table never changes the answer |
| OsvService.RemediationExamples | tests/test_osv.py:9-72 | a fix released before the interval start makes 1.5.0 in [1.0.0, 2.0.0) not remediated; a fix released after makes it remediated |
| Models.NpmEntry | dependency_metrics/resolvers.py:234 | `versions.get(v, {})`: the stored entry when the version is listed, otherwise an entry with no date and no dependencies |
| Selection.TimeDataView | dependency_metrics/resolvers.py:77-81 | one entry per `npm view time` key, in order, with its timestamp parsed (None when missing or unparsable) |
| Selection.VersionsView | dependency_metrics/resolvers.py:123-132 | one entry per `versions` key, in order, with `dist.published` parsed |
| Selection.ReleasesView | dependency_metrics/resolvers.py:320-331 | one entry per `releases` key, in order, with the first file's `upload_time` parsed |
| Selection.InWindow | dependency_metrics/resolvers.py:106-118 | every kept version carries the requested name and a release instant inside [start, end] |
| Selection.InWindowMembers | dependency_metrics/resolvers.py:123-141 | a version is kept iff it is listed with a parsable release instant inside [start, end] |
| Selection.WindowVersions | dependency_metrics/resolvers.py:123-141 | the result is sorted by release instant and is a rearrangement of the in-window versions |
| Selection.CollectWindow | dependency_metrics/resolvers.py:123-141 | the collecting loop plus `sorted` computes exactly the window list |
| Selection.AtOrBefore | dependency_metrics/resolvers.py:262-274 | every collected version was released at or before the cut-off |
| Selection.AtOrBeforeMembers | dependency_metrics/resolvers.py:262-274 | a (version, instant) is collected iff listed with that parsable instant at or before the cut-off |
| Selection.Latest | dependency_metrics/resolvers.py:276-280 | None iff nothing was released by the cut-off; otherwise the first listed among the latest (a stable sort in reverse) |
| Selection.LatestIsLatest | dependency_metrics/resolvers.py:258-280 | the chosen version was released by the cut-off and no listed version was released later but still by the cut-off |
| Selection.SelectLatest | dependency_metrics/resolvers.py:258-280 | the collect-then-sort loop picks exactly that latest version |
| Selection.ParseKeys | dependency_metrics/resolvers.py:220 | the sort key fails iff some candidate's version does not parse; otherwise every candidate is paired with its parsed version |
| Selection.HighestOf | dependency_metrics/resolvers.py:219-221 | an error iff some candidate does not parse; None iff there is no candidate; otherwise the last of the highest by version order |
| Selection.CollectAtOrBefore | dependency_metrics/resolvers.py:400-415 | the loop collects the names released by the cut-off, in order |
| Selection.ChooseHighest | dependency_metrics/resolvers.py:417-419 | sorting by version and taking the last gives that highest candidate |
| Selection.SelectHighest | dependency_metrics/resolvers.py:400-419 | collect-then-sort picks the highest version released by the cut-off |
| Resolvers.Lookup | dependency_metrics/resolvers.py:59-62 | a cache hit returns the stored value; a miss returns what the load returns |
| Resolvers.Store | dependency_metrics/resolvers.py:59-70 | a hit leaves the cache unchanged; a successful miss adds its key and a failed one adds nothing; no other key changes; the next lookup returns the same value |
| Resolvers.StripTimeKeys | dependency_metrics/resolvers.py:253-254 | no `modified` or `created` key remains, and every other key keeps its value |
| Resolvers.TimeLoad | dependency_metrics/resolvers.py:242-256 | a non-zero exit is None, a raised error is an error, and output is the time data without the two metadata keys |
| Resolvers.TimeStore | dependency_metrics/resolvers.py:237-256 | only a successful run on a miss is stored, with the keys stripped |
| Resolvers.ResolveLoad | dependency_metrics/resolvers.py:151-179 | an empty JSON list raises (`versions[-1]`); a list gives its last element and a string itself; a failed run, a raised error or blank output gives None |
| Resolvers.ResolverCache.constructor | dependency_metrics/resolvers.py:27-36 | all five caches start empty |
| Resolvers.ResolverCache.FetchMetadata | dependency_metrics/resolvers.py:58-70 | a read-through cache keyed by (ecosystem, name): the metadata cache becomes its `Store`, the other caches are untouched |
| Resolvers.Constraint | dependency_metrics/resolvers.py:437 | the specifier's text, or "*" when it is empty, so never empty |
| Resolvers.PypiDependencies | dependency_metrics/resolvers.py:427-439 | a dict: no name appears twice |
| Resolvers.PypiDependenciesHas | dependency_metrics/resolvers.py:427-439 | a name is present iff some requirement parses, has no extras (and no marker when markers are dropped) and has that name |
| Resolvers.PypiDependenciesLast | dependency_metrics/resolvers.py:427-439 | the constraint stored for a name is that of the last kept requirement with that name |
| Resolvers.ExtractMarkerDisagreement | dependency_metrics/resolvers.py:427-439 | on the requires_dist example the resolver (markers kept) yields requests, urllib3 and pandas, while the analyzer (markers dropped, analyzer.py:267-268) yields only requests and pandas |
| Resolvers.HighestError | dependency_metrics/resolvers.py:222-225 | the re-raised message is the fixed prefix, then the package name, then ": ", and it ends with the original message |
| Resolvers.NpmLatestFromMetadata | dependency_metrics/resolvers.py:258-280 | an error iff no version has a publish date at or before the end; otherwise the latest such version with its own entry |
| Resolvers.NpmVersionAtDateIsLatest | dependency_metrics/resolvers.py:72-96 | an error iff neither the time data nor the metadata has a version released by the end; otherwise the latest from the time data, falling back to the metadata when the time data has none |
| Resolvers.NpmAllVersions | dependency_metrics/resolvers.py:98-141 | sorted by release, and a rearrangement of the in-window versions of the time data, or of the metadata when the time data is empty |
| Resolvers.NpmHighestCandidates | dependency_metrics/resolvers.py:188-217 | the candidates come from the time data, and from the metadata only when the time data gives none |
| Resolvers.NpmResolver.constructor | dependency_metrics/resolvers.py:44-56 | the resolver holds its package, window, shared cache and registry |
| Resolvers.NpmResolver.FetchPackageMetadata | dependency_metrics/resolvers.py:58-70 | read-through on ("npm", name); only the metadata cache changes |
| Resolvers.NpmResolver.GetNpmTimeData | dependency_metrics/resolvers.py:237-256 | cached time data without `modified`/`created`; only the time cache changes |
| Resolvers.NpmResolver.ParseVersionsFromMetadata | dependency_metrics/resolvers.py:258-280 | the loop returns the latest version by publish date, or the "no versions" error |
| Resolvers.NpmResolver.GetPackageVersionAtDate | dependency_metrics/resolvers.py:72-96 | the latest version by the end date from the cached time data, else from the metadata |
| Resolvers.NpmResolver.GetAllVersionsWithDates | dependency_metrics/resolvers.py:98-141 | with a name, the window list from its time data, else from the metadata; without a name, the metadata list under the resolver's own package |
| Resolvers.NpmResolver.ResolveDependencyVersion | dependency_metrics/resolvers.py:143-179 | read-through on (dependency, constraint, instant); None is cached too, so a repeated call returns the same value |
| Resolvers.NpmResolver.GetHighestSemverVersionAtDate | dependency_metrics/resolvers.py:181-227 | the highest version released by the date, None when there is none; a failed fetch or an unparsable version is re-raised with the wrapping message |
| Resolvers.NpmResolver.ExtractDependencies | dependency_metrics/resolvers.py:229-230 | a listed version's result is the `dependencies` of its entry in `versions`; an unlisted version (the `{}` default of `versions.get`) has no dependencies |
| Resolvers.NpmResolver.GetVersionDependencies | dependency_metrics/resolvers.py:232-235 | the listed version's dependencies, none for an unlisted version, and a fetch failure propagates |
| Resolvers.PypiVersionAtDate | dependency_metrics/resolvers.py:316-352 | an error iff no release was uploaded by the end; otherwise the latest release with its requires_dist, or none when the per-version fetch fails |
| Resolvers.PyPIResolver.constructor | dependency_metrics/resolvers.py:288-300 | the resolver holds its package, window, shared cache and registry |
| Resolvers.PyPIResolver.FetchPackageMetadata | dependency_metrics/resolvers.py:302-314 | read-through on ("pypi", name); only the metadata cache changes |
| Resolvers.PyPIResolver.GetPypiVersionMetadata | dependency_metrics/resolvers.py:460-471 | read-through on "package@version"; only the per-version metadata cache changes |
| Resolvers.PyPIResolver.GetPackageVersionAtDate | dependency_metrics/resolvers.py:316-352 | the latest release by the end with its requires_dist; the per-version cache changes only for the chosen version |
| Resolvers.PyPIResolver.GetAllVersionsWithDates | dependency_metrics/resolvers.py:354-382 | the releases of the named package (the resolver's own when no name is given) uploaded inside the window, sorted by upload instant |
| Resolvers.PyPIResolver.ResolveDependencyVersion | dependency_metrics/resolvers.py:384-391 | the constraint resolver's answer, with an exception turned into None |
| Resolvers.PyPIResolver.GetHighestSemverVersionAtDate | dependency_metrics/resolvers.py:393-425 | the highest release uploaded by the date, None when there is none; failures are re-raised with the wrapping message |
| Resolvers.PyPIResolver.ExtractDependencies | dependency_metrics/resolvers.py:427-439 | unparsable requirements and extras are skipped, markers are kept, a bare name maps to "*", and later duplicates win |
| Resolvers.PyPIResolver.GetVersionDependencies | dependency_metrics/resolvers.py:441-458 | a cache hit is returned as is; a miss computes the dependencies (none after a failed fetch) and caches them, the empty result included |
| Analyzer.MetadataHistory | dependency_metrics/analyzer.py:318-337 | the fallback history is empty for any ecosystem other than npm and pypi |
| Analyzer.TimeOutputFor | dependency_metrics/analyzer.py:287-303 | time data exists only for npm, and it has no `modified`/`created` key |
| Analyzer.VersionsWithDates | dependency_metrics/analyzer.py:277-349 | sorted by release instant, each release inside [start_date, end_date] |
| Analyzer.GetAllVersionsWithDates | dependency_metrics/analyzer.py:277-349 | the loop computes exactly that history |
| Analyzer.ResolveAt | dependency_metrics/analyzer.py:351-421 | npm is the `npm view --before` load (the last element of a list, None on failure), which raises iff it prints an empty list; pypi never raises: the resolver's answer when it succeeds, None when it raises; other ecosystems give None |
| Analyzer.HighestAt | dependency_metrics/analyzer.py:423-509 | None iff there is no candidate or some candidate does not parse (the exception is swallowed); otherwise the last of the highest candidates |
| Analyzer.GetHighestSemverVersionAtDate | dependency_metrics/analyzer.py:423-509 | the collecting loops and the sort compute that answer |
| Analyzer.DaysBetween | dependency_metrics/analyzer.py:655 | whole days, floored: r·86400 ≤ b − a < (r+1)·86400 |
| Analyzer.CalculateWeight | dependency_metrics/analyzer.py:511-533 | disable and unknown types give 1.0; linear never fails, gives 1.0 when the window is under a day, and otherwise satisfies w·max_age = max_age − age, that is w = 1 − age/max_age; exponential fails iff the half-life is missing or zero, and is otherwise the decay of the half-life and age; inverse fails only at age −1 (division by zero) and otherwise satisfies w·(1+age) = 1 |
| Analyzer.WeightsDecreaseWithAge | dependency_metrics/analyzer.py:522-531 | linear and inverse weights lie in [0, 1] and never grow with age |
| Analyzer.EffectiveStart | dependency_metrics/analyzer.py:566-572 | the maximum of start_date and the first release of the parent and of the dependency |
| Analyzer.Clipped | dependency_metrics/analyzer.py:579-585 | every kept release instant lies in [effective start, end_date] |
| Analyzer.ClippedMembers | dependency_metrics/analyzer.py:579-585 | an instant is kept iff it is in the window and some version was released at it |
| Analyzer.DependencyIntervalsSpan | dependency_metrics/analyzer.py:565-617 | the intervals cover [effective start, end_date]: none iff the two are equal, otherwise contiguous, from one to the other, and inside |
| Analyzer.NpmConstraintInfo | dependency_metrics/analyzer.py:595-609 | at most one entry per parent version |
| Analyzer.NpmConstraintInfoExact | dependency_metrics/analyzer.py:595-609 | each entry is a parent version, its release instant and the constraint that version declares for the dependency; every parent version that declares one has its entry |
| Analyzer.NpmConstraintInfoAppend | dependency_metrics/analyzer.py:595-609 | the entries keep the order of the parent history: the list for a concatenation is the concatenation of the lists |
| Analyzer.ConstraintInfo | dependency_metrics/analyzer.py:597-605 | outside npm the constraint list is empty, so pypi analyses skip every interval |
| Analyzer.NpmConstraintInfoSorted | dependency_metrics/analyzer.py:595-612 | the entries are already in release order |
| Analyzer.ConstraintInfoSortIsIdentity | dependency_metrics/analyzer.py:612 | so the stable sort by date leaves the list unchanged |
| Analyzer.Available | dependency_metrics/analyzer.py:621-624 | empty iff no entry was released at or before the interval start; a pair is present iff some entry released by then has that version and constraint |
| Analyzer.AvailableAppend | dependency_metrics/analyzer.py:621-624 | the pairs keep the order of the entries: available pairs of a concatenation are the concatenation of the available pairs |
| Analyzer.ParentAt | dependency_metrics/analyzer.py:621-635 | None iff nothing is available; the last highest by version when all versions parse; the last by date when some does not |
| Analyzer.RowFor | dependency_metrics/analyzer.py:616-679 | no row without a parent; a row carries the chosen parent and its constraint and the interval; the resolved version is `resolve_dependency_version`'s answer for that constraint at the interval start, the highest is `get_highest_semver_version_at_date`'s, `remediated` is the remediation check of the resolved version at the interval start, and the weight is `calculate_weight` of the age; `updated` iff the resolved and highest versions are equal and non-empty; the age is the floored days to end_date; the row fails iff there is a parent and resolving or weighting raises |
| Analyzer.IntervalRows | dependency_metrics/analyzer.py:615-679 | at most one row per interval |
| Analyzer.IntervalRowsFailure | dependency_metrics/analyzer.py:615-679 | a failing loop has an interval whose row computation fails |
| Analyzer.IntervalRowsFail | dependency_metrics/analyzer.py:615-679 | the loop fails iff the row computation fails for some interval |
| Analyzer.IntervalRowsFromIntervals | dependency_metrics/analyzer.py:615-679 | every row of a successful loop is the row computed for one of the intervals |
| Analyzer.IntervalRowsLast | dependency_metrics/analyzer.py:615-679 | a successful loop's rows are the rows of the earlier intervals, then the last interval's row if it has one |
| Analyzer.IntervalRowsKeepAll | dependency_metrics/analyzer.py:615-679 | every row computed for an interval is among the rows of a successful loop |
| Analyzer.IntervalRowsAreRowFor | dependency_metrics/analyzer.py:615-679 | the loop fails iff some interval fails; otherwise its rows are exactly the rows computed for the intervals |
| Analyzer.IntervalRowsFollowIntervals | dependency_metrics/analyzer.py:615-679 | each row spans one of the intervals, and rows appear in interval order |
| Analyzer.HistoryRowsShape | dependency_metrics/analyzer.py:588-681 | at most one row per interval; rows are disjoint, ascending and inside [effective start, end_date]; no rows when the effective start is end_date |
| Analyzer.OnlyNpmHasRows | dependency_metrics/analyzer.py:597-605 | outside npm the analysis yields no rows and TTU = TTR = 0 |
| Analyzer.NoInfoNoRows | dependency_metrics/analyzer.py:626-627 | with no constraint-bearing parent version, every interval is skipped |
| Analyzer.NoRecoveryAfterError | dependency_metrics/analyzer.py:615-679 | once an interval raises, the whole analysis fails with that error |
| Analyzer.CollectDates | dependency_metrics/analyzer.py:575-585 | the set-building loops give `{effective start, end_date}` plus the clipped release instants |
| Analyzer.CollectConstraintInfo | dependency_metrics/analyzer.py:594-609 | the loop computes the constraint list |
| Analyzer.IntervalsOf | dependency_metrics/analyzer.py:574-591 | the loops and the sort give the covering intervals, and none when fewer than two dates remain |
| Analyzer.AnalyzeIntervals | dependency_metrics/analyzer.py:614-679 | the interval loop with its `continue`s computes exactly the per-interval rows |
| Analyzer.ChooseParent | dependency_metrics/analyzer.py:621-635 | the available-version loop and the sort pick the parent described above |
| Analyzer.IntervalRowAt | dependency_metrics/analyzer.py:616-679 | one loop iteration computes that interval's row |
| Analyzer.AnalyzeHistories | dependency_metrics/analyzer.py:574-681 | from the two histories, the rows described above |
| Analyzer.AnalyzeDependency | dependency_metrics/analyzer.py:535-681 | the whole per-dependency analysis |
| Analyzer.NotUpdated | dependency_metrics/analyzer.py:796 | exactly the rows that are not updated |
| Analyzer.NotRemediated | dependency_metrics/analyzer.py:803 | exactly the rows that are not remediated |
| Analyzer.Metric | dependency_metrics/analyzer.py:796-807 | no rows gives 0; weighting off gives the plain sum of durations; weighting on gives m with m·Σw = Σw·d, undefined iff Σw = 0 |
| Analyzer.CalculateTtuTtr | dependency_metrics/analyzer.py:780-809 | (0, 0) without rows; otherwise TTU over the not-updated rows and TTR over the not-remediated rows |
| Analyzer.NothingStaleMeansZero | dependency_metrics/analyzer.py:796-807 | all rows updated gives TTU 0; all rows remediated gives TTR 0 |
| Analyzer.WeightedMetricBounds | dependency_metrics/analyzer.py:797-798 | with positive weights, the weighted mean lies between the shortest and the longest duration |
| Analyzer.FetchMetadata | dependency_metrics/analyzer.py:74-93 | npm and pypi fetch from their registry; any other ecosystem raises |
| Analyzer.VersionAtDate | dependency_metrics/analyzer.py:95-212 | npm: succeeds iff the npm selection (the latest by the end date from the time data, else from the metadata) does, with its version and entry, and fails with its message otherwise; pypi: the PyPI selection; other ecosystems raise |
| Analyzer.GetPackageVersionAtDate | dependency_metrics/analyzer.py:95-244 | the npm and pypi loops compute that selection |
| Analyzer.Dependencies | dependency_metrics/analyzer.py:246-275 | npm: the version's `dependencies`; pypi: requires_dist without markers or extras; otherwise none |
| Analyzer.ExtractDependencies | dependency_metrics/analyzer.py:246-275 | the requirement loop computes that dict |
| Analyzer.EcosystemRows | dependency_metrics/analyzer.py:842 | exactly the rows of the requested ecosystem |
| Analyzer.OsvTableFor | dependency_metrics/analyzer.py:838-844 | no database file gives an empty table without columns; otherwise the rows of the upper-cased ecosystem (a database with no rows is taken to have its columns, see "## Left out") |
| Analyzer.DependencyOutcome | dependency_metrics/analyzer.py:854-878 | a dependency is left out iff fetching its metadata or analysing it raised |
| Analyzer.Outcomes | dependency_metrics/analyzer.py:851-878 | one outcome per declared dependency, in order |
| Analyzer.SumAll | dependency_metrics/analyzer.py:881-882 | the sum is defined iff every term is |
| Analyzer.Mean | dependency_metrics/analyzer.py:881-882 | no values gives 0; defined iff every value is |
| Analyzer.MeanBounds | dependency_metrics/analyzer.py:881-882 | the average of values within [lo, hi] lies within [lo, hi] |
| Analyzer.AnalysisAggregates | dependency_metrics/analyzer.py:811-897 | the package and version are reported; no dependencies gives 0, 0 and 0; otherwise num_dependencies counts all declared ones while TTU and TTR average only those that did not raise |
| Analyzer.AnalyzeOne | dependency_metrics/analyzer.py:854-878 | one try block computes that dependency's outcome |
| Analyzer.CollectMetrics | dependency_metrics/analyzer.py:847-878 | the loop collects the TTU and TTR of the dependencies that did not raise, in order |
| Analyzer.Analyze | dependency_metrics/analyzer.py:811-905 | the whole analysis |
| Cli.NormalizedFields | dependency_metrics/cli.py:60-64 | each header with white space and then byte-order marks stripped |
| Cli.MissingColumns | dependency_metrics/cli.py:66-72 | exactly the required names no header matches case-insensitively, in sorted order |
| Cli.MissingIffNoHeader | dependency_metrics/cli.py:66-69 | a required column is missing iff no normalised header lower-cases to it |
| Cli.FieldMapHasKey | dependency_metrics/cli.py:66 | the field map has a key iff some normalised header lower-cases to it |
| Cli.HeaderLookup | dependency_metrics/cli.py:79-85 | a field reads the cell under the last header that matches it |
| Cli.ExtraKeeps | dependency_metrics/cli.py:86-88 | every other column is copied unchanged |
| Cli.LoadedField | dependency_metrics/cli.py:76-85 | a loaded row's named field is the stripped cell under its header ("" for a missing value) |
| Cli.LoadedExtra | dependency_metrics/cli.py:86-88 | a loaded row's other fields are the stripped cells of their columns |
| Cli.LoadRecords | dependency_metrics/cli.py:76-90 | one row per record, with row_num = index + 2 |
| Cli.InputRows | dependency_metrics/cli.py:37-95 | no columns or no records is "no data rows"; otherwise one row per record with row_num = index + 2 |
| Cli.LoadOutcome | dependency_metrics/cli.py:57-74 | loading fails iff the frame is empty or some required column has no matching header |
| Cli.LoadInputCsv | dependency_metrics/cli.py:37-95 | the header and row loops compute exactly that result |
| Cli.Deduplicated | dependency_metrics/cli.py:219-233 | never longer than the input |
| Cli.KeptIndices | dependency_metrics/cli.py:219-233 | the kept rows are exactly the first row of each key, in input order |
| Cli.DeduplicatedKeepsFirst | dependency_metrics/cli.py:219-233 | the output is the input restricted to those first rows |
| Cli.DeduplicatedKeys | dependency_metrics/cli.py:219-233 | no two kept rows share a key, and every input key is kept |
| Cli.DeduplicateRows | dependency_metrics/cli.py:219-235 | the loop yields the de-duplicated rows and counts input length minus output length as duplicates |
| Cli.DedupVisit | dependency_metrics/cli.py:222-232 | one iteration keeps the seen-key set, the kept rows and the count in step |
| Cli.InGroup | dependency_metrics/cli.py:337-343 | exactly the rows with that (lower ecosystem, lower package) key |
| Cli.GroupedLookup | dependency_metrics/cli.py:337-343 | a key's group is its rows in input order, and absent when there are none |
| Cli.GroupedDistinctKeys | dependency_metrics/cli.py:337-343 | no key appears twice |
| Cli.GroupsPartition | dependency_metrics/cli.py:337-343 | the groups together hold every row exactly once |
| Cli.GroupRows | dependency_metrics/cli.py:337-343 | the `setdefault` loop builds exactly those groups |
| Cli.ProcessingOrderSpec | dependency_metrics/cli.py:345-359 | a group is processed as a rearrangement of its rows in ascending (end date, start_date text) order, and an unparsable end date sorts as `datetime.min`, before every parsable one |
| Cli.RowOutcome | dependency_metrics/cli.py:270-299 | missing fields and an ecosystem outside npm and pypi are the two validation errors; success needs a supported ecosystem, a package and a parsable end date |
| Cli.ProcessRow | dependency_metrics/cli.py:257-334 | the summary keeps the row number, lower-cased ecosystem and package; the start falls back to the default and the end to today; status is "error" iff something raised, with −1.0, −1.0, 0 and the quoted message |
| Cli.RejectedRows | dependency_metrics/cli.py:270-305 | a row missing a field, or with another ecosystem, reports an error with −1.0, −1.0 and 0 |
| Cli.GroupResults | dependency_metrics/cli.py:352-363 | one result per row of the group |
| Cli.ProcessGroup | dependency_metrics/cli.py:352-363 | the loop processes the group's rows in its order |
| Cli.OsvByEcosystem | dependency_metrics/cli.py:240-246 | one table per lower-cased input ecosystem, holding exactly the database rows of the upper-cased ecosystem |
| Cli.WorkerCount | dependency_metrics/cli.py:253-255 | a positive request is used as is; otherwise min(8, CPU count), with 4 when the count is unknown |
| Cli.FinalSummaries | dependency_metrics/cli.py:378-379 | one summary per processed row |
| Cli.CompletionOrderIrrelevant | dependency_metrics/cli.py:365-379 | with distinct line numbers, any completion order of the workers gives the same summaries, sorted by CSV line |
| Cli.AllResultsMultiset | dependency_metrics/cli.py:365-376 | the workers' results are the processed rows of all groups together |
| Cli.BulkOrderIndependent | dependency_metrics/cli.py:206-379 | one summary per de-duplicated row, identical whatever order the workers finish in |
| Cli.ProcessGroups | dependency_metrics/cli.py:365-376 | the loop over groups collects every group's results |
| Cli.RunBulk | dependency_metrics/cli.py:206-379 | a load error is reported as is; otherwise the summaries ordered by CSV line, with the duplicate count |

## Left out

- HTTP requests, `npm view` subprocesses, pip's `PackageFinder`, the OSV download, zip extraction and parquet reads and writes: function parameters or `Option` values, not modelled.
- `build_database` and its parquet cache: the table is passed in, and a missing file is `None`.
- `datetime.fromisoformat`, `ensure_utc`, `strptime`, PEP 440 and PEP 508 parsing: parse oracles. `Versions` orders versions as natural-number triples, standing for any total version order.
- `str.lower`/`str.upper`: ASCII case mapping only. `str.strip` uses Python's full white-space set.
- `math.exp`/`math.log` in exponential weighting: the `decay` parameter. Floating-point rounding, NaN and infinities are not modelled.
- Analyzer.Metric: a zero weight sum gives `None` where pandas would produce NaN or an infinity.
- The PyPI `releases` branch whose value is a dict rather than a list of files (resolvers.py:363-364, analyzer.py:335): releases are always lists of files.
- JSON `null` values inside OSV documents and metadata: absent keys are modelled, null values are not.
- The oracles are deterministic: two calls with the same arguments give the same answer.
- The `ThreadPoolExecutor`/`as_completed` fan-out: concurrency is not modelled. Cli.BulkOrderIndependent states that any completion order gives the same summaries.
- The concurrent use of `ResolverCache` by several workers: not modelled.
- pandas type inference in `read_csv` and its renaming of duplicate column labels: every cell is text or missing, and labels are taken as given.
- argparse, the RTF check, byte decoding of the CSV, and `mkdir`: not modelled.
- The `if not rows` check at cli.py:92-93: it cannot fire once the frame has records, so it is not modelled separately.
- The bulk path's analyzer (`DependencyAnalyzer(resolver_cache=...)` and `analyze(osv_df=...)`, cli.py:281-292): these keywords are not defined by analyzer.py, so the bulk path calls an analyzer passed in as a parameter.
- Cli.RunBulk: `ResolverCache(cache_dir=...)` at cli.py:248 passes a keyword that the dataclass at resolvers.py:27-36 does not define, so the bulk branch as written raises `TypeError` before it processes any row. The model processes the rows as if that call had succeeded. The shared cache is part of the analyzer passed in as the `Bulk` parameter.
- The date strings of the summary (`date().isoformat()`): instants are reported instead.
- The bulk path's dependency frames, `export_*`, progress printing and logging: not modelled.
- The `PackageResolver` protocol (interfaces.py): it is not modelled as a trait. The two resolver classes have the same method names.
- `analyze`'s `dependency_data` and `osv_data` result fields: not modelled; only the aggregates are.
- Resolvers.NpmResolver.ResolveDependencyVersion: the cache key uses the instant itself rather than its `isoformat()` text.
- Cli.Deduplicated: its own contract states only the length bound. Order, first-of-key and key uniqueness are stated by Cli.KeptIndices, Cli.DeduplicatedKeepsFirst and Cli.DeduplicatedKeys.
- The `DependencyAnalyzer` constructor's lower-casing of the ecosystem and its UTC normalisation are taken as already done by the caller.
- Analyzer.VersionAtDate, Analyzer.VersionsWithDates, Analyzer.HighestAt and the release-date lookup in Analyzer.RowFor: a timestamp without a UTC offset is not modelled. In analyzer.py, `datetime.fromisoformat` is called without `ensure_utc` (lines 140, 183, 233, 307, 343, 464, 480, 495, 765, 773). A naive result compared with an aware date raises `TypeError`, which the `(ValueError, AttributeError)` handlers do not catch. So `analyze` raises, `get_highest_semver_version_at_date` returns `None`, and `_check_remediation` skips the vulnerability at line 737. The single `parseTs` oracle gives an instant or nothing, so it cannot express this third outcome.
- OsvBuilder.DigitPrefix: `\d` in Python also matches non-ASCII decimal digits; the model recognises only `0`-`9`, and so does OsvBuilder.StartsWithDigitsDot.
- OsvBuilder.GetVulnerabilities: a database with no columns (built from no records) makes the source raise `KeyError`, while the model returns no rows.
- Analyzer.OsvTableFor, and through it Analyzer.Analysis and Analyzer.Analyze: a database built from no records has no columns. osv_builder.py:142-147 build `pd.DataFrame([])` and line 175 writes it. analyzer.py:842 then reads `osv_df['ecosystem']`, which raises `KeyError`. Nothing catches it, so `analyze` raises for every package that has a dependency. The model treats such a database as an empty table with its columns: the analysis succeeds, and every interval counts as remediated.
- Resolvers.NoVersionsError: the source's message includes the end date (`f"No versions found before {self.end_date}"`, resolvers.py:277 and 338, analyzer.py:190 and 240). The model uses the fixed text "No versions found before end date", because datetime formatting is not modelled.
