/**
 * `osv_service.py`: the release date of a version in registry metadata, and the
 * remediation check: a dependency version is NOT remediated at an instant when
 * some vulnerability row covers it and the fixing release was out by then.
 * `DependencyAnalyzer._check_remediation` and `_get_version_release_date` in
 * `analyzer.py` are the same logic up to the timestamp parser, and use these
 * definitions.
 */
module OsvService {
  import opened Wrappers
  import opened Dicts
  import opened Models
  import opened Versions
  import opened TimeUtils
  import opened OsvBuilder
  import opened Selection

  /**
   * `get_version_release_date`: npm reads `versions[v].dist.published`, PyPI the
   * `upload_time` of the first file of `releases[v]`; anything missing, empty or
   * unparsable, and any other ecosystem, gives None.
   */
  function ReleaseDate(ecosystem: string, meta: Metadata, version: string, parseTs: string -> Option<int>): (r: Option<int>)
    ensures ecosystem != "npm" && ecosystem != "pypi" ==> r == None
    ensures ecosystem == "npm" && r.Some? ==>
      HasKey(meta.versions, version) &&
      var p := NpmEntry(meta, version).published;
      p.Some? && p.value != "" && parseTs(p.value) == r
    ensures ecosystem == "npm" && HasKey(meta.versions, version) ==>
      var p := NpmEntry(meta, version).published;
      p.Some? && p.value != "" ==> r == parseTs(p.value)
    ensures ecosystem == "npm" && !HasKey(meta.versions, version) ==> r == None
    ensures ecosystem == "pypi" && r.Some? ==>
      exists files: seq<ReleaseFile> :: Get(meta.releases, version) == Some(files) && files != [] &&
        files[0].uploadTime.Some? && files[0].uploadTime.value != "" && parseTs(files[0].uploadTime.value) == r
    ensures ecosystem == "pypi" ==> forall files: seq<ReleaseFile> ::
      Get(meta.releases, version) == Some(files) && files != [] && files[0].uploadTime.Some? && files[0].uploadTime.value != "" ==>
        r == parseTs(files[0].uploadTime.value)
    ensures ecosystem == "pypi" && !HasKey(meta.releases, version) ==> r == None
  {
    if ecosystem == "npm" then
      match Get(meta.versions, version)
      case None => None
      case Some(d) => PublishedInstant(d, parseTs)
    else if ecosystem == "pypi" then
      match Get(meta.releases, version)
      case None => None
      case Some(files) => UploadInstant(files, parseTs)
    else None
  }

  /** The vulnerability table: whether it has a `package` column, and its rows. */
  datatype VulnTable = VulnTable(hasPackageColumn: bool, rows: seq<VulnRecord>)

  /** Everything a remediation check reads besides the table and the version. */
  datatype RemediationContext = RemediationContext(
    dependency: string,
    intervalStart: int,
    metadata: Metadata,
    ecosystem: string,
    parseVer: string -> Option<Version>,
    parseTs: string -> Option<int>)

  /**
   * A row blocks remediation of version `cur`: both bounds parse, `introduced <= cur < fixed`,
   * and the fixed version's release date is known and not after the interval start.
   */
  predicate Blocks(c: RemediationContext, cur: Version, row: VulnRecord)
  {
    var intro := c.parseVer(row.introduced);
    var fixed := c.parseVer(row.fixed);
    && intro.Some? && fixed.Some?
    && Le(intro.value, cur) && Lt(cur, fixed.value)
    && var date := ReleaseDate(c.ecosystem, c.metadata, row.fixed, c.parseTs);
       date.Some? && date.value <= c.intervalStart
  }

  /** `osv_df[osv_df['package'] == dependency]`. */
  function DepRows(rows: seq<VulnRecord>, dependency: string): (r: seq<VulnRecord>)
    ensures forall v :: v in r <==> v in rows && v.package == dependency
  {
    if rows == [] then []
    else
      var rest := DepRows(rows[..|rows| - 1], dependency);
      var last := rows[|rows| - 1];
      assert forall v :: v in rows <==> v in rows[..|rows| - 1] || v == last by {
        assert rows == rows[..|rows| - 1] + [last];
      }
      if last.package == dependency then rest + [last] else rest
  }

  /** The row loop of `is_remediated`: true when it runs to the end without returning False. */
  function NoBlockingRow(c: RemediationContext, cur: Version, rows: seq<VulnRecord>): (r: bool)
    ensures r <==> forall k :: 0 <= k < |rows| ==> !Blocks(c, cur, rows[k])
  {
    if rows == [] then true
    else if Blocks(c, cur, rows[0]) then false
    else
      var r := NoBlockingRow(c, cur, rows[1..]);
      assert forall k :: 1 <= k < |rows| ==> rows[k] == rows[1..][k - 1];
      r
  }

  /** Some row of the dependency blocks remediation of `cur`. */
  predicate SomeRowBlocks(c: RemediationContext, cur: Version, rows: seq<VulnRecord>)
  {
    exists k :: 0 <= k < |rows| && rows[k].package == c.dependency && Blocks(c, cur, rows[k])
  }

  /** `is_remediated` (and `_check_remediation`). */
  function IsRemediated(c: RemediationContext, version: Option<string>, table: VulnTable): (r: bool)
    ensures version.None? ==> !r
    ensures version.Some? && (table.rows == [] || !table.hasPackageColumn) ==> r
    ensures version.Some? && DepRows(table.rows, c.dependency) == [] ==> r
    ensures (version.Some? && table.hasPackageColumn && DepRows(table.rows, c.dependency) != [] &&
      c.parseVer(version.value).None?) ==> !r
  {
    if version.None? then false
    else if table.rows == [] || !table.hasPackageColumn then true
    else
      var depRows := DepRows(table.rows, c.dependency);
      if depRows == [] then true
      else
        match c.parseVer(version.value)
        case None => false
        case Some(cur) => NoBlockingRow(c, cur, depRows)
  }

  /**
   * With a present, parseable version and a `package` column, the check fails
   * exactly when some row of the dependency blocks it.
   */
  lemma RemediatedIff(c: RemediationContext, version: string, table: VulnTable)
    requires table.hasPackageColumn && c.parseVer(version).Some?
    ensures IsRemediated(c, Some(version), table) <==> !SomeRowBlocks(c, c.parseVer(version).value, table.rows)
  {
    var cur := c.parseVer(version).value;
    var depRows := DepRows(table.rows, c.dependency);
    if SomeRowBlocks(c, cur, table.rows) {
      var k :| 0 <= k < |table.rows| && table.rows[k].package == c.dependency && Blocks(c, cur, table.rows[k]);
      assert table.rows[k] in depRows;
      var m :| 0 <= m < |depRows| && depRows[m] == table.rows[k];
    } else {
      forall m | 0 <= m < |depRows| ensures !Blocks(c, cur, depRows[m]) {
        assert depRows[m] in table.rows;
        var k :| 0 <= k < |table.rows| && table.rows[k] == depRows[m];
      }
    }
  }

  /** The order of the rows does not matter. */
  lemma RemediatedOrderFree(c: RemediationContext, version: Option<string>, t1: VulnTable, t2: VulnTable)
    requires t1.hasPackageColumn == t2.hasPackageColumn
    requires multiset(t1.rows) == multiset(t2.rows)
    ensures IsRemediated(c, version, t1) == IsRemediated(c, version, t2)
  {
    SameElements(t1.rows, t2.rows);
    DepRowsSame(t1.rows, t2.rows, c.dependency);
    if version.Some? && t1.hasPackageColumn && c.parseVer(version.value).Some? {
      RemediatedIff(c, version.value, t1);
      RemediatedIff(c, version.value, t2);
      BlockingSame(c, c.parseVer(version.value).value, t1.rows, t2.rows);
    }
  }

  lemma SameElements(a: seq<VulnRecord>, b: seq<VulnRecord>)
    requires multiset(a) == multiset(b)
    ensures forall v :: v in a <==> v in b
    ensures |a| == |b|
  {
    forall v ensures v in a <==> v in b {
      assert v in a <==> v in multiset(a);
      assert v in b <==> v in multiset(b);
    }
    assert |a| == |multiset(a)| && |b| == |multiset(b)|;
  }

  lemma DepRowsSame(a: seq<VulnRecord>, b: seq<VulnRecord>, dependency: string)
    requires forall v :: v in a <==> v in b
    ensures DepRows(a, dependency) == [] <==> DepRows(b, dependency) == []
  {
    var da, db := DepRows(a, dependency), DepRows(b, dependency);
    if da != [] { assert da[0] in da; assert da[0] in db; }
    if db != [] { assert db[0] in db; assert db[0] in da; }
  }

  lemma BlockingSame(c: RemediationContext, cur: Version, a: seq<VulnRecord>, b: seq<VulnRecord>)
    requires forall v :: v in a <==> v in b
    ensures SomeRowBlocks(c, cur, a) <==> SomeRowBlocks(c, cur, b)
  {
    if SomeRowBlocks(c, cur, a) {
      var k :| 0 <= k < |a| && a[k].package == c.dependency && Blocks(c, cur, a[k]);
      assert a[k] in b;
    }
    if SomeRowBlocks(c, cur, b) {
      var k :| 0 <= k < |b| && b[k].package == c.dependency && Blocks(c, cur, b[k]);
      assert b[k] in a;
    }
  }

  /** A row whose bounds do not parse, or whose fixed version has no known release date, never blocks. */
  lemma UnusableRowNeverBlocks(c: RemediationContext, cur: Version, row: VulnRecord)
    requires c.parseVer(row.introduced).None? || c.parseVer(row.fixed).None? ||
      ReleaseDate(c.ecosystem, c.metadata, row.fixed, c.parseTs).None?
    ensures !Blocks(c, cur, row)
  {
  }

  /** ... so adding one to the table leaves the result of a parseable version unchanged. */
  lemma UnusableRowNeverMatters(c: RemediationContext, version: string, table: VulnTable, row: VulnRecord)
    requires table.hasPackageColumn && c.parseVer(version).Some?
    requires c.parseVer(row.introduced).None? || c.parseVer(row.fixed).None? ||
      ReleaseDate(c.ecosystem, c.metadata, row.fixed, c.parseTs).None?
    ensures IsRemediated(c, Some(version), table.(rows := table.rows + [row])) == IsRemediated(c, Some(version), table)
  {
    var cur := c.parseVer(version).value;
    var t2 := table.(rows := table.rows + [row]);
    RemediatedIff(c, version, table);
    RemediatedIff(c, version, t2);
    UnusableRowNeverBlocks(c, cur, row);
    BlockingSnoc(c, cur, table.rows, row);
  }

  /** Appending a row that does not block changes nothing about blocking. */
  lemma BlockingSnoc(c: RemediationContext, cur: Version, rows: seq<VulnRecord>, row: VulnRecord)
    requires !Blocks(c, cur, row)
    ensures SomeRowBlocks(c, cur, rows + [row]) <==> SomeRowBlocks(c, cur, rows)
  {
    var all := rows + [row];
    if SomeRowBlocks(c, cur, all) {
      var k :| 0 <= k < |all| && all[k].package == c.dependency && Blocks(c, cur, all[k]);
      assert k < |rows| && all[k] == rows[k];
    }
    if SomeRowBlocks(c, cur, rows) {
      var k :| 0 <= k < |rows| && rows[k].package == c.dependency && Blocks(c, cur, rows[k]);
      assert all[k] == rows[k];
    }
  }

  /** The two cases of the source's tests: a fix out before the interval start, and one out after it. */
  lemma RemediationExamples()
    ensures var ctx := RemediationContext("dep", 1578182400, Metadata([], [("2.0.0", [ReleaseFile(Some("2020-01-02T00:00:00Z"))])]),
        "pypi", ExampleVersions, s => if s == "2020-01-02T00:00:00Z" then Some(1577923200) else None);
      !IsRemediated(ctx, Some("1.5.0"), VulnTable(true, [VulnRecord("", "", "dep", "1.0.0", "2.0.0")]))
    ensures var ctx := RemediationContext("dep", 1578182400, Metadata([], [("2.0.0", [ReleaseFile(Some("2020-01-09T00:00:00Z"))])]),
        "pypi", ExampleVersions, s => if s == "2020-01-09T00:00:00Z" then Some(1578528000) else None);
      IsRemediated(ctx, Some("1.5.0"), VulnTable(true, [VulnRecord("", "", "dep", "1.0.0", "2.0.0")]))
  {
    var row := VulnRecord("", "", "dep", "1.0.0", "2.0.0");
    assert DepRows([row], "dep") == [row] by {
      assert [row][..0] == [];
    }
  }

  function ExampleVersions(s: string): Option<Version>
  {
    if s == "1.0.0" then Some(Version(1, 0, 0))
    else if s == "1.5.0" then Some(Version(1, 5, 0))
    else if s == "2.0.0" then Some(Version(2, 0, 0))
    else None
  }
}
