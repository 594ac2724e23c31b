/**
 * `osv_builder.py`: shaping OSV vulnerability entries into rows of
 * (id, ecosystem, package, introduced, fixed), the version normaliser applied
 * to both version columns, and the package filter over the resulting table.
 */
module OsvBuilder {
  import opened Wrappers
  import opened Text
  import opened Seqs

  // ---------------------------------------------------------------------------
  // transformation_semver
  // ---------------------------------------------------------------------------

  /** Length of the longest prefix of `s` made of ASCII digits. */
  function DigitPrefix(s: string): (n: nat)
    ensures n <= |s|
    ensures forall i :: 0 <= i < n ==> IsDigit(s[i])
    ensures n < |s| ==> !IsDigit(s[n])
  {
    if s != [] && IsDigit(s[0]) then 1 + DigitPrefix(s[1..]) else 0
  }

  /** `re.match(r'(\d+(\.\d*))', s)` succeeds: `s` starts with digits and then a dot. */
  predicate StartsWithDigitsDot(s: string)
  {
    var n := DigitPrefix(s);
    0 < n < |s| && s[n] == '.'
  }

  /** `transformation_semver`: pads a one- or two-part version to three parts. */
  function TransformationSemver(v: string): (r: string)
    ensures r == v || r == v + ".0" || r == v + ".0.0"
    ensures Count(v, '.') == 0 ==> r == v + ".0.0"
    ensures Count(v, '.') == 1 && StartsWithDigitsDot(v) ==> r == v + ".0"
    ensures Count(v, '.') >= 2 || (Count(v, '.') == 1 && !StartsWithDigitsDot(v)) ==> r == v
  {
    if v == "0" then
      assert v[..0] == [];
      assert Count(v, '.') == Count([], '.') + 0;
      "0.0.0"
    else if Count(v, '.') == 0 then v + ".0.0"
    else if StartsWithDigitsDot(v) && Count(v, '.') == 1 then v + ".0"
    else v
  }

  /** The cases the source's tests pin down. */
  lemma TransformationSemverExamples()
    ensures TransformationSemver("0") == "0.0.0"
    ensures TransformationSemver("1") == "1.0.0"
    ensures TransformationSemver("1.2") == "1.2.0"
    ensures TransformationSemver("1.2.3") == "1.2.3"
    ensures TransformationSemver("v1.2") == "v1.2"
  {
    assert Count("1.2.3", '.') == 2 by {
      assert "1.2.3"[..4] == "1.2." && "1.2."[..3] == "1.2" && "1.2"[..2] == "1." && "1."[..1] == "1";
    }
    assert Count("1.2", '.') == 1 by {
      assert "1.2"[..2] == "1." && "1."[..1] == "1";
    }
    assert Count("v1.2", '.') == 1 by {
      assert "v1.2"[..3] == "v1." && "v1."[..2] == "v1" && "v1"[..1] == "v";
    }
    assert DigitPrefix("1.2") == 1 by {
      assert "1.2"[1..] == ".2";
    }
    assert DigitPrefix("v1.2") == 0;
  }

  lemma CountSuffixes(v: string)
    ensures Count(v + ".0", '.') == Count(v, '.') + 1
    ensures Count(v + ".0.0", '.') == Count(v, '.') + 2
  {
    CountAppend(v, ".0", '.');
    CountAppend(v, ".0.0", '.');
    assert Count(".0", '.') == 1 by {
      assert ".0"[..1] == ".";
    }
    assert Count(".0.0", '.') == 2 by {
      assert ".0.0"[..3] == ".0." && ".0."[..2] == ".0" && ".0"[..1] == ".";
    }
  }

  /** Normalising twice is normalising once: every output has at least two dots or is left alone. */
  lemma TransformationSemverIdempotent(v: string)
    ensures TransformationSemver(TransformationSemver(v)) == TransformationSemver(v)
  {
    var r := TransformationSemver(v);
    CountSuffixes(v);
    if r != v {
      assert Count(r, '.') >= 2;
    }
  }

  // ---------------------------------------------------------------------------
  // OSV entries and the event-pairing loop of parse_osv_files
  // ---------------------------------------------------------------------------

  /** One element of `events`: the values of its `introduced` and `fixed` keys, when present. */
  datatype Event = Event(introduced: Option<string>, fixed: Option<string>)

  /** One element of `ranges`: its `events` list, when present. */
  datatype Range = Range(events: Option<seq<Event>>)

  /** The `package` object of an affected entry: its `name` and `ecosystem`, when present. */
  datatype AffectedPackage = AffectedPackage(name: Option<string>, ecosystem: Option<string>)

  /** One element of `affected`: its `package` and `ranges`, when present. */
  datatype Affected = Affected(package: Option<AffectedPackage>, ranges: Option<seq<Range>>)

  /** A decoded OSV JSON document: its `id` and `affected` list, when present. */
  datatype OsvEntry = OsvEntry(id: Option<string>, affected: Option<seq<Affected>>)

  /** One row of the vulnerability table. */
  datatype VulnRecord = VulnRecord(vulId: string, ecosystem: string, package: string, introduced: string, fixed: string)

  function OrElse(o: Option<string>, d: string): string
  {
    if o.Some? then o.value else d
  }

  /** The value `vul_introduced` holds after the events `evs`: the most recent `introduced`. */
  function LastIntroduced(evs: seq<Event>): (r: Option<string>)
  {
    if evs == [] then None
    else if evs[|evs| - 1].introduced.Some? then evs[|evs| - 1].introduced
    else LastIntroduced(evs[..|evs| - 1])
  }

  /** Does event `e` close a vulnerable range opened by `intro`? */
  predicate Pairs(e: Event, intro: Option<string>)
  {
    e.introduced.None? && e.fixed.Some? && intro.Some?
  }

  /** The rows one `events` list yields: one per `fixed` event after some `introduced`. */
  function EventRecords(id: string, eco: string, name: string, evs: seq<Event>): (r: seq<VulnRecord>)
    ensures forall k :: 0 <= k < |r| ==> r[k].vulId == id && r[k].ecosystem == eco && r[k].package == name
  {
    if evs == [] then []
    else
      var p := evs[..|evs| - 1];
      var e := evs[|evs| - 1];
      if Pairs(e, LastIntroduced(p))
      then EventRecords(id, eco, name, p) + [VulnRecord(id, eco, name, LastIntroduced(p).value, e.fixed.value)]
      else EventRecords(id, eco, name, p)
  }

  /** No event after position `j` carries `introduced`. */
  ghost predicate NoIntroducedAfter(evs: seq<Event>, j: int)
  {
    forall k :: 0 <= k < |evs| && j < k ==> evs[k].introduced.None?
  }

  /** `vul_introduced` is the value of the latest event carrying `introduced`. */
  lemma {:induction false} LastIntroducedIsMostRecent(evs: seq<Event>, v: string)
    ensures LastIntroduced(evs) == Some(v) <==>
      exists j :: 0 <= j < |evs| && evs[j].introduced == Some(v) && NoIntroducedAfter(evs, j)
  {
    if evs != [] {
      var p := evs[..|evs| - 1];
      var n := |evs| - 1;
      LastIntroducedIsMostRecent(p, v);
      if evs[n].introduced.Some? {
        if evs[n].introduced == Some(v) {
          assert NoIntroducedAfter(evs, n);
        } else {
          forall j | 0 <= j < |evs| && evs[j].introduced == Some(v)
            ensures !NoIntroducedAfter(evs, j)
          {
            assert j < n;
          }
        }
      } else {
        if LastIntroduced(p) == Some(v) {
          var j :| 0 <= j < |p| && p[j].introduced == Some(v) && NoIntroducedAfter(p, j);
          assert evs[j] == p[j];
          forall k | j < k < |evs| ensures evs[k].introduced.None? {
            if k < n { assert evs[k] == p[k]; }
          }
          assert NoIntroducedAfter(evs, j);
        }
        forall j | 0 <= j < |evs| && evs[j].introduced == Some(v) && NoIntroducedAfter(evs, j)
          ensures LastIntroduced(p) == Some(v)
        {
          assert j < n;
          assert p[j] == evs[j];
          forall k | j < k < |p| ensures p[k].introduced.None? {
            assert p[k] == evs[k];
          }
          assert NoIntroducedAfter(p, j);
        }
      }
    }
  }

  /** Every row comes from a `fixed` event, paired with the `introduced` value current at that event. */
  lemma {:induction false} EventRecordsSound(id: string, eco: string, name: string, evs: seq<Event>, k: nat)
    requires k < |EventRecords(id, eco, name, evs)|
    ensures var r := EventRecords(id, eco, name, evs)[k];
      exists j :: 0 <= j < |evs| && Pairs(evs[j], LastIntroduced(evs[..j])) &&
        r.fixed == evs[j].fixed.value && r.introduced == LastIntroduced(evs[..j]).value
  {
    var p := evs[..|evs| - 1];
    var n := |evs| - 1;
    var r := EventRecords(id, eco, name, evs)[k];
    assert evs[..n] == p;
    if k < |EventRecords(id, eco, name, p)| {
      EventRecordsSound(id, eco, name, p, k);
      var j :| 0 <= j < |p| && Pairs(p[j], LastIntroduced(p[..j])) &&
        EventRecords(id, eco, name, p)[k].fixed == p[j].fixed.value &&
        EventRecords(id, eco, name, p)[k].introduced == LastIntroduced(p[..j]).value;
      assert p[..j] == evs[..j] && p[j] == evs[j];
      assert r == EventRecords(id, eco, name, p)[k];
    } else {
      assert Pairs(evs[n], LastIntroduced(evs[..n]));
    }
  }

  /** Every `fixed` event after some `introduced` yields its row, in event order. */
  lemma {:induction false} EventRecordsComplete(id: string, eco: string, name: string, evs: seq<Event>, j: nat)
    requires j < |evs| && Pairs(evs[j], LastIntroduced(evs[..j]))
    ensures VulnRecord(id, eco, name, LastIntroduced(evs[..j]).value, evs[j].fixed.value)
      in EventRecords(id, eco, name, evs)
  {
    var p := evs[..|evs| - 1];
    var n := |evs| - 1;
    assert evs[..n] == p;
    if j < n {
      assert p[..j] == evs[..j] && p[j] == evs[j];
      EventRecordsComplete(id, eco, name, p, j);
    }
  }

  /** Events before the first `introduced` yield nothing; a list with no `introduced` yields no row. */
  lemma {:induction false} NoIntroducedNoRecords(id: string, eco: string, name: string, evs: seq<Event>)
    requires forall k :: 0 <= k < |evs| ==> evs[k].introduced.None?
    ensures LastIntroduced(evs) == None
    ensures EventRecords(id, eco, name, evs) == []
  {
    if evs != [] {
      var p := evs[..|evs| - 1];
      assert forall k :: 0 <= k < |p| ==> p[k] == evs[k];
      NoIntroducedNoRecords(id, eco, name, p);
    }
  }

  /** `introduced` is not reset by `fixed`: consecutive fixes share it; a later `introduced` replaces it. */
  lemma PairingExamples()
    ensures EventRecords("X", "NPM", "p", [Event(Some("1.0.0"), None), Event(None, Some("1.0.1")), Event(None, Some("1.0.2"))])
      == [VulnRecord("X", "NPM", "p", "1.0.0", "1.0.1"), VulnRecord("X", "NPM", "p", "1.0.0", "1.0.2")]
    ensures EventRecords("X", "NPM", "p", [Event(None, Some("0.9")), Event(Some("1.0.0"), None), Event(None, Some("1.0.1"))])
      == [VulnRecord("X", "NPM", "p", "1.0.0", "1.0.1")]
    ensures EventRecords("X", "NPM", "p", [Event(Some("1"), None), Event(Some("2"), None), Event(None, Some("3"))])
      == [VulnRecord("X", "NPM", "p", "2", "3")]
  {
    var a := [Event(Some("1.0.0"), None), Event(None, Some("1.0.1")), Event(None, Some("1.0.2"))];
    assert a[..3][..2] == a[..2] && a[..2][..1] == a[..1] && a[..1][..0] == [];
    assert LastIntroduced(a[..1]) == Some("1.0.0");
    assert LastIntroduced(a[..2]) == Some("1.0.0");
    assert EventRecords("X", "NPM", "p", a[..1]) == [];
    assert EventRecords("X", "NPM", "p", a[..2]) == [VulnRecord("X", "NPM", "p", "1.0.0", "1.0.1")];
    assert a[..3] == a;
    var b := [Event(None, Some("0.9")), Event(Some("1.0.0"), None), Event(None, Some("1.0.1"))];
    assert b[..2][..1] == b[..1];
    var c := [Event(Some("1"), None), Event(Some("2"), None), Event(None, Some("3"))];
    assert c[..2][..1] == c[..1];
  }

  /** The rows of one range: none when it has no `events`. */
  function RangeRecords(id: string, eco: string, name: string, rg: Range): seq<VulnRecord>
  {
    match rg.events
    case None => []
    case Some(evs) => EventRecords(id, eco, name, evs)
  }

  function RangesRecords(id: string, eco: string, name: string, rs: seq<Range>): seq<VulnRecord>
  {
    if rs == [] then []
    else RangesRecords(id, eco, name, rs[..|rs| - 1]) + RangeRecords(id, eco, name, rs[|rs| - 1])
  }

  /**
   * The rows of one affected entry: none without `package` or `ranges`;
   * otherwise keyed by the package name and the upper-cased ecosystem ('' when absent).
   */
  function AffectedRecords(id: string, a: Affected): seq<VulnRecord>
  {
    if a.package.None? || a.ranges.None? then []
    else RangesRecords(id, EcosystemOf(a.package.value), OrElse(a.package.value.name, ""), a.ranges.value)
  }

  /** `package.get('ecosystem', '').upper()`. */
  function EcosystemOf(p: AffectedPackage): (r: string)
    ensures HasNoLowerCase(r)
  {
    UpperHasNoLowerCase(OrElse(p.ecosystem, ""));
    Upper(OrElse(p.ecosystem, ""))
  }

  function AffectedListRecords(id: string, xs: seq<Affected>): seq<VulnRecord>
  {
    if xs == [] then []
    else AffectedListRecords(id, xs[..|xs| - 1]) + AffectedRecords(id, xs[|xs| - 1])
  }

  /** The rows of one document: none when it has no `affected`; the id is '' when absent. */
  function EntryRecords(e: OsvEntry): seq<VulnRecord>
  {
    match e.affected
    case None => []
    case Some(xs) => AffectedListRecords(OrElse(e.id, ""), xs)
  }

  /** The rows of all files before normalisation; `None` is a file that is not valid JSON, skipped. */
  function FilesRecords(files: seq<Option<OsvEntry>>): seq<VulnRecord>
  {
    if files == [] then []
    else
      var f := files[|files| - 1];
      FilesRecords(files[..|files| - 1]) + (if f.Some? then EntryRecords(f.value) else [])
  }

  /** Both version columns after `transformation_semver`. */
  function Normalize(rows: seq<VulnRecord>): (r: seq<VulnRecord>)
    ensures |r| == |rows|
    ensures forall i :: 0 <= i < |r| ==>
      r[i] == rows[i].(introduced := TransformationSemver(rows[i].introduced), fixed := TransformationSemver(rows[i].fixed))
  {
    seq(|rows|, i requires 0 <= i < |rows| =>
      rows[i].(introduced := TransformationSemver(rows[i].introduced), fixed := TransformationSemver(rows[i].fixed)))
  }

  /** The inner loop over `events`, appending each paired row to `records`. */
  method PairEvents(id: string, eco: string, name: string, evs: seq<Event>, records: seq<VulnRecord>)
    returns (out: seq<VulnRecord>)
    ensures out == records + EventRecords(id, eco, name, evs)
  {
    out := records;
    var introduced: Option<string> := None;
    var i := 0;
    while i < |evs|
      invariant 0 <= i <= |evs|
      invariant introduced == LastIntroduced(evs[..i])
      invariant out == records + EventRecords(id, eco, name, evs[..i])
    {
      var ev := evs[i];
      assert evs[..i + 1][..i] == evs[..i];
      if ev.introduced.Some? {
        introduced := ev.introduced;
      } else if ev.fixed.Some? && introduced.Some? {
        out := out + [VulnRecord(id, eco, name, introduced.value, ev.fixed.value)];
      }
      i := i + 1;
    }
    TakeAll(evs);
  }

  /** The loop over `ranges`, skipping ranges without `events`. */
  method CollectRanges(id: string, eco: string, name: string, rs: seq<Range>, records: seq<VulnRecord>)
    returns (out: seq<VulnRecord>)
    ensures out == records + RangesRecords(id, eco, name, rs)
  {
    out := records;
    var i := 0;
    while i < |rs|
      invariant 0 <= i <= |rs|
      invariant out == records + RangesRecords(id, eco, name, rs[..i])
    {
      RangesStep(id, eco, name, rs, i, records);
      out := CollectRange(id, eco, name, rs[i], out);
      i := i + 1;
    }
    TakeAll(rs);
  }

  /** One pass of the loop over `ranges`. */
  method CollectRange(id: string, eco: string, name: string, rg: Range, records: seq<VulnRecord>) returns (out: seq<VulnRecord>)
    ensures out == records + RangeRecords(id, eco, name, rg)
  {
    out := records;
    if rg.events.Some? {
      out := PairEvents(id, eco, name, rg.events.value, out);
    }
  }

  lemma RangesStep(id: string, eco: string, name: string, rs: seq<Range>, i: int, records: seq<VulnRecord>)
    requires 0 <= i < |rs|
    ensures records + RangesRecords(id, eco, name, rs[..i + 1])
         == (records + RangesRecords(id, eco, name, rs[..i])) + RangeRecords(id, eco, name, rs[i])
  {
    assert rs[..i + 1][..i] == rs[..i];
  }

  /** The loop over `affected`, skipping entries without `package` or `ranges`. */
  method CollectAffected(id: string, xs: seq<Affected>, records: seq<VulnRecord>)
    returns (out: seq<VulnRecord>)
    ensures out == records + AffectedListRecords(id, xs)
  {
    out := records;
    var i := 0;
    while i < |xs|
      invariant 0 <= i <= |xs|
      invariant out == records + AffectedListRecords(id, xs[..i])
    {
      AffectedListStep(id, xs, i, records);
      out := CollectAffectedEntry(id, xs[i], out);
      i := i + 1;
    }
    TakeAll(xs);
  }

  /** One pass of the loop over `affected`. */
  method CollectAffectedEntry(id: string, a: Affected, records: seq<VulnRecord>) returns (out: seq<VulnRecord>)
    ensures out == records + AffectedRecords(id, a)
  {
    out := records;
    if a.package.Some? && a.ranges.Some? {
      out := CollectRanges(id, EcosystemOf(a.package.value), OrElse(a.package.value.name, ""), a.ranges.value, out);
    }
  }

  lemma AffectedListStep(id: string, xs: seq<Affected>, i: int, records: seq<VulnRecord>)
    requires 0 <= i < |xs|
    ensures records + AffectedListRecords(id, xs[..i + 1])
         == (records + AffectedListRecords(id, xs[..i])) + AffectedRecords(id, xs[i])
  {
    assert xs[..i + 1][..i] == xs[..i];
  }

  /** `parse_osv_files`: the loop over the decoded files, then the normalisation of both version columns. */
  method ParseOsvFiles(files: seq<Option<OsvEntry>>) returns (table: seq<VulnRecord>)
    ensures table == Normalize(FilesRecords(files))
  {
    var records: seq<VulnRecord> := [];
    var i := 0;
    while i < |files|
      invariant 0 <= i <= |files|
      invariant records == FilesRecords(files[..i])
    {
      assert files[..i + 1][..i] == files[..i];
      var f := files[i];
      if f.Some? && f.value.affected.Some? {
        records := CollectAffected(OrElse(f.value.id, ""), f.value.affected.value, records);
      }
      i := i + 1;
    }
    TakeAll(files);
    table := Normalize(records);
  }

  /** Every row's ecosystem is upper-cased, at every level of the loop nest. */
  lemma {:induction false} RangesUpper(id: string, eco: string, name: string, rs: seq<Range>)
    requires HasNoLowerCase(eco)
    ensures forall k :: 0 <= k < |RangesRecords(id, eco, name, rs)| ==> HasNoLowerCase(RangesRecords(id, eco, name, rs)[k].ecosystem)
  {
    if rs != [] {
      RangesUpper(id, eco, name, rs[..|rs| - 1]);
    }
  }

  lemma {:induction false} AffectedListUpper(id: string, xs: seq<Affected>)
    ensures forall k :: 0 <= k < |AffectedListRecords(id, xs)| ==> HasNoLowerCase(AffectedListRecords(id, xs)[k].ecosystem)
  {
    if xs != [] {
      AffectedListUpper(id, xs[..|xs| - 1]);
      var a := xs[|xs| - 1];
      if a.package.Some? && a.ranges.Some? {
        RangesUpper(id, EcosystemOf(a.package.value), OrElse(a.package.value.name, ""), a.ranges.value);
      }
    }
  }

  /** Ecosystems are stored upper-cased. */
  lemma {:induction false} EcosystemsUpperCase(files: seq<Option<OsvEntry>>)
    ensures forall k :: 0 <= k < |FilesRecords(files)| ==> HasNoLowerCase(FilesRecords(files)[k].ecosystem)
  {
    if files != [] {
      EcosystemsUpperCase(files[..|files| - 1]);
      var f := files[|files| - 1];
      if f.Some? && f.value.affected.Some? {
        AffectedListUpper(OrElse(f.value.id, ""), f.value.affected.value);
      }
    }
  }

  // ---------------------------------------------------------------------------
  // get_vulnerabilities
  // ---------------------------------------------------------------------------

  /** The rows `get_vulnerabilities(ecosystem, package)` keeps. */
  predicate Matches(r: VulnRecord, ecosystem: string, package: string)
  {
    r.ecosystem == Upper(ecosystem) && r.package == package
  }

  function FilterRows(db: seq<VulnRecord>, ecosystem: string, package: string): (r: seq<VulnRecord>)
    ensures forall v :: v in r <==> v in db && Matches(v, ecosystem, package)
    ensures |r| <= |db|
  {
    if db == [] then []
    else
      var rest := FilterRows(db[..|db| - 1], ecosystem, package);
      assert forall v :: v in db <==> v in db[..|db| - 1] || v == db[|db| - 1] by {
        assert db == db[..|db| - 1] + [db[|db| - 1]];
      }
      if Matches(db[|db| - 1], ecosystem, package) then rest + [db[|db| - 1]] else rest
  }

  /** The boolean mask keeps the table's row order: filtering distributes over concatenation. */
  lemma {:induction false} FilterRowsAppend(a: seq<VulnRecord>, b: seq<VulnRecord>, ecosystem: string, package: string)
    ensures FilterRows(a + b, ecosystem, package) == FilterRows(a, ecosystem, package) + FilterRows(b, ecosystem, package)
    decreases |b|
  {
    if b == [] {
      assert a + b == a;
    } else {
      var front := b[..|b| - 1];
      assert (a + b)[..|a + b| - 1] == a + front;
      assert (a + b)[|a + b| - 1] == b[|b| - 1];
      FilterRowsAppend(a, front, ecosystem, package);
    }
  }

  /** `get_vulnerabilities`: the database file missing is an error. */
  function GetVulnerabilities(db: Option<seq<VulnRecord>>, ecosystem: string, package: string): (r: Result<seq<VulnRecord>>)
    ensures db.None? <==> r.Err?
    ensures r.Ok? ==> forall v :: v in r.value <==> v in db.value && Matches(v, ecosystem, package)
  {
    match db
    case None => Err("OSV database not found. Run with --build-osv first.")
    case Some(rows) => Ok(FilterRows(rows, ecosystem, package))
  }
}
