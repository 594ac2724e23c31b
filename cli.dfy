/**
 * `cli.py`, the bulk path of `main`: reading the input CSV into rows,
 * dropping duplicate rows, grouping rows by package, ordering each group,
 * turning each row into a summary (an error row when anything raised), and
 * ordering the summaries by CSV line.  The analyzer the bulk path calls, the
 * date parser and today's date are parameters.
 */
module Cli {
  import opened Wrappers
  import opened Dicts
  import opened Text
  import opened Sorting
  import opened OsvBuilder
  import opened Analyzer
  import opened Seqs

  // ---------------------------------------------------------------------------
  // _load_input_csv
  // ---------------------------------------------------------------------------

  /**
   * The frame `pandas.read_csv` yields: its column labels and, per record, one
   * cell per column (None: a missing value, which pandas reads as NaN).
   */
  datatype Frame = Frame(columns: seq<string>, records: seq<seq<Option<string>>>)

  /** One input row: the four named fields, every other column, and its CSV line number. */
  datatype InputRow = InputRow(
    ecosystem: string,
    packageName: string,
    endDate: string,
    startDate: string,
    extra: Dict<string, string>,
    rowNum: nat)

  const NoDataRows: string := "Input CSV contains no data rows."

  /** The columns a row must have, in sorted order. */
  const Required: seq<string> := ["ecosystem", "end_date", "package_name"]

  /** The keys of a row that do not come from `extra`. */
  predicate Reserved(key: string)
  {
    key == "ecosystem" || key == "package_name" || key == "end_date" || key == "start_date" || key == "_row_num"
  }

  /** A header with white space stripped from both ends, then byte-order marks stripped from its start only. */
  function NormalizeHeader(name: string): string
  {
    LStripChar(Strip(name), '\U{FEFF}')
  }

  /** `normalized_fields`: the normalised header of every column. */
  function NormalizedFields(columns: seq<string>): (r: seq<string>)
    ensures |r| == |columns| && forall i :: 0 <= i < |columns| ==> r[i] == NormalizeHeader(columns[i])
  {
    MapSeq(NormalizeHeader, columns)
  }

  /** `field_map`: lower-cased header to header; the last column with a given lower-cased header wins. */
  function FieldMap(fields: seq<string>): Dict<string, string>
  {
    FromPairs(seq(|fields|, i requires 0 <= i < |fields| => (Lower(fields[i]), fields[i])))
  }

  /** `sorted(required - field_map.keys())`. */
  function MissingColumns(fm: Dict<string, string>): (r: seq<string>)
    ensures forall x :: x in r <==> x in Required && !HasKey(fm, x)
    ensures forall i, j :: 0 <= i < j < |r| ==> StrLt(r[i], r[j])
  {
    assert StrLt("ecosystem", "end_date") && StrLt("end_date", "package_name") && StrLt("ecosystem", "package_name");
    (if HasKey(fm, "ecosystem") then [] else ["ecosystem"])
    + (if HasKey(fm, "end_date") then [] else ["end_date"])
    + (if HasKey(fm, "package_name") then [] else ["package_name"])
  }

  /** `sep.join(xs)`. */
  function Join(xs: seq<string>, sep: string): string
  {
    if xs == [] then ""
    else if |xs| == 1 then xs[0]
    else Join(xs[..|xs| - 1], sep) + sep + xs[|xs| - 1]
  }

  function MissingColumnsMessage(missing: seq<string>, fields: seq<string>): string
  {
    "Input CSV missing required columns: " + Join(missing, ", ") + ". Found columns: "
    + (if fields == [] then "none" else Join(fields, ", ")) + "."
  }

  /** A cell as text: empty for a missing value, otherwise stripped. */
  function CellText(cells: seq<Option<string>>, i: int): string
  {
    if 0 <= i < |cells| && cells[i].Some? then Strip(cells[i].value) else ""
  }

  /** `cleaned`: normalised header to cell text; the last column with a given header wins. */
  function Cleaned(columns: seq<string>, cells: seq<Option<string>>): Dict<string, string>
  {
    FromPairs(seq(|columns|, i requires 0 <= i < |columns| => (NormalizeHeader(columns[i]), CellText(cells, i))))
  }

  function OrEmpty(o: Option<string>): string
  {
    if o.Some? then o.value else ""
  }

  /** `cleaned.get(field_map.get(field, ""), "")`. */
  function ColumnValue(fm: Dict<string, string>, cleaned: Dict<string, string>, field: string): string
  {
    OrEmpty(Get(cleaned, OrEmpty(Get(fm, field))))
  }

  /** The entries of `cleaned` that the row keeps besides its named fields. */
  function Extra(cleaned: Dict<string, string>): Dict<string, string>
  {
    if cleaned == [] then []
    else if Reserved(cleaned[0].0) then Extra(cleaned[1..])
    else [cleaned[0]] + Extra(cleaned[1..])
  }

  /** The row keeps every entry of `cleaned` except the named fields, with the same values. */
  lemma {:induction false} ExtraKeeps(cleaned: Dict<string, string>)
    ensures forall e :: e in Extra(cleaned) <==> e in cleaned && !Reserved(e.0)
    ensures forall x :: !Reserved(x) ==> Get(Extra(cleaned), x) == Get(cleaned, x)
  {
    if cleaned != [] {
      ExtraKeeps(cleaned[1..]);
      assert cleaned == [cleaned[0]] + cleaned[1..];
    }
  }

  /** `row.get(name, "")` on a loaded row. */
  function Field(row: InputRow, name: string): string
  {
    if name == "ecosystem" then row.ecosystem
    else if name == "package_name" then row.packageName
    else if name == "end_date" then row.endDate
    else if name == "start_date" then row.startDate
    else OrEmpty(Get(row.extra, name))
  }

  /** `LoadRow` as a function value, for the loop over the records. */
  function RecordLoader(fm: Dict<string, string>, columns: seq<string>): (seq<Option<string>>, nat) -> InputRow
  {
    (cells: seq<Option<string>>, idx: nat) => LoadRow(fm, columns, cells, idx)
  }

  /** The row built from record `idx`. */
  function LoadRow(fm: Dict<string, string>, columns: seq<string>, cells: seq<Option<string>>, idx: nat): InputRow
  {
    var cleaned := Cleaned(columns, cells);
    InputRow(
      ColumnValue(fm, cleaned, "ecosystem"),
      ColumnValue(fm, cleaned, "package_name"),
      ColumnValue(fm, cleaned, "end_date"),
      ColumnValue(fm, cleaned, "start_date"),
      Extra(cleaned),
      idx + 2)
  }

  /**
   * `_load_input_csv` after decoding: an empty frame and a missing required
   * column raise; otherwise one row per record, numbered from 2 (the header
   * is line 1).
   */
  function InputRows(f: Frame): (r: Result<seq<InputRow>>)
    ensures f.columns == [] || f.records == [] ==> r == Err(NoDataRows)
    ensures r.Ok? ==> |r.value| == |f.records| && forall k :: 0 <= k < |r.value| ==> r.value[k].rowNum == k + 2
  {
    if f.columns == [] || f.records == [] then Err(NoDataRows)
    else
      var fields := NormalizedFields(f.columns);
      var fm := FieldMap(fields);
      var missing := MissingColumns(fm);
      if missing != [] then Err(MissingColumnsMessage(missing, fields))
      else Ok(LoadRecords(fm, f.columns, f.records))
  }

  /** One row per record, in order. */
  function LoadRecords(fm: Dict<string, string>, columns: seq<string>, records: seq<seq<Option<string>>>): (r: seq<InputRow>)
    ensures |r| == |records| && forall k :: 0 <= k < |r| ==> r[k].rowNum == k + 2
  {
    MapIndexed(RecordLoader(fm, columns), records)
  }

  /** Column `j` is the last whose normalised header, lower-cased, is `x`. */
  predicate LastMatching(columns: seq<string>, x: string, j: int)
  {
    && 0 <= j < |columns|
    && Lower(NormalizeHeader(columns[j])) == x
    && forall i :: j < i < |columns| ==> Lower(NormalizeHeader(columns[i])) != x
  }

  /** A required column is missing iff no header matches it, ignoring case, white space and byte-order marks. */
  lemma MissingIffNoHeader(f: Frame, x: string)
    requires f.columns != [] && f.records != []
    requires x in Required
    ensures x in MissingColumns(FieldMap(NormalizedFields(f.columns)))
            <==> forall j :: 0 <= j < |f.columns| ==> Lower(NormalizeHeader(f.columns[j])) != x
  {
    FieldMapHasKey(f.columns, x);
  }

  /** The header map has a key iff some column's normalised, lower-cased header is that key. */
  lemma FieldMapHasKey(columns: seq<string>, x: string)
    ensures HasKey(FieldMap(NormalizedFields(columns)), x)
            <==> exists j :: 0 <= j < |columns| && Lower(NormalizeHeader(columns[j])) == x
  {
    var fields := NormalizedFields(columns);
    var ps := seq(|fields|, i requires 0 <= i < |fields| => (Lower(fields[i]), fields[i]));
    FromPairsHasKey(ps, x);
    forall j | 0 <= j < |columns| ensures ps[j].0 == Lower(NormalizeHeader(columns[j])) {
    }
  }

  /**
   * The value of a named field is the cell of the LAST column whose header
   * matches it case-insensitively.
   */
  lemma HeaderLookup(columns: seq<string>, cells: seq<Option<string>>, x: string, j: int)
    requires LastMatching(columns, x, j)
    ensures ColumnValue(FieldMap(NormalizedFields(columns)), Cleaned(columns, cells), x) == CellText(cells, j)
  {
    FieldMapLookup(columns, x, j);
    forall i | j < i < |columns| ensures NormalizeHeader(columns[i]) != NormalizeHeader(columns[j]) {
      assert Lower(NormalizeHeader(columns[i])) != x;
    }
    CleanedLookup(columns, cells, j);
  }

  lemma FieldMapLookup(columns: seq<string>, x: string, j: int)
    requires LastMatching(columns, x, j)
    ensures Get(FieldMap(NormalizedFields(columns)), x) == Some(NormalizeHeader(columns[j]))
  {
    var fields := NormalizedFields(columns);
    var ps := seq(|fields|, i requires 0 <= i < |fields| => (Lower(fields[i]), fields[i]));
    assert FieldMap(fields) == FromPairs(ps);
    forall i | j < i < |ps| ensures ps[i].0 != x {
      assert ps[i].0 == Lower(NormalizeHeader(columns[i]));
    }
    assert ps[j] == (x, NormalizeHeader(columns[j]));
    FromPairsLast(ps, x, j);
  }

  /** The cell of the last column with a given normalised header. */
  lemma CleanedLookup(columns: seq<string>, cells: seq<Option<string>>, j: int)
    requires 0 <= j < |columns|
    requires forall i :: j < i < |columns| ==> NormalizeHeader(columns[i]) != NormalizeHeader(columns[j])
    ensures Get(Cleaned(columns, cells), NormalizeHeader(columns[j])) == Some(CellText(cells, j))
  {
    var cs := seq(|columns|, i requires 0 <= i < |columns| => (NormalizeHeader(columns[i]), CellText(cells, i)));
    FromPairsLast(cs, NormalizeHeader(columns[j]), j);
  }

  /**
   * Every loaded row takes each named field from the last column whose
   * header matches it case-insensitively (as `tests/test_bulk_csv.py` checks
   * for an exact-case header row).
   */
  lemma LoadedField(f: Frame, k: int, x: string, j: int)
    requires InputRows(f).Ok? && 0 <= k < |f.records|
    requires x == "ecosystem" || x == "package_name" || x == "end_date" || x == "start_date"
    requires LastMatching(f.columns, x, j)
    ensures Field(InputRows(f).value[k], x) == CellText(f.records[k], j)
  {
    LoadedRow(f, k);
    HeaderLookup(f.columns, f.records[k], x, j);
  }

  /** Row `k` is record `k` loaded through the header map. */
  lemma LoadedRow(f: Frame, k: int)
    requires InputRows(f).Ok? && 0 <= k < |f.records|
    ensures InputRows(f).value[k] == LoadRow(FieldMap(NormalizedFields(f.columns)), f.columns, f.records[k], k)
  {
  }

  /** Any other column is kept under its normalised header, with the last column of that header winning. */
  lemma LoadedExtra(f: Frame, k: int, x: string, j: int)
    requires InputRows(f).Ok? && 0 <= k < |f.records|
    requires !Reserved(x)
    requires 0 <= j < |f.columns| && NormalizeHeader(f.columns[j]) == x
    requires forall i :: j < i < |f.columns| ==> NormalizeHeader(f.columns[i]) != x
    ensures Field(InputRows(f).value[k], x) == CellText(f.records[k], j)
  {
    LoadedRow(f, k);
    CleanedLookup(f.columns, f.records[k], j);
    ExtraKeeps(Cleaned(f.columns, f.records[k]));
  }

  /** A frame with every required column loads unless it is empty; one without one of them fails. */
  lemma LoadOutcome(f: Frame)
    ensures InputRows(f).Err? <==>
            (f.columns == [] || f.records == [] ||
             exists x :: x in Required && forall j :: 0 <= j < |f.columns| ==> Lower(NormalizeHeader(f.columns[j])) != x)
  {
    if f.columns != [] && f.records != [] {
      var missing := MissingColumns(FieldMap(NormalizedFields(f.columns)));
      assert InputRows(f).Err? <==> missing != [];
      if missing != [] {
        assert missing[0] in Required && missing[0] in missing;
      }
      forall x | x in Required
        ensures x in missing <==> forall j :: 0 <= j < |f.columns| ==> Lower(NormalizeHeader(f.columns[j])) != x
      {
        MissingIffNoHeader(f, x);
      }
    }
  }

  /** `_load_input_csv`: the loop over the columns, then the loop over `df.iterrows()`. */
  method LoadInputCsv(f: Frame) returns (r: Result<seq<InputRow>>)
    ensures r == InputRows(f)
  {
    if f.columns == [] || f.records == [] {
      return Err(NoDataRows);
    }
    var fields := MapLoop(NormalizeHeader, f.columns);
    var fm := FieldMap(fields);
    var missing := MissingColumns(fm);
    if missing != [] {
      return Err(MissingColumnsMessage(missing, fields));
    }
    var rows := MapIndexedLoop(RecordLoader(fm, f.columns), f.records);
    r := Ok(rows);
  }

  // ---------------------------------------------------------------------------
  // De-duplication
  // ---------------------------------------------------------------------------

  /** Rows are duplicates when ecosystem and package (ignoring case and white space) and end date (ignoring white space) agree. */
  function DedupKey(row: InputRow): (string, string, string)
  {
    (Lower(Strip(row.ecosystem)), Lower(Strip(row.packageName)), Strip(row.endDate))
  }

  /** Element `i` is the first with its key. */
  predicate FirstOfKey<T, K(==)>(xs: seq<T>, key: T -> K, i: int)
    requires 0 <= i < |xs|
  {
    forall j :: 0 <= j < i ==> key(xs[j]) != key(xs[i])
  }

  /** The elements the de-duplication loop keeps. */
  function Deduplicated<T, K(==)>(xs: seq<T>, key: T -> K): (r: seq<T>)
    ensures |r| <= |xs|
  {
    if xs == [] then []
    else
      var n := |xs| - 1;
      Deduplicated(xs[..n], key) + (if FirstOfKey(xs, key, n) then [xs[n]] else [])
  }

  /** The positions of the first element of each key, in increasing order. */
  function KeptIndices<T, K(==)>(xs: seq<T>, key: T -> K): (r: seq<nat>)
    ensures forall m :: 0 <= m < |r| ==> r[m] < |xs| && FirstOfKey(xs, key, r[m])
    ensures forall m, n :: 0 <= m < n < |r| ==> r[m] < r[n]
    ensures forall i :: 0 <= i < |xs| && FirstOfKey(xs, key, i) ==> i in r
  {
    if xs == [] then []
    else
      var n := |xs| - 1;
      var p := KeptIndices(xs[..n], key);
      PrefixFirstOfKey(xs, key, n);
      p + (if FirstOfKey(xs, key, n) then [n] else [])
  }

  /** Being first with a key does not depend on what comes later. */
  lemma PrefixFirstOfKey<T, K>(xs: seq<T>, key: T -> K, n: int)
    requires 0 <= n <= |xs|
    ensures forall i :: 0 <= i < n ==> (FirstOfKey(xs[..n], key, i) <==> FirstOfKey(xs, key, i))
  {
    forall i | 0 <= i < n ensures FirstOfKey(xs[..n], key, i) <==> FirstOfKey(xs, key, i) {
      assert forall j :: 0 <= j <= i ==> xs[..n][j] == xs[j];
    }
  }

  /**
   * De-duplication keeps exactly the first element of each key, in input
   * order: the result is the input at the increasing positions `KeptIndices`.
   */
  lemma {:induction false} DeduplicatedKeepsFirst<T, K>(xs: seq<T>, key: T -> K)
    ensures var idx := KeptIndices(xs, key); var r := Deduplicated(xs, key);
      |r| == |idx| && forall m :: 0 <= m < |r| ==> r[m] == xs[idx[m]]
  {
    if xs != [] {
      var n := |xs| - 1;
      DeduplicatedKeepsFirst(xs[..n], key);
    }
  }

  /** After de-duplication no two elements share a key, and every key of the input is still present. */
  lemma DeduplicatedKeys<T, K>(xs: seq<T>, key: T -> K)
    ensures var r := Deduplicated(xs, key);
      && (forall i, j :: 0 <= i < j < |r| ==> key(r[i]) != key(r[j]))
      && (forall i :: 0 <= i < |xs| ==> exists m :: 0 <= m < |r| && key(r[m]) == key(xs[i]))
  {
    var r := Deduplicated(xs, key);
    var idx := KeptIndices(xs, key);
    DeduplicatedKeepsFirst(xs, key);
    forall i, j | 0 <= i < j < |r| ensures key(r[i]) != key(r[j]) {
      assert idx[i] < idx[j] && FirstOfKey(xs, key, idx[j]);
    }
    forall i | 0 <= i < |xs| ensures exists m :: 0 <= m < |r| && key(r[m]) == key(xs[i]) {
      var f := FirstWithKey(xs, key, i);
      var m :| 0 <= m < |idx| && idx[m] == f;
      assert r[m] == xs[f];
    }
  }

  /** The first element sharing element `i`'s key. */
  lemma {:induction false} FirstWithKey<T, K>(xs: seq<T>, key: T -> K, i: int) returns (f: int)
    requires 0 <= i < |xs|
    ensures 0 <= f <= i && FirstOfKey(xs, key, f) && key(xs[f]) == key(xs[i])
  {
    if FirstOfKey(xs, key, i) {
      f := i;
    } else {
      var j :| 0 <= j < i && key(xs[j]) == key(xs[i]);
      f := FirstWithKey(xs, key, j);
    }
  }

  /** The keys of `xs[..i]`: the `seen_keys` set after `i` rows. */
  ghost function SeenKeys<T, K>(xs: seq<T>, key: T -> K, i: int): set<K>
    requires 0 <= i <= |xs|
  {
    set j | 0 <= j < i :: key(xs[j])
  }

  /** The de-duplication loop: a set of seen keys, the kept rows and the count of dropped rows. */
  method DeduplicateRows(rows: seq<InputRow>) returns (deduped: seq<InputRow>, duplicates: nat)
    ensures deduped == Deduplicated(rows, DedupKey)
    ensures duplicates == |rows| - |deduped|
  {
    deduped := [];
    duplicates := 0;
    var seen: set<(string, string, string)> := {};
    for i := 0 to |rows|
      invariant seen == SeenKeys(rows, DedupKey, i)
      invariant deduped == Deduplicated(rows[..i], DedupKey)
      invariant duplicates + |deduped| == i
    {
      seen, deduped, duplicates := DedupVisit(rows, DedupKey, i, seen, deduped, duplicates);
    }
    TakeAll(rows);
  }

  /** The body of the de-duplication loop for element `i`. */
  method DedupVisit<T, K(==)>(xs: seq<T>, key: T -> K, i: int, seen: set<K>, deduped: seq<T>, duplicates: nat)
    returns (seen': set<K>, deduped': seq<T>, duplicates': nat)
    requires 0 <= i < |xs|
    requires seen == SeenKeys(xs, key, i)
    requires deduped == Deduplicated(xs[..i], key)
    ensures seen' == SeenKeys(xs, key, i + 1)
    ensures deduped' == Deduplicated(xs[..i + 1], key)
    ensures duplicates' + |deduped'| == duplicates + |deduped| + 1
  {
    DedupStep(xs, key, i);
    var k := key(xs[i]);
    if k in seen {
      seen', deduped', duplicates' := seen, deduped, duplicates + 1;
    } else {
      seen', deduped', duplicates' := seen + {k}, deduped + [xs[i]], duplicates;
    }
  }

  /** One step of the loop: row `i` is kept iff its key was not seen before. */
  lemma DedupStep<T, K>(xs: seq<T>, key: T -> K, i: int)
    requires 0 <= i < |xs|
    ensures key(xs[i]) in SeenKeys(xs, key, i) <==> !FirstOfKey(xs, key, i)
    ensures SeenKeys(xs, key, i + 1) == SeenKeys(xs, key, i) + {key(xs[i])}
    ensures Deduplicated(xs[..i + 1], key) ==
      Deduplicated(xs[..i], key) + (if FirstOfKey(xs, key, i) then [xs[i]] else [])
  {
    assert xs[..i + 1][..i] == xs[..i];
    PrefixFirstOfKey(xs, key, i + 1);
  }

  // ---------------------------------------------------------------------------
  // Grouping by package
  // ---------------------------------------------------------------------------

  type GroupKeyT = (string, string)

  function GroupKey(row: InputRow): GroupKeyT
  {
    (Lower(Strip(row.ecosystem)), Lower(Strip(row.packageName)))
  }

  /** The rows with a given group key, in input order. */
  function InGroup(rows: seq<InputRow>, key: GroupKeyT): (r: seq<InputRow>)
    ensures forall x :: x in r <==> x in rows && GroupKey(x) == key
  {
    if rows == [] then []
    else
      var n := |rows| - 1;
      assert rows == rows[..n] + [rows[n]];
      InGroup(rows[..n], key) + (if GroupKey(rows[n]) == key then [rows[n]] else [])
  }

  function OrNil(o: Option<seq<InputRow>>): seq<InputRow>
  {
    if o.Some? then o.value else []
  }

  /** `grouped_rows`, built by `setdefault(key, []).append(row)`. */
  function Grouped(rows: seq<InputRow>): (r: Dict<GroupKeyT, seq<InputRow>>)
  {
    if rows == [] then []
    else
      var n := |rows| - 1;
      var g := Grouped(rows[..n]);
      var key := GroupKey(rows[n]);
      Put(g, key, OrNil(Get(g, key)) + [rows[n]])
  }

  /**
   * Every row lands in the group of its key, and each group holds exactly
   * the rows of its key in input order; a key has a group iff some row has it.
   */
  lemma {:induction false} GroupedLookup(rows: seq<InputRow>, key: GroupKeyT)
    ensures Get(Grouped(rows), key) == if InGroup(rows, key) == [] then None else Some(InGroup(rows, key))
  {
    if rows != [] {
      var n := |rows| - 1;
      var g := Grouped(rows[..n]);
      var k := GroupKey(rows[n]);
      var ig := InGroup(rows[..n], key);
      assert Grouped(rows) == Put(g, k, OrNil(Get(g, k)) + [rows[n]]);
      GroupedLookup(rows[..n], key);
      PutGet(g, k, OrNil(Get(g, k)) + [rows[n]], key);
      if k == key {
        assert InGroup(rows, key) == ig + [rows[n]];
        assert OrNil(Get(g, k)) == ig;
      } else {
        assert InGroup(rows, key) == ig + [];
        assert ig + [] == ig;
      }
    }
  }

  /** No key has two groups. */
  lemma {:induction false} GroupedDistinctKeys(rows: seq<InputRow>)
    ensures DistinctKeys(Grouped(rows))
  {
    if rows != [] {
      var n := |rows| - 1;
      var g := Grouped(rows[..n]);
      var k := GroupKey(rows[n]);
      GroupedDistinctKeys(rows[..n]);
      PutKeepsDistinct(g, k, OrNil(Get(g, k)) + [rows[n]]);
    }
  }

  /** The rows of a dictionary's groups, one group after another. */
  function Flatten(d: Dict<GroupKeyT, seq<InputRow>>): seq<InputRow>
  {
    if d == [] then [] else d[0].1 + Flatten(d[1..])
  }

  lemma {:induction false} FlattenPut(d: Dict<GroupKeyT, seq<InputRow>>, k: GroupKeyT, v: seq<InputRow>)
    ensures multiset(Flatten(Put(d, k, v))) + multiset(OrNil(Get(d, k))) == multiset(Flatten(d)) + multiset(v)
  {
    if d == [] {
      assert Put(d, k, v)[1..] == [];
    } else if d[0].0 == k {
      assert Put(d, k, v)[1..] == d[1..];
    } else {
      FlattenPut(d[1..], k, v);
      var p := Put(d[1..], k, v);
      assert Put(d, k, v) == [d[0]] + p;
      assert ([d[0]] + p)[1..] == p;
      assert Flatten(Put(d, k, v)) == d[0].1 + Flatten(p);
      assert Flatten(d) == d[0].1 + Flatten(d[1..]);
      assert Get(d, k) == Get(d[1..], k);
      var a, fp, g, ft := multiset(d[0].1), multiset(Flatten(p)), multiset(OrNil(Get(d[1..], k))), multiset(Flatten(d[1..]));
      assert fp + g == ft + multiset(v);
      assert (a + fp) + g == a + (fp + g);
    }
  }

  /** Appending a row to its group adds that row to the groups' rows. */
  lemma GroupStep(g: Dict<GroupKeyT, seq<InputRow>>, key: GroupKeyT, row: InputRow)
    ensures multiset(Flatten(Put(g, key, OrNil(Get(g, key)) + [row]))) == multiset(Flatten(g)) + multiset{row}
  {
    var old_ := OrNil(Get(g, key));
    FlattenPut(g, key, old_ + [row]);
    assert multiset(old_ + [row]) == multiset(old_) + multiset{row};
    MultisetCancel(multiset(Flatten(Put(g, key, old_ + [row]))), multiset(old_), multiset(Flatten(g)) + multiset{row});
  }

  /** The groups partition the rows: together they hold every row exactly as often as the input. */
  lemma {:induction false} GroupsPartition(rows: seq<InputRow>)
    ensures multiset(Flatten(Grouped(rows))) == multiset(rows)
  {
    if rows != [] {
      var n := |rows| - 1;
      GroupsPartition(rows[..n]);
      GroupStep(Grouped(rows[..n]), GroupKey(rows[n]), rows[n]);
      MultisetSnoc(rows);
    }
  }

  /** The grouping loop. */
  method GroupRows(rows: seq<InputRow>) returns (groups: Dict<GroupKeyT, seq<InputRow>>)
    ensures groups == Grouped(rows)
  {
    groups := [];
    for i := 0 to |rows|
      invariant groups == Grouped(rows[..i])
    {
      GroupedPrefix(rows, i);
      var key := GroupKey(rows[i]);
      var current := Get(groups, key);
      groups := Put(groups, key, OrNil(current) + [rows[i]]);
    }
    TakeAll(rows);
  }

  /** One more row of the input, appended to the group of its key. */
  lemma GroupedPrefix(rows: seq<InputRow>, i: int)
    requires 0 <= i < |rows|
    ensures var g := Grouped(rows[..i]);
      Grouped(rows[..i + 1]) == Put(g, GroupKey(rows[i]), OrNil(Get(g, GroupKey(rows[i]))) + [rows[i]])
  {
    assert rows[..i + 1][..i] == rows[..i];
  }

  // ---------------------------------------------------------------------------
  // Order within a group
  // ---------------------------------------------------------------------------

  /** `datetime.min` (0001-01-01T00:00:00) in seconds from the Unix epoch. */
  const DatetimeMin: int := -62135596800

  /** `_parse_end_date_for_sort`: the parsed end date, or `datetime.min` when it does not parse. */
  function EndKey(parseDate: string -> Option<int>, row: InputRow): int
  {
    match parseDate(row.endDate)
    case Some(t) => t
    case None => DatetimeMin
  }

  /** The sort key `(end date, start_date string)` of `a` is not greater than that of `b`. */
  predicate RowLe(parseDate: string -> Option<int>, a: InputRow, b: InputRow)
  {
    EndKey(parseDate, a) < EndKey(parseDate, b)
    || (EndKey(parseDate, a) == EndKey(parseDate, b) && !StrLt(b.startDate, a.startDate))
  }

  function RowOrder(parseDate: string -> Option<int>): (InputRow, InputRow) -> bool
  {
    (a, b) => RowLe(parseDate, a, b)
  }

  lemma RowOrderTotalPreorder(parseDate: string -> Option<int>)
    ensures TotalPreorder(RowOrder(parseDate))
  {
    var le := RowOrder(parseDate);
    forall a, b ensures le(a, b) || le(b, a) {
      if StrLt(a.startDate, b.startDate) && StrLt(b.startDate, a.startDate) {
        StrLtTransitive(a.startDate, b.startDate, a.startDate);
        StrLtIrreflexive(a.startDate);
      }
    }
    forall a, b, c | le(a, b) && le(b, c) ensures le(a, c) {
      if EndKey(parseDate, a) == EndKey(parseDate, b) == EndKey(parseDate, c) && StrLt(c.startDate, a.startDate) {
        StrLtTotal(a.startDate, b.startDate);
        if StrLt(a.startDate, b.startDate) {
          StrLtTransitive(c.startDate, a.startDate, b.startDate);
        }
      }
    }
  }

  /** `sorted(rows, key=...)` in `_process_group`. */
  function ProcessingOrder(parseDate: string -> Option<int>, rows: seq<InputRow>): seq<InputRow>
  {
    Sort(rows, RowOrder(parseDate))
  }

  /**
   * A group is processed in ascending (end date, start date) order, as a
   * rearrangement of its rows, and rows whose end date does not parse come
   * before every row whose end date parses to a later instant than `datetime.min`.
   */
  lemma ProcessingOrderSpec(parseDate: string -> Option<int>, rows: seq<InputRow>)
    requires forall x :: x in rows && parseDate(x.endDate).Some? ==> parseDate(x.endDate).value >= DatetimeMin
    ensures var r := ProcessingOrder(parseDate, rows);
      && multiset(r) == multiset(rows)
      && (forall i, j :: 0 <= i < j < |r| ==> RowLe(parseDate, r[i], r[j]))
      && (forall i, j :: 0 <= i < j < |r| && parseDate(r[j].endDate).None? ==>
            parseDate(r[i].endDate).None? || parseDate(r[i].endDate).value == DatetimeMin)
  {
    var r := ProcessingOrder(parseDate, rows);
    RowOrderTotalPreorder(parseDate);
    SortSorted(rows, RowOrder(parseDate));
    forall i, j | 0 <= i < j < |r| && parseDate(r[j].endDate).None?
      ensures parseDate(r[i].endDate).None? || parseDate(r[i].endDate).value == DatetimeMin
    {
      assert RowOrder(parseDate)(r[i], r[j]);
      assert r[i] in multiset(rows);
    }
  }

  // ---------------------------------------------------------------------------
  // _process_row
  // ---------------------------------------------------------------------------

  /** What the bulk path shares between rows: its defaults, today's date and the analyzer it calls. */
  datatype Bulk = Bulk(
    defaultStart: int,
    today: int,
    weighting: string,
    halfLife: Option<real>,
    parseDate: string -> Option<int>,
    analyze: (Config, Option<seq<VulnRecord>>) -> Result<Summary>)

  /** One line of the bulk summary. */
  datatype SummaryRow = SummaryRow(
    ecosystem: string,
    packageName: string,
    startDate: int,
    endDate: int,
    mttu: Option<real>,
    mttr: Option<real>,
    numDependencies: nat,
    status: string,
    error: string)

  /** What `_process_row` returns (its dependency frames are not modelled). */
  datatype Processed = Processed(rowNum: nat, summary: SummaryRow)

  const RequiredFieldsMessage: string := "ecosystem, package_name, and end_date are required."

  /** Decimal digits of `n`, as `f"{n}"` prints it. */
  function NatToString(n: nat): (r: string)
    ensures r != [] && forall i :: 0 <= i < |r| ==> IsDigit(r[i])
  {
    if n < 10 then [('0' as int + n) as char]
    else NatToString(n / 10) + [('0' as int + n % 10) as char]
  }

  /** `_parse_date`'s message for a bad date on a numbered row. */
  function InvalidDateMessage(field: string, rowNum: nat): string
  {
    "Invalid " + field + " format on row " + NatToString(rowNum) + ". Use YYYY-MM-DD."
  }

  /** The start date a row reports: its own when it parses, the default otherwise. */
  function StartOf(b: Bulk, row: InputRow): int
  {
    if row.startDate != "" && b.parseDate(row.startDate).Some? then b.parseDate(row.startDate).value else b.defaultStart
  }

  /** The end date a row reports: its own when it parses, today otherwise. */
  function EndOf(b: Bulk, row: InputRow): int
  {
    match b.parseDate(row.endDate)
    case Some(t) => t
    case None => b.today
  }

  /** The `try` body of `_process_row`: the analyzer's summary, or the message of what raised. */
  function RowOutcome(b: Bulk, osv: map<string, seq<VulnRecord>>, row: InputRow): (r: Result<Summary>)
    ensures var eco := Lower(row.ecosystem);
      && (eco == "" || row.packageName == "" || row.endDate == "" ==> r == Err(RequiredFieldsMessage))
      && (eco != "" && row.packageName != "" && row.endDate != "" && eco != "npm" && eco != "pypi" ==>
            r == Err("Unsupported ecosystem: " + eco + "."))
      && (r.Ok? ==> (eco == "npm" || eco == "pypi") && row.packageName != "" && b.parseDate(row.endDate).Some?)
  {
    var eco := Lower(row.ecosystem);
    if eco == "" || row.packageName == "" || row.endDate == "" then Err(RequiredFieldsMessage)
    else if eco != "npm" && eco != "pypi" then Err("Unsupported ecosystem: " + eco + ".")
    else if row.startDate != "" && b.parseDate(row.startDate).None? then Err(InvalidDateMessage("start_date", row.rowNum))
    else if b.parseDate(row.endDate).None? then Err(InvalidDateMessage("end_date", row.rowNum))
    else
      var table := if eco in osv then Some(osv[eco]) else None;
      b.analyze(Config(eco, row.packageName, StartOf(b, row), EndOf(b, row), b.weighting, b.halfLife), table)
  }

  /**
   * `_process_row`: a row that raised reports status "error", the quoted
   * message, -1.0 for both metrics and no dependencies; either way the start
   * date falls back to the default and the end date to today.
   */
  function ProcessRow(b: Bulk, osv: map<string, seq<VulnRecord>>, row: InputRow): (r: Processed)
    ensures r.rowNum == row.rowNum
    ensures r.summary.ecosystem == Lower(row.ecosystem) && r.summary.packageName == row.packageName
    ensures r.summary.startDate == (if row.startDate != "" && b.parseDate(row.startDate).Some?
                                    then b.parseDate(row.startDate).value else b.defaultStart)
    ensures r.summary.endDate == (if b.parseDate(row.endDate).Some? then b.parseDate(row.endDate).value else b.today)
    ensures r.summary.status == "ok" || r.summary.status == "error"
    ensures r.summary.status == "error" <==> RowOutcome(b, osv, row).Err?
    ensures r.summary.status == "error" ==>
      && r.summary.mttu == Some(-1.0) && r.summary.mttr == Some(-1.0) && r.summary.numDependencies == 0
      && r.summary.error == "\"" + RowOutcome(b, osv, row).error + "\""
    ensures r.summary.status == "ok" ==>
      var s := RowOutcome(b, osv, row).value;
      r.summary.mttu == s.ttu && r.summary.mttr == s.ttr && r.summary.numDependencies == s.numDependencies
      && r.summary.error == ""
  {
    var eco := Lower(row.ecosystem);
    match RowOutcome(b, osv, row)
    case Ok(s) =>
      Processed(row.rowNum, SummaryRow(eco, row.packageName, StartOf(b, row), EndOf(b, row),
                                       s.ttu, s.ttr, s.numDependencies, "ok", ""))
    case Err(msg) =>
      Processed(row.rowNum, SummaryRow(eco, row.packageName, StartOf(b, row), EndOf(b, row),
                                       Some(-1.0), Some(-1.0), 0, "error", "\"" + msg + "\""))
  }

  /** Missing fields and an unsupported ecosystem are errors that never reach the analyzer. */
  lemma RejectedRows(b: Bulk, osv: map<string, seq<VulnRecord>>, row: InputRow)
    requires Lower(row.ecosystem) == "" || row.packageName == "" || row.endDate == ""
             || (Lower(row.ecosystem) != "npm" && Lower(row.ecosystem) != "pypi")
    ensures var r := ProcessRow(b, osv, row).summary;
      r.status == "error" && r.mttu == Some(-1.0) && r.mttr == Some(-1.0) && r.numDependencies == 0
  {
  }

  /** `_process_row` as a function value, for mapping over rows. */
  function RowProcessor(b: Bulk, osv: map<string, seq<VulnRecord>>): InputRow -> Processed
  {
    row => ProcessRow(b, osv, row)
  }

  /** What `_process_group` returns: its rows processed in processing order. */
  function GroupResults(b: Bulk, osv: map<string, seq<VulnRecord>>, rows: seq<InputRow>): (r: seq<Processed>)
    ensures |r| == |rows|
  {
    MapSeq(RowProcessor(b, osv), ProcessingOrder(b.parseDate, rows))
  }

  /** `_process_group`. */
  method ProcessGroup(b: Bulk, osv: map<string, seq<VulnRecord>>, rows: seq<InputRow>) returns (results: seq<Processed>)
    ensures results == GroupResults(b, osv, rows)
  {
    var sorted := ProcessingOrder(b.parseDate, rows);
    results := MapLoop(RowProcessor(b, osv), sorted);
  }

  // ---------------------------------------------------------------------------
  // OSV tables, workers and the final order
  // ---------------------------------------------------------------------------

  /** `osv_by_ecosystem`: for each lower-cased ecosystem of the rows, the database rows of that ecosystem. */
  function OsvByEcosystem(rows: seq<InputRow>, db: seq<VulnRecord>): (m: map<string, seq<VulnRecord>>)
    ensures forall x :: x in rows && x.ecosystem != "" ==> Lower(x.ecosystem) in m
    ensures forall e :: e in m ==> exists x :: x in rows && x.ecosystem != "" && e == Lower(x.ecosystem)
    ensures forall e, v :: e in m ==> (v in m[e] <==> v in db && v.ecosystem == Upper(e))
  {
    map e | e in (set x | x in rows && x.ecosystem != "" :: Lower(x.ecosystem)) :: EcosystemRows(db, Upper(e))
  }

  /** The worker count: as given when positive, otherwise `min(8, os.cpu_count() or 4)`. */
  function WorkerCount(workers: Option<int>, cpu: Option<nat>): (r: int)
    ensures r >= 1
    ensures workers.Some? && workers.value > 0 ==> r == workers.value
    ensures !(workers.Some? && workers.value > 0) ==>
      r <= 8 && (if cpu.Some? && cpu.value > 0 then r == if cpu.value < 8 then cpu.value else 8 else r == 4)
  {
    if workers.Some? && workers.value > 0 then workers.value
    else
      var c := if cpu.Some? && cpu.value > 0 then cpu.value else 4;
      if c < 8 then c else 8
  }

  function RowNumLe(a: Processed, b: Processed): bool
  {
    a.rowNum <= b.rowNum
  }

  /** `summary_rows.sort(key=row_num)` and the projection onto the summaries. */
  function FinalSummaries(completed: seq<Processed>): (r: seq<SummaryRow>)
    ensures |r| == |completed|
  {
    var s := Sort(completed, RowNumLe);
    seq(|s|, i requires 0 <= i < |s| => s[i].summary)
  }

  /** No two different results carry the same CSV line. */
  ghost predicate UniqueRowNums(c: seq<Processed>)
  {
    forall x, y :: x in c && y in c && x.rowNum == y.rowNum ==> x == y
  }

  /**
   * The summaries come out in CSV-line order whatever order the groups
   * complete in: any two arrangements of the same results give the same list.
   */
  lemma CompletionOrderIrrelevant(c1: seq<Processed>, c2: seq<Processed>)
    requires multiset(c1) == multiset(c2)
    requires UniqueRowNums(c1)
    ensures FinalSummaries(c1) == FinalSummaries(c2)
    ensures forall i, j :: 0 <= i < j < |c1| ==> Sort(c1, RowNumLe)[i].rowNum <= Sort(c1, RowNumLe)[j].rowNum
  {
    var s1 := Sort(c1, RowNumLe);
    var s2 := Sort(c2, RowNumLe);
    SortedByLine(c1);
    SortedByLine(c2);
    LinesAntisymmetric(c1);
    SortedUnique(s1, s2, RowNumLe);
  }

  lemma SortedByLine(c: seq<Processed>)
    ensures Sorted(Sort(c, RowNumLe), RowNumLe)
  {
    assert TotalPreorder(RowNumLe);
    SortSorted(c, RowNumLe);
  }

  /** With distinct lines, results that compare equal by line are the same result. */
  lemma LinesAntisymmetric(c: seq<Processed>)
    requires UniqueRowNums(c)
    ensures Antisymmetric(Sort(c, RowNumLe), RowNumLe)
  {
    var s := Sort(c, RowNumLe);
    forall i, j | 0 <= i < |s| && 0 <= j < |s| && RowNumLe(s[i], s[j]) && RowNumLe(s[j], s[i])
      ensures s[i] == s[j]
    {
      assert s[i] in multiset(c) && s[j] in multiset(c);
    }
  }

  // ---------------------------------------------------------------------------
  // The bulk run
  // ---------------------------------------------------------------------------

  function GroupProcessor(b: Bulk, osv: map<string, seq<VulnRecord>>): ((GroupKeyT, seq<InputRow>)) -> seq<Processed>
  {
    (g: (GroupKeyT, seq<InputRow>)) => GroupResults(b, osv, g.1)
  }

  /** The results of every group, one group after another. */
  function AllResults(b: Bulk, osv: map<string, seq<VulnRecord>>, groups: Dict<GroupKeyT, seq<InputRow>>): seq<Processed>
  {
    ConcatMap(GroupProcessor(b, osv), groups)
  }

  /** However the groups are ordered, their results are those of all their rows. */
  lemma {:induction false} AllResultsMultiset(b: Bulk, osv: map<string, seq<VulnRecord>>, groups: Dict<GroupKeyT, seq<InputRow>>)
    ensures multiset(AllResults(b, osv, groups)) == multiset(MapSeq(RowProcessor(b, osv), Flatten(groups)))
  {
    if groups != [] {
      var g := groups[0].1;
      AllResultsMultiset(b, osv, groups[1..]);
      MapSeqMultiset(RowProcessor(b, osv), ProcessingOrder(b.parseDate, g), g);
      MapSeqAppend(RowProcessor(b, osv), g, Flatten(groups[1..]));
    }
  }

  /**
   * The bulk run with the groups completing one after another: load,
   * de-duplicate, group, and process each group in order.
   */
  function BulkResults(f: Frame, b: Bulk, db: seq<VulnRecord>): Result<seq<Processed>>
  {
    match InputRows(f)
    case Err(e) => Err(e)
    case Ok(rows) =>
      var deduped := Deduplicated(rows, DedupKey);
      Ok(AllResults(b, OsvByEcosystem(deduped, db), Grouped(deduped)))
  }

  /**
   * Every row of the CSV gets exactly one summary, and the summaries are in
   * CSV-line order whatever order the workers finish in: any arrangement of
   * the results yields the same final list.
   */
  lemma BulkOrderIndependent(f: Frame, b: Bulk, db: seq<VulnRecord>, completed: seq<Processed>)
    requires InputRows(f).Ok?
    requires multiset(completed) == multiset(BulkResults(f, b, db).value)
    ensures |completed| == |Deduplicated(InputRows(f).value, DedupKey)|
    ensures FinalSummaries(completed) == FinalSummaries(BulkResults(f, b, db).value)
  {
    var rows := InputRows(f).value;
    var deduped := Deduplicated(rows, DedupKey);
    var osv := OsvByEcosystem(deduped, db);
    var all := AllResults(b, osv, Grouped(deduped));
    var mapped := MapSeq(RowProcessor(b, osv), deduped);
    AllResultsMultiset(b, osv, Grouped(deduped));
    GroupsPartition(deduped);
    MapSeqMultiset(RowProcessor(b, osv), Flatten(Grouped(deduped)), deduped);
    assert multiset(all) == multiset(mapped);
    assert |completed| == |multiset(completed)| == |multiset(mapped)| == |mapped|;
    DeduplicatedSubset(rows, DedupKey);
    LinesUnique(b, osv, rows, deduped);
    UniqueRowNumsPerm(all, mapped);
    CompletionOrderIrrelevant(all, completed);
  }

  /** De-duplication only drops elements. */
  lemma DeduplicatedSubset<T, K>(xs: seq<T>, key: T -> K)
    ensures forall d :: d in Deduplicated(xs, key) ==> d in xs
  {
    var r := Deduplicated(xs, key);
    DeduplicatedKeepsFirst(xs, key);
    forall d | d in r ensures d in xs {
      var m :| 0 <= m < |r| && r[m] == d;
      assert d == xs[KeptIndices(xs, key)[m]];
    }
  }

  /** Loaded rows carry distinct lines, so their results do too. */
  lemma LinesUnique(b: Bulk, osv: map<string, seq<VulnRecord>>, rows: seq<InputRow>, deduped: seq<InputRow>)
    requires forall m :: 0 <= m < |rows| ==> rows[m].rowNum == m + 2
    requires forall d :: d in deduped ==> d in rows
    ensures UniqueRowNums(MapSeq(RowProcessor(b, osv), deduped))
  {
    var mapped := MapSeq(RowProcessor(b, osv), deduped);
    forall x, y | x in mapped && y in mapped && x.rowNum == y.rowNum ensures x == y {
      var kx := ProcessedFrom(b, osv, rows, deduped, x);
      var ky := ProcessedFrom(b, osv, rows, deduped, y);
    }
  }

  lemma UniqueRowNumsPerm(c1: seq<Processed>, c2: seq<Processed>)
    requires multiset(c1) == multiset(c2) && UniqueRowNums(c2)
    ensures UniqueRowNums(c1)
  {
    forall x | x in c1 ensures x in c2 {
      assert x in multiset(c1);
    }
  }

  /** A result of the run is the processing of one loaded row, and carries that row's line. */
  lemma ProcessedFrom(b: Bulk, osv: map<string, seq<VulnRecord>>, rows: seq<InputRow>, deduped: seq<InputRow>, x: Processed)
    returns (k: int)
    requires forall m :: 0 <= m < |rows| ==> rows[m].rowNum == m + 2
    requires forall d :: d in deduped ==> d in rows
    requires x in MapSeq(RowProcessor(b, osv), deduped)
    ensures 0 <= k < |rows| && x == ProcessRow(b, osv, rows[k]) && x.rowNum == k + 2
  {
    var mapped := MapSeq(RowProcessor(b, osv), deduped);
    var i :| 0 <= i < |mapped| && mapped[i] == x;
    assert deduped[i] in rows;
    k :| 0 <= k < |rows| && rows[k] == deduped[i];
  }

  /**
   * The bulk branch of `main`: load the CSV, drop duplicates, group, process
   * the groups and order the summaries by CSV line. The groups run here one
   * after another; `BulkOrderIndependent` covers any other completion order.
   */
  method RunBulk(f: Frame, b: Bulk, db: seq<VulnRecord>) returns (r: Result<seq<SummaryRow>>, duplicates: nat)
    ensures InputRows(f).Err? ==> r == Err(InputRows(f).error)
    ensures InputRows(f).Ok? ==> r.Ok? && r.value == FinalSummaries(BulkResults(f, b, db).value)
    ensures InputRows(f).Ok? ==> duplicates == |InputRows(f).value| - |Deduplicated(InputRows(f).value, DedupKey)|
  {
    var loaded := LoadInputCsv(f);
    if loaded.Err? {
      return Err(loaded.error), 0;
    }
    var deduped;
    deduped, duplicates := DeduplicateRows(loaded.value);
    var osv := OsvByEcosystem(deduped, db);
    var groups := GroupRows(deduped);
    var completed := ProcessGroups(b, osv, groups);
    r := Ok(FinalSummaries(completed));
  }

  /** Every group processed, the results appended group after group. */
  method ProcessGroups(b: Bulk, osv: map<string, seq<VulnRecord>>, groups: Dict<GroupKeyT, seq<InputRow>>)
    returns (completed: seq<Processed>)
    ensures completed == AllResults(b, osv, groups)
  {
    completed := [];
    for i := 0 to |groups|
      invariant completed + ConcatMap(GroupProcessor(b, osv), groups[i..]) == AllResults(b, osv, groups)
    {
      var results := ProcessGroup(b, osv, groups[i].1);
      ConcatMapStep(GroupProcessor(b, osv), groups, i, completed);
      completed := completed + results;
    }
    assert groups[|groups|..] == [];
  }
}
