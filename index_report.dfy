/**
 * The CSI index report: it reads the collection of index returns (fetching it
 * first when no file is there), the index names of the index list sheet and the
 * PE/DP figures of every listed index (cached per day), and fills an HTML
 * template with a table of two rows per index and the data as JSON.
 *
 * The file system is a map from paths (relative to the script's directory) to
 * what a file holds; running the collector script, the spreadsheet reader, the
 * PE/DP fetches (`Promise.allSettled`), `JSON.stringify`, the template file and
 * the clock are inputs.
 */
module IndexReport {
  import opened Wrappers
  import opened Text
  import opened Cells
  import IR = IndexReturns
  import CF = CsIndexFetcher

  // ---- checkAndFetchData ----

  /** A collection file as the report reads it: text that does not parse, or the collected indexes. */
  datatype ReturnsFile = ReturnsUnparsable | ReturnsSaved(items: seq<IR.IndexReturns>)

  /** Running `node cs-index-return-fetcher.js`: it fails, or it leaves the files as `after`. */
  datatype ScriptRun = ScriptFailed | ScriptRan(after: map<string, ReturnsFile>)

  function TodayFile(dir: string, today: string): string { dir + "/all_index_returns_" + today + ".json" }
  function DefaultFile(dir: string): string { dir + "/all_index_returns.json" }

  /**
   * The file the report reads from `dir`, and the files afterwards: today's file,
   * else the default file, else whatever the collector script leaves as the default
   * file; `None` when the script fails or does not leave it.
   */
  function ChooseIn(dir: string, files: map<string, ReturnsFile>, today: string, run: ScriptRun)
    : (r: (Option<string>, map<string, ReturnsFile>))
    ensures r.0.Some? ==> r.0.value in r.1 && (r.0.value == TodayFile(dir, today) || r.0.value == DefaultFile(dir))
    ensures TodayFile(dir, today) in files ==> r.0 == Some(TodayFile(dir, today)) && r.1 == files
    ensures DefaultFile(dir) in files ==> r.0.Some? && r.1 == files
    ensures TodayFile(dir, today) !in files && DefaultFile(dir) !in files ==>
      r.1 == (if run.ScriptRan? then run.after else files)
      && (r.0.Some? <==> run.ScriptRan? && DefaultFile(dir) in run.after)
  {
    if TodayFile(dir, today) in files then (Some(TodayFile(dir, today)), files)
    else if DefaultFile(dir) in files then (Some(DefaultFile(dir)), files)
    else
      match run
      case ScriptFailed => (None, files)
      case ScriptRan(after) => (if DefaultFile(dir) in after then Some(DefaultFile(dir)) else None, after)
  }

  /** `checkAndFetchData` as written: it looks in `index-data`. */
  function CheckAndFetchDataAsWritten(files: map<string, ReturnsFile>, today: string, run: ScriptRun)
    : (Option<string>, map<string, ReturnsFile>)
  {
    ChooseIn("index-data", files, today, run)
  }

  /** `checkAndFetchData` looking where the collector writes, in `index-return`. */
  function CheckAndFetchData(files: map<string, ReturnsFile>, today: string, run: ScriptRun)
    : (Option<string>, map<string, ReturnsFile>)
  {
    ChooseIn(IR.DataDir, files, today, run)
  }

  /** What a run of the collector leaves: the collection under its dated name and its default name. */
  function CollectorRun(files: map<string, ReturnsFile>, day: string, c: seq<IR.IndexReturns>): ScriptRun {
    ScriptRan(files[IR.DatedPath(day) := ReturnsSaved(c)][IR.DefaultPath := ReturnsSaved(c)])
  }

  /** With no file in `index-data`, a successful collector run still leaves nothing there, so the report gets no file. */
  lemma AsWrittenMissesCollectorOutput(files: map<string, ReturnsFile>, today: string, day: string, c: seq<IR.IndexReturns>)
    requires TodayFile("index-data", today) !in files && DefaultFile("index-data") !in files
    ensures CheckAndFetchDataAsWritten(files, today, CollectorRun(files, day, c)).0.None?
  {
    var p := DefaultFile("index-data");
    assert p[6] == 'd';
    assert IR.DefaultPath[6] == 'r';
    assert IR.DatedPath(day)[6] == 'r';
  }

  /** Looking in `index-return`, the same run gives the default file and, read back, the collection itself. */
  lemma CorrectedFindsCollectorOutput(files: map<string, ReturnsFile>, today: string, day: string, c: seq<IR.IndexReturns>)
    requires TodayFile(IR.DataDir, today) !in files && DefaultFile(IR.DataDir) !in files
    ensures var r := CheckAndFetchData(files, today, CollectorRun(files, day, c));
      r.0 == Some(IR.DefaultPath) && ReadReturns(r.1, r.0) == c
  {
  }

  // ---- loadJsonData ----

  /** The parsed collection of the chosen file; `[]` without a file or when it does not parse. */
  function ReadReturns(files: map<string, ReturnsFile>, chosen: Option<string>): (r: seq<IR.IndexReturns>)
    ensures r != [] ==> chosen.Some? && chosen.value in files && files[chosen.value] == ReturnsSaved(r)
    ensures chosen.Some? && chosen.value in files && files[chosen.value].ReturnsSaved? ==> r == files[chosen.value].items
  {
    if chosen.Some? && chosen.value in files && files[chosen.value].ReturnsSaved? then files[chosen.value].items else []
  }

  // ---- loadIndexList ----

  /** A row of `sheet_to_json` without `header: 1`: the cells keyed by the captions of the header row. */
  type SheetRow = map<string, Cell>

  const CodeCaption := "指数代码"
  const NameCaption := "指数全称"

  /** `row[caption]`, `undefined` for a caption the row does not have. */
  function Field(row: SheetRow, caption: string): Cell { if caption in row then row[caption] else Absent }

  /** The row sets the mapping of key `k`: its code and its name are truthy, and `String(code)` is `k`. */
  predicate Sets(row: SheetRow, k: string) {
    Truthy(Field(row, CodeCaption)) && Truthy(Field(row, NameCaption)) && ToJsString(Field(row, CodeCaption)) == k
  }

  /** The mapping the rows build, in order. */
  function MappingOf(rows: seq<SheetRow>): (m: map<string, Cell>)
    ensures forall k :: k in m ==> Truthy(m[k])
  {
    if |rows| == 0 then map[]
    else
      var m := MappingOf(rows[..|rows| - 1]);
      var row := rows[|rows| - 1];
      if Truthy(Field(row, CodeCaption)) && Truthy(Field(row, NameCaption))
      then m[ToJsString(Field(row, CodeCaption)) := Field(row, NameCaption)]
      else m
  }

  /** `loadIndexList`: the mapping of the sheet's rows, or `{}` when the sheet cannot be read. */
  method LoadIndexList(sheet: Option<seq<SheetRow>>) returns (mapping: map<string, Cell>)
    ensures sheet.None? ==> mapping == map[]
    ensures sheet.Some? ==> mapping == MappingOf(sheet.value)
  {
    if sheet.None? {
      return map[];
    }
    var rows := sheet.value;
    mapping := map[];
    var i := 0;
    while i < |rows|
      invariant 0 <= i <= |rows|
      invariant mapping == MappingOf(rows[..i])
    {
      assert rows[..i + 1][..i] == rows[..i];
      var indexCode := Field(rows[i], CodeCaption);
      var indexName := Field(rows[i], NameCaption);
      if Truthy(indexCode) && Truthy(indexName) {
        mapping := mapping[ToJsString(indexCode) := indexName];
      }
      i := i + 1;
    }
    assert rows[..|rows|] == rows;
  }

  /** A key is mapped iff some row sets it, and then to the name of the last row that sets it. */
  lemma {:induction false} MappingLastWins(rows: seq<SheetRow>, k: string)
    ensures k in MappingOf(rows) <==> exists i :: 0 <= i < |rows| && Sets(rows[i], k)
    ensures k in MappingOf(rows) ==>
      exists i :: 0 <= i < |rows| && Sets(rows[i], k) && MappingOf(rows)[k] == Field(rows[i], NameCaption)
        && forall j :: i < j < |rows| ==> !Sets(rows[j], k)
  {
    if |rows| > 0 {
      var n := |rows| - 1;
      var init := rows[..n];
      MappingLastWins(init, k);
      assert forall i :: 0 <= i < n ==> init[i] == rows[i];
      if Sets(rows[n], k) {
        assert MappingOf(rows)[k] == Field(rows[n], NameCaption);
      } else {
        assert MappingOf(rows) == MappingOf(init)[ToJsString(Field(rows[n], CodeCaption)) := Field(rows[n], NameCaption)]
          || MappingOf(rows) == MappingOf(init);
        if k in MappingOf(rows) {
          var i :| 0 <= i < n && Sets(init[i], k) && MappingOf(init)[k] == Field(init[i], NameCaption)
            && forall j :: i < j < n ==> !Sets(init[j], k);
          assert Sets(rows[i], k);
          assert forall j :: i < j < |rows| ==> !Sets(rows[j], k);
        }
        if exists i :: 0 <= i < |rows| && Sets(rows[i], k) {
          var i :| 0 <= i < |rows| && Sets(rows[i], k);
          assert i < n && Sets(init[i], k);
        }
      }
    }
  }

  // ---- getIndexName ----

  /** `indexMapping[indexCode] || indexCode`: the mapped name, or the code itself when there is none. */
  function GetIndexName(code: string, mapping: map<string, Cell>): (r: Cell)
    ensures code !in mapping ==> r == Str(code)
    ensures code in mapping && Truthy(mapping[code]) ==> r == mapping[code]
  {
    if code in mapping && Truthy(mapping[code]) then mapping[code] else Str(code)
  }

  /** With the sheet's mapping, the name is that of the last row listing the code, and the code when no row does. */
  lemma IndexNameFromSheet(rows: seq<SheetRow>, code: string)
    ensures (forall i :: 0 <= i < |rows| ==> !Sets(rows[i], code)) ==> GetIndexName(code, MappingOf(rows)) == Str(code)
    ensures forall i :: 0 <= i < |rows| && Sets(rows[i], code) && (forall j :: i < j < |rows| ==> !Sets(rows[j], code)) ==>
      GetIndexName(code, MappingOf(rows)) == Field(rows[i], NameCaption)
  {
    MappingLastWins(rows, code);
    forall i | 0 <= i < |rows| && Sets(rows[i], code) && (forall j :: i < j < |rows| ==> !Sets(rows[j], code))
      ensures GetIndexName(code, MappingOf(rows)) == Field(rows[i], NameCaption)
    {
      var i' :| 0 <= i' < |rows| && Sets(rows[i'], code) && MappingOf(rows)[code] == Field(rows[i'], NameCaption)
        && forall j :: i' < j < |rows| ==> !Sets(rows[j], code);
      assert !(i < i') && !(i' < i);
    }
  }

  // ---- loadPeDpData ----

  /** `jsonSheet.slice(1).map(row => row[0]).filter(code => code)`: the truthy first cells below the header. */
  function PeDpCodes(rows: seq<seq<Cell>>): (codes: seq<Cell>)
    ensures forall k :: 0 <= k < |codes| ==> Truthy(codes[k])
  {
    if |rows| <= 1 then []
    else
      var init := PeDpCodes(rows[..|rows| - 1]);
      var c := At(rows[|rows| - 1], 0);
      if Truthy(c) then init + [c] else init
  }

  /** A cell is a code iff it starts some row after the header and is truthy. */
  lemma {:induction false} PeDpCodesIff(rows: seq<seq<Cell>>, c: Cell)
    ensures c in PeDpCodes(rows) <==> Truthy(c) && exists i :: 1 <= i < |rows| && At(rows[i], 0) == c
  {
    if |rows| > 1 {
      var n := |rows| - 1;
      PeDpCodesIff(rows[..n], c);
      assert forall i :: 0 <= i < n ==> rows[..n][i] == rows[i];
      if Truthy(c) && exists i :: 1 <= i < |rows| && At(rows[i], 0) == c {
        var i :| 1 <= i < |rows| && At(rows[i], 0) == c;
        if i < n {
          assert At(rows[..n][i], 0) == c;
        }
      }
    }
  }

  /** How one `getETFData` promise settled. */
  datatype Settled = Fulfilled(value: CF.EtfResult) | Rejected(reason: string)

  /** `result.status === 'fulfilled' && result.value.success`. */
  predicate Succeeded(s: Settled) { s.Fulfilled? && s.value.EtfOk? }

  /** The reason recorded for a failure: the rejection's reason, or the failed result's error. */
  function Reason(s: Settled): string
    requires !Succeeded(s)
  {
    if s.Rejected? then s.reason else s.value.error
  }

  datatype Failure = Failure(code: Cell, reason: string)

  /** The fulfilled successful results among the first `n` promises, in order. */
  function Successes(outcome: nat -> Settled, n: nat): seq<CF.EtfResult> {
    if n == 0 then [] else Successes(outcome, n - 1) + (if Succeeded(outcome(n - 1)) then [outcome(n - 1).value] else [])
  }

  /** The failures among the first `n` promises, each with the code at the same index. */
  function Failures(codes: seq<Cell>, outcome: nat -> Settled, n: nat): seq<Failure>
    requires n <= |codes|
  {
    if n == 0 then []
    else Failures(codes, outcome, n - 1) + (if Succeeded(outcome(n - 1)) then [] else [Failure(codes[n - 1], Reason(outcome(n - 1)))])
  }

  /** The `results.forEach` partition into successes and failures. */
  method Partition(codes: seq<Cell>, outcome: nat -> Settled) returns (successes: seq<CF.EtfResult>, failures: seq<Failure>)
    ensures successes == Successes(outcome, |codes|)
    ensures failures == Failures(codes, outcome, |codes|)
  {
    successes, failures := [], [];
    var index := 0;
    while index < |codes|
      invariant 0 <= index <= |codes|
      invariant successes == Successes(outcome, index)
      invariant failures == Failures(codes, outcome, index)
    {
      var result := outcome(index);
      if result.Fulfilled? && result.value.EtfOk? {
        successes := successes + [result.value];
      } else {
        var reason := if result.Rejected? then result.reason else result.value.error;
        failures := failures + [Failure(codes[index], reason)];
      }
      index := index + 1;
    }
  }

  /**
   * Every promise lands on exactly one side: a result is a success iff it comes from
   * a fulfilled successful promise, and a failure iff it pairs an unsuccessful
   * promise's reason with the code at that promise's index.
   */
  lemma {:induction false} PartitionIff(codes: seq<Cell>, outcome: nat -> Settled, n: nat)
    requires n <= |codes|
    ensures |Successes(outcome, n)| + |Failures(codes, outcome, n)| == n
    ensures forall r :: r in Successes(outcome, n) <==> exists i :: 0 <= i < n && outcome(i) == Fulfilled(r) && r.EtfOk?
    ensures forall f :: f in Failures(codes, outcome, n) <==>
      exists i :: 0 <= i < n && !Succeeded(outcome(i)) && f == Failure(codes[i], Reason(outcome(i)))
  {
    if n > 0 {
      PartitionIff(codes, outcome, n - 1);
    }
  }

  /** A PE/DP cache file: text that does not parse, or the saved results. */
  datatype PeDpFile = PeDpUnparsable | PeDpSaved(results: seq<CF.EtfResult>)

  function PeDpPath(today: string): string { "index-data/pe-dp-data_" + today + ".json" }

  /**
   * `loadPeDpData` of the report: today's cache when it parses; otherwise the
   * successes of fetching every code (`[]` when the sheet cannot be read), saved
   * as today's cache when the write succeeds. Gives the data and the files after.
   */
  function PeDpSpec(files: map<string, PeDpFile>, today: string, sheet: Option<seq<seq<Cell>>>,
                    outcome: nat -> Settled, writable: bool): (seq<CF.EtfResult>, map<string, PeDpFile>)
  {
    var path := PeDpPath(today);
    if path in files && files[path].PeDpSaved? then (files[path].results, files)
    else if sheet.None? then ([], files)
    else
      var successes := Successes(outcome, |PeDpCodes(sheet.value)|);
      (successes, if writable then files[path := PeDpSaved(successes)] else files)
  }

  /**
   * Without a readable cache only successful results are returned, and what is
   * saved is exactly what is returned; no other file changes.
   */
  lemma PeDpOnlySuccesses(files: map<string, PeDpFile>, today: string, sheet: Option<seq<seq<Cell>>>,
                          outcome: nat -> Settled, writable: bool)
    requires !(PeDpPath(today) in files && files[PeDpPath(today)].PeDpSaved?)
    ensures var r := PeDpSpec(files, today, sheet, outcome, writable);
      (forall x :: x in r.0 ==> x.EtfOk?)
      && (r.1 == files || r.1 == files[PeDpPath(today) := PeDpSaved(r.0)])
  {
    if sheet.Some? {
      var codes := PeDpCodes(sheet.value);
      PartitionIff(codes, outcome, |codes|);
    }
  }

  /** Once saved, a second call the same day returns the same data whatever the sheet and the fetches give. */
  lemma PeDpCacheRoundTrip(files: map<string, PeDpFile>, today: string, sheet: Option<seq<seq<Cell>>>,
                           outcome: nat -> Settled, sheet2: Option<seq<seq<Cell>>>, outcome2: nat -> Settled, writable2: bool)
    requires (PeDpPath(today) in files && files[PeDpPath(today)].PeDpSaved?) || sheet.Some?
    ensures var r := PeDpSpec(files, today, sheet, outcome, true);
      PeDpSpec(r.1, today, sheet2, outcome2, writable2) == r
  {
  }

  // ---- generateTableRows ----

  function NumberCell(v: string): string { "<td class=\"number\">" + v + "</td>" }

  /** The cells of one row: the code, the record's name and its nine figures. */
  function RowCells(code: string, r: IR.ReturnRow): seq<string> {
    ["<td>" + code + "</td>", "<td>" + r.name + "</td>",
     NumberCell(r.returnOneMonth), NumberCell(r.returnThreeMonths), NumberCell(r.returnYearToDate),
     NumberCell(r.annualisedOneYear), NumberCell(r.annualisedThreeYears), NumberCell(r.annualisedFiveYears),
     NumberCell(r.volatilityOneYear), NumberCell(r.volatilityThreeYears), NumberCell(r.volatilityFiveYears)]
  }

  /** One table row, tagged with its index code. */
  function RowHtml(classAttr: string, code: string, r: IR.ReturnRow): string {
    Concat(["<tr" + classAttr + " data-index-code=\"" + code + "\">"] + RowCells(code, r) + ["</tr>"])
  }

  const TotalReturnClass := " class=\"total-return\""

  /**
   * The rows of one index: none without data, a plain row for the first record,
   * and a 'total-return' row for the second record iff there is one.
   */
  function ItemRows(item: IR.IndexReturns): (rows: seq<string>)
    ensures |rows| == (if |item.data| == 0 then 0 else if |item.data| == 1 then 1 else 2)
  {
    if |item.data| == 0 then []
    else if |item.data| == 1 then [RowHtml("", item.indexCode, item.data[0])]
    else [RowHtml("", item.indexCode, item.data[0]), RowHtml(TotalReturnClass, item.indexCode, item.data[1])]
  }

  /** The concatenation of `f` over the items, in order. */
  function FlatMap<T>(f: T -> seq<string>, items: seq<T>): seq<string> {
    if |items| == 0 then [] else FlatMap(f, items[..|items| - 1]) + f(items[|items| - 1])
  }

  /** The rows of all indexes, in order. */
  function RowList(items: seq<IR.IndexReturns>): seq<string> { FlatMap(ItemRows, items) }

  function Concat(parts: seq<string>): string {
    if |parts| == 0 then "" else Concat(parts[..|parts| - 1]) + parts[|parts| - 1]
  }

  lemma {:induction false} ConcatAppend(a: seq<string>, b: seq<string>)
    ensures Concat(a + b) == Concat(a) + Concat(b)
    decreases |b|
  {
    if |b| > 0 {
      var n := |b| - 1;
      assert (a + b)[..|a + b| - 1] == a + b[..n];
      ConcatAppend(a, b[..n]);
    } else {
      assert a + b == a;
    }
  }

  lemma {:induction false} FlatMapAppend<T>(f: T -> seq<string>, a: seq<T>, b: seq<T>)
    ensures FlatMap(f, a + b) == FlatMap(f, a) + FlatMap(f, b)
    decreases |b|
  {
    if |b| > 0 {
      var n := |b| - 1;
      assert (a + b)[..|a + b| - 1] == a + b[..n];
      FlatMapAppend(f, a, b[..n]);
    } else {
      assert a + b == a;
    }
  }

  /** The rows of index `k` follow those of the indexes before it and precede those after it. */
  lemma RowsInItemOrder(items: seq<IR.IndexReturns>, k: nat)
    requires k < |items|
    ensures RowList(items) == RowList(items[..k]) + ItemRows(items[k]) + RowList(items[k + 1..])
  {
    assert items == items[..k] + [items[k]] + items[k + 1..];
    FlatMapAppend(ItemRows, items[..k] + [items[k]], items[k + 1..]);
    FlatMapAppend(ItemRows, items[..k], [items[k]]);
    assert FlatMap(ItemRows, [items[k]]) == ItemRows(items[k]) by {
      assert [items[k]][..0] == [];
    }
  }

  /** The text of one index's rows: nothing, the first row, or the first row then the 'total-return' row. */
  lemma ItemRowsText(item: IR.IndexReturns)
    ensures |item.data| == 0 ==> Concat(ItemRows(item)) == ""
    ensures |item.data| == 1 ==> Concat(ItemRows(item)) == RowHtml("", item.indexCode, item.data[0])
    ensures |item.data| > 1 ==>
      Concat(ItemRows(item)) == RowHtml("", item.indexCode, item.data[0]) + RowHtml(TotalReturnClass, item.indexCode, item.data[1])
  {
    if |item.data| > 0 {
      var first := RowHtml("", item.indexCode, item.data[0]);
      assert [first][..0] == [];
      assert Concat([first]) == first;
      if |item.data| > 1 {
        var second := RowHtml(TotalReturnClass, item.indexCode, item.data[1]);
        assert [first, second][..1] == [first];
        assert Concat([first, second]) == Concat([first]) + second;
      }
    }
  }

  /** Appending one index's rows to the text of the indexes before it. */
  lemma RowTextStep(items: seq<IR.IndexReturns>, i: nat)
    requires i < |items|
    ensures Concat(RowList(items[..i + 1])) == Concat(RowList(items[..i])) + Concat(ItemRows(items[i]))
  {
    assert items[..i + 1][..i] == items[..i];
    assert RowList(items[..i + 1]) == RowList(items[..i]) + ItemRows(items[i]);
    ConcatAppend(RowList(items[..i]), ItemRows(items[i]));
  }

  /** `generateTableRows`: the rows appended one after the other; the index mapping it is passed is not used. */
  method GenerateTableRows(items: seq<IR.IndexReturns>) returns (rows: string)
    ensures rows == Concat(RowList(items))
  {
    rows := "";
    var i := 0;
    while i < |items|
      invariant 0 <= i <= |items|
      invariant rows == Concat(RowList(items[..i]))
    {
      var item := items[i];
      RowTextStep(items, i);
      ItemRowsText(item);
      if |item.data| > 0 {
        var first := RowHtml("", item.indexCode, item.data[0]);
        rows := rows + first;
        if |item.data| > 1 {
          var second := RowHtml(TotalReturnClass, item.indexCode, item.data[1]);
          rows := rows + second;
        }
      }
      i := i + 1;
    }
    assert items[..|items|] == items;
  }

  // ---- generateHTML ----

  const TableRowsMark := "{{TABLE_ROWS}}"
  const GenerationTimeMark := "{{GENERATION_TIME}}"
  const IndexDataMark := "{{INDEX_DATA}}"
  const IndexMappingMark := "{{INDEX_MAPPING}}"
  const PeDpDataMark := "{{PE_DP_DATA}}"

  /** The five replacements, in order, each of the first occurrence only. */
  function Fill(t: string, tableRows: string, generationTime: string, indexData: string, indexMapping: string, peDpData: string): string {
    ReplaceFirst(ReplaceFirst(ReplaceFirst(ReplaceFirst(ReplaceFirst(
      t, TableRowsMark, tableRows), GenerationTimeMark, generationTime), IndexDataMark, indexData),
      IndexMappingMark, indexMapping), PeDpDataMark, peDpData)
  }

  /** `generateHTML` given the template (`None` when it cannot be read) and the texts put in. */
  function GenerateHtml(template: Option<string>, tableRows: string, generationTime: string,
                        indexData: string, indexMapping: string, peDpData: string): (html: Option<string>)
    ensures html.None? <==> template.None? || template.value == ""
  {
    if template.None? || template.value == "" then None
    else Some(Fill(template.value, tableRows, generationTime, indexData, indexMapping, peDpData))
  }

  /** A template without placeholders comes out unchanged. */
  lemma HtmlWithoutMarks(t: string, tableRows: string, generationTime: string, indexData: string, indexMapping: string, peDpData: string)
    requires t != ""
    requires !Contains(t, TableRowsMark) && !Contains(t, GenerationTimeMark) && !Contains(t, IndexDataMark)
    requires !Contains(t, IndexMappingMark) && !Contains(t, PeDpDataMark)
    ensures GenerateHtml(Some(t), tableRows, generationTime, indexData, indexMapping, peDpData) == Some(t)
  {
  }

  /**
   * Only the first table placeholder is replaced: what precedes it holds none, the
   * rows go in with their `$`-patterns expanded (as they are, when they hold no
   * `$`), and the rest of the template, further placeholders included, follows
   * verbatim (when no other placeholder is left to fill).
   */
  lemma HtmlReplacesFirstTableMark(t: string, i: nat, tableRows: string, generationTime: string,
                                   indexData: string, indexMapping: string, peDpData: string)
    requires t != "" && IndexOf(t, TableRowsMark) == Some(i)
    requires var s := t[..i] + ReplacementAt(t, TableRowsMark, tableRows, i) + t[i + |TableRowsMark|..];
      !Contains(s, GenerationTimeMark) && !Contains(s, IndexDataMark) && !Contains(s, IndexMappingMark) && !Contains(s, PeDpDataMark)
    ensures i + |TableRowsMark| <= |t| && !Contains(t[..i], TableRowsMark)
    ensures GenerateHtml(Some(t), tableRows, generationTime, indexData, indexMapping, peDpData)
      == Some(t[..i] + ReplacementAt(t, TableRowsMark, tableRows, i) + t[i + |TableRowsMark|..])
    ensures ReplacementAt(t, TableRowsMark, tableRows, i)
      == Substitution(tableRows, TableRowsMark, t[..i], t[i + |TableRowsMark|..])
    ensures '$' !in tableRows ==> ReplacementAt(t, TableRowsMark, tableRows, i) == tableRows
  {
    ReplaceFirstKeepsRest(t, TableRowsMark, tableRows);
    if '$' !in tableRows {
      SubstitutionWithoutDollar(tableRows, TableRowsMark, t[..i], t[i + |TableRowsMark|..]);
    }
  }

  // ---- generateIndexReport ----

  /** What the report needs besides the files: the collector run, the sheet's two readings, the fetches, the template, the clock and `JSON.stringify`. */
  datatype ReportInputs = ReportInputs(
    run: ScriptRun,
    indexSheet: Option<seq<SheetRow>>,
    codeSheet: Option<seq<seq<Cell>>>,
    outcome: nat -> Settled,
    writable: bool,
    template: Option<string>,
    generationTime: string,
    showData: seq<IR.IndexReturns> -> string,
    showMapping: map<string, Cell> -> string,
    showPeDp: seq<CF.EtfResult> -> string)

  function ReportPath(today: string): string { "report-data/cs-index-report-" + today + ".html" }

  /** The page built from the data, the mapping and the PE/DP data. */
  function PageOf(data: seq<IR.IndexReturns>, mapping: map<string, Cell>, peDp: seq<CF.EtfResult>, inputs: ReportInputs): Option<string> {
    GenerateHtml(inputs.template, Concat(RowList(data)), inputs.generationTime,
                 inputs.showData(data), inputs.showMapping(mapping), inputs.showPeDp(peDp))
  }

  /** `if (!htmlContent) return;`: only a page that is a non-empty text is written. */
  function WrittenPage(page: Option<string>): (w: Option<string>)
    ensures w.Some? <==> page.Some? && page.value != ""
    ensures w.Some? ==> w == page
  {
    if page.Some? && page.value != "" then page else None
  }

  /** Items without data give no rows. */
  lemma {:induction false} RowListOfEmptyItems(items: seq<IR.IndexReturns>)
    requires forall k :: 0 <= k < |items| ==> items[k].data == []
    ensures RowList(items) == []
  {
    if |items| > 0 {
      RowListOfEmptyItems(items[..|items| - 1]);
    }
  }

  /** A template that is only the table placeholder, filled with no rows, is the empty page, which is not written. */
  lemma BareTableMarkEmptyPage(generationTime: string, indexData: string, indexMapping: string, peDpData: string)
    ensures GenerateHtml(Some(TableRowsMark), "", generationTime, indexData, indexMapping, peDpData) == Some("")
    ensures WrittenPage(GenerateHtml(Some(TableRowsMark), "", generationTime, indexData, indexMapping, peDpData)).None?
  {
  }

  class IndexReportGenerator {
    var returnsFiles: map<string, ReturnsFile>
    var peDpFiles: map<string, PeDpFile>
    var reports: map<string, string>

    constructor(returnsFiles: map<string, ReturnsFile>, peDpFiles: map<string, PeDpFile>, reports: map<string, string>)
      ensures this.returnsFiles == returnsFiles && this.peDpFiles == peDpFiles && this.reports == reports
    {
      this.returnsFiles := returnsFiles;
      this.peDpFiles := peDpFiles;
      this.reports := reports;
    }

    /** `loadJsonData`: the chosen file's collection, `[]` without a file or when it does not parse. */
    method LoadJsonData(today: string, run: ScriptRun) returns (data: seq<IR.IndexReturns>)
      modifies this
      ensures returnsFiles == CheckAndFetchData(old(returnsFiles), today, run).1
      ensures data == ReadReturns(returnsFiles, CheckAndFetchData(old(returnsFiles), today, run).0)
      ensures peDpFiles == old(peDpFiles) && reports == old(reports)
    {
      var chosen := CheckAndFetchData(returnsFiles, today, run);
      returnsFiles := chosen.1;
      if chosen.0.None? {
        return [];
      }
      var dataFile := chosen.0.value;
      if dataFile in returnsFiles && returnsFiles[dataFile].ReturnsSaved? {
        data := returnsFiles[dataFile].items;
      } else {
        data := [];
      }
    }

    /** `loadPeDpData`: today's cache, or the fetched successes, saved as the cache. */
    method LoadPeDpData(today: string, sheet: Option<seq<seq<Cell>>>, outcome: nat -> Settled, writable: bool)
      returns (data: seq<CF.EtfResult>)
      modifies this
      ensures data == PeDpSpec(old(peDpFiles), today, sheet, outcome, writable).0
      ensures peDpFiles == PeDpSpec(old(peDpFiles), today, sheet, outcome, writable).1
      ensures returnsFiles == old(returnsFiles) && reports == old(reports)
    {
      var todayDataFile := PeDpPath(today);
      if todayDataFile in peDpFiles && peDpFiles[todayDataFile].PeDpSaved? {
        return peDpFiles[todayDataFile].results;
      }
      if sheet.None? {
        return [];
      }
      var etfCodes := PeDpCodes(sheet.value);
      var successfulResults, failedResults := Partition(etfCodes, outcome);
      if writable {
        peDpFiles := peDpFiles[todayDataFile := PeDpSaved(successfulResults)];
      }
      data := successfulResults;
    }

    /**
     * `generateIndexReport`: nothing more happens without data; otherwise the PE/DP
     * data is loaded and, when the template gives a non-empty page, it is written
     * under today's report name.
     */
    method GenerateIndexReport(today: string, inputs: ReportInputs) returns (written: Option<string>)
      modifies this
      ensures var data := ReadReturns(returnsFiles, CheckAndFetchData(old(returnsFiles), today, inputs.run).0);
        returnsFiles == CheckAndFetchData(old(returnsFiles), today, inputs.run).1
        && (data == [] ==> written.None? && peDpFiles == old(peDpFiles) && reports == old(reports))
        && (data != [] ==>
          var peDp := PeDpSpec(old(peDpFiles), today, inputs.codeSheet, inputs.outcome, inputs.writable);
          var mapping := if inputs.indexSheet.None? then map[] else MappingOf(inputs.indexSheet.value);
          peDpFiles == peDp.1
          && written == WrittenPage(PageOf(data, mapping, peDp.0, inputs))
          && reports == if written.None? then old(reports) else old(reports)[ReportPath(today) := written.value])
    {
      var jsonData := LoadJsonData(today, inputs.run);
      if |jsonData| == 0 {
        return None;
      }
      var indexMapping := LoadIndexList(inputs.indexSheet);
      var peDpData := LoadPeDpData(today, inputs.codeSheet, inputs.outcome, inputs.writable);
      var tableRows := GenerateTableRows(jsonData);
      var htmlContent := GenerateHtml(inputs.template, tableRows, inputs.generationTime,
                                      inputs.showData(jsonData), inputs.showMapping(indexMapping), inputs.showPeDp(peDpData));
      if htmlContent.None? || htmlContent.value == "" {
        return None;
      }
      written := htmlContent;
      reports := reports[ReportPath(today) := written.value];
    }
  }
}
