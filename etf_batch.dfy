/**
 * `ETFFundamentalsBatchProcessor`: turns the index scraper's summary into one
 * record per ETF, reuses today's saved records when they exist, saves them
 * only if today's file is not there yet, and writes a CSV digest beside them.
 *
 * The data directory is a map from path to file; today's date, the current
 * time stamp and the rendering of numbers for the CSV are parameters.
 */
module EtfBatch {
  import opened Wrappers
  import opened Text
  import opened PageCascade
  import opened HsiAttempts
  import opened HsiIndex

  /** One ETF's record. */
  datatype EtfRecord = EtfRecord(
    etfCode: string, indexCode: string, indexName: string,
    dividendYield: Option<real>, peRatio: Option<real>, timestamp: string, source: string, error: Option<string>)

  const Source := "HSI Fundamentals"
  const DefaultError := "获取数据失败"

  /** A file of the data directory: one that does not parse as JSON, a saved run, or a CSV digest. */
  datatype DataFile =
    | Unparsable
    | Saved(timestamp: string, totalETFs: nat, processedIndices: Option<seq<string>>, results: Option<seq<EtfRecord>>)
    | Csv(text: string)

  function JsonPath(dir: string, today: string): string { dir + "/etf-fundamentals-" + today + ".json" }
  function CsvPath(dir: string, today: string): string { dir + "/etf-fundamentals-" + today + ".csv" }

  /** `set.add(x)` on a set kept in insertion order. */
  function AddToSet(s: seq<string>, x: string): (r: seq<string>)
    ensures forall y :: y in r <==> y in s || y == x
  {
    if x in s then s else s + [x]
  }

  /** `new Set(list)`, in first-occurrence order. */
  function SetOf(list: seq<string>): (r: seq<string>)
    ensures forall y :: y in r <==> y in list
  {
    if list == [] then [] else AddToSet(SetOf(list[..|list| - 1]), list[|list| - 1])
  }

  /** The `foundData` of a scraper result: present only for a successful extraction. */
  function FoundDataOf(r: IndexResult): seq<FoundItem> {
    if r.outcome.Fetched? && r.outcome.data.data.DataFound? then r.outcome.data.data.fundamentals.foundData else []
  }

  /** The `error` field of a scraper result, if it has one. */
  function ErrorField(r: IndexResult): Option<string> {
    match r.outcome
    case EntryFailed(m) => Some(m)
    case Fetched(d) => ErrorOf(d.data)
  }

  /** The value of the last of the first `n` items of kind `kind`, or `null`. */
  function LastOfKind(items: seq<FoundItem>, kind: string, n: nat): Option<real>
    requires n <= |items|
  {
    if n == 0 then None
    else if items[n - 1].kind == kind then Some(items[n - 1].value)
    else LastOfKind(items, kind, n - 1)
  }

  /** The record a scraper result converts to; `now` replaces a missing time stamp. */
  function ConvertSpec(r: IndexResult, now: string): EtfRecord {
    var items := FoundDataOf(r);
    var error :=
      if ResultSucceeded(r) then None
      else if ErrorField(r).Some? && ErrorField(r).value != "" then ErrorField(r)
      else Some(DefaultError);
    EtfRecord(r.etfCode, r.indexCode, r.indexName,
      LastOfKind(items, DividendKind, |items|), LastOfKind(items, PeKind, |items|),
      if r.timestamp != "" then r.timestamp else now, Source, error)
  }

  /** One result's conversion: each found item of a known kind overwrites that field. */
  method ConvertResult(r: IndexResult, now: string) returns (e: EtfRecord)
    ensures e == ConvertSpec(r, now)
  {
    e := EtfRecord(r.etfCode, r.indexCode, r.indexName, None, None, if r.timestamp != "" then r.timestamp else now, Source, None);
    var items := FoundDataOf(r);
    var i := 0;
    while i < |items|
      invariant 0 <= i <= |items|
      invariant e == ConvertSpec(r, now).(dividendYield := LastOfKind(items, DividendKind, i),
        peRatio := LastOfKind(items, PeKind, i), error := None)
    {
      if items[i].kind == DividendKind {
        e := e.(dividendYield := Some(items[i].value));
      } else if items[i].kind == PeKind {
        e := e.(peRatio := Some(items[i].value));
      }
      i := i + 1;
    }
    if !ResultSucceeded(r) {
      var err := ErrorField(r);
      e := e.(error := if err.Some? && err.value != "" then err else Some(DefaultError));
    }
  }

  /** The records of a whole summary, one per result and in order. */
  function ConvertAll(rs: seq<IndexResult>, now: string): (out: seq<EtfRecord>)
    ensures |out| == |rs|
  {
    if rs == [] then [] else ConvertAll(rs[..|rs| - 1], now) + [ConvertSpec(rs[|rs| - 1], now)]
  }

  /** The index codes of the successful results, in first-success order. */
  function ProcessedOf(rs: seq<IndexResult>): seq<string> {
    if rs == [] then []
    else if ResultSucceeded(rs[|rs| - 1]) then AddToSet(ProcessedOf(rs[..|rs| - 1]), rs[|rs| - 1].indexCode)
    else ProcessedOf(rs[..|rs| - 1])
  }

  /** Whether a scraper reply may be converted: present, not `success: false`, and with a results array. */
  predicate Usable(hsi: Option<HsiReply>) {
    hsi.Some? && hsi.value.success != Some(false) && hsi.value.results.Some?
  }

  /** The processor's state after `processAllETFs` (its return value is `results`). */
  datatype BatchState = BatchState(results: seq<EtfRecord>, processedIndices: seq<string>, scraperCreated: bool)

  /**
   * `processAllETFs`: today's file, if it parses, replaces the state and the scraper is
   * never created; otherwise the scraper is created, and a failed initialization or
   * an unusable reply leaves the records as they were.
   */
  function ProcessSpec(s: BatchState, files: map<string, DataFile>, dir: string, today: string, now: string,
                       initialized: bool, hsi: Option<HsiReply>): BatchState
  {
    var path := JsonPath(dir, today);
    if path in files && files[path].Saved? then
      var f := files[path];
      BatchState(if f.results.Some? then f.results.value else [],
                 SetOf(if f.processedIndices.Some? then f.processedIndices.value else []), s.scraperCreated)
    else if !initialized || !Usable(hsi) then s.(scraperCreated := true)
    else BatchState(ConvertAll(hsi.value.results.value, now), ProcessedOf(hsi.value.results.value), true)
  }

  /** One CSV field for an optional number: falsy values (`null`, 0) become empty. */
  function NumberField(v: Option<real>, render: real -> string): string {
    if v.Some? && v.value != 0.0 then render(v.value) else ""
  }

  function CsvRow(e: EtfRecord, render: real -> string): string {
    Join([e.etfCode, e.indexCode, e.indexName, NumberField(e.dividendYield, render), NumberField(e.peRatio, render),
          e.timestamp, if e.error.Some? then e.error.value else ""], ",")
  }

  const CsvHeaderLine := "ETF代码,指数代码,指数名称,周息率,市盈率,时间戳,错误信息"
  const CsvHeader := CsvHeaderLine + "\n"

  function CsvRows(results: seq<EtfRecord>, render: real -> string): (rows: seq<string>)
    ensures |rows| == |results|
    ensures forall k :: 0 <= k < |results| ==> rows[k] == CsvRow(results[k], render)
  {
    seq(|results|, k requires 0 <= k < |results| => CsvRow(results[k], render))
  }

  function CsvText(results: seq<EtfRecord>, render: real -> string): string {
    CsvHeader + Join(CsvRows(results, render), "\n")
  }

  class EtfBatchProcessor {
    var results: seq<EtfRecord>
    var processedIndices: seq<string>
    var scraperCreated: bool
    var files: map<string, DataFile>
    const dataDirectory: string

    constructor(dir: string, existing: map<string, DataFile>)
      ensures results == [] && processedIndices == [] && !scraperCreated
      ensures files == existing && dataDirectory == dir
    {
      results := [];
      processedIndices := [];
      scraperCreated := false;
      files := existing;
      dataDirectory := dir;
    }

    /** `loadTodayData`: false, with nothing changed, when the file does not parse. */
    method LoadTodayData(path: string) returns (loaded: bool)
      modifies this
      ensures files == old(files) && scraperCreated == old(scraperCreated)
      ensures loaded <==> path in files && files[path].Saved?
      ensures loaded ==> results == (if files[path].results.Some? then files[path].results.value else [])
      ensures loaded ==> processedIndices == SetOf(if files[path].processedIndices.Some? then files[path].processedIndices.value else [])
      ensures !loaded ==> results == old(results) && processedIndices == old(processedIndices)
    {
      if path !in files || !files[path].Saved? {
        return false;
      }
      var f := files[path];
      results := if f.results.Some? then f.results.value else [];
      processedIndices := SetOf(if f.processedIndices.Some? then f.processedIndices.value else []);
      loaded := true;
    }

    method ProcessAllETFs(today: string, now: string, initialized: bool, hsi: Option<HsiReply>) returns (out: seq<EtfRecord>)
      modifies this
      ensures BatchState(results, processedIndices, scraperCreated)
        == ProcessSpec(old(BatchState(results, processedIndices, scraperCreated)), old(files), dataDirectory, today, now, initialized, hsi)
      ensures out == results && files == old(files)
    {
      var todayFile := JsonPath(dataDirectory, today);
      if todayFile in files {
        var loaded := LoadTodayData(todayFile);
        if loaded {
          return results;
        }
      }
      scraperCreated := true;
      if !initialized || !Usable(hsi) {
        return results;
      }
      var hsiResults := hsi.value.results.value;
      results := [];
      processedIndices := [];
      var i := 0;
      while i < |hsiResults|
        invariant 0 <= i <= |hsiResults|
        invariant results == ConvertAll(hsiResults[..i], now)
        invariant processedIndices == ProcessedOf(hsiResults[..i])
        invariant files == old(files) && scraperCreated
      {
        var e := ConvertResult(hsiResults[i], now);
        if ResultSucceeded(hsiResults[i]) {
          processedIndices := AddToSet(processedIndices, hsiResults[i].indexCode);
        }
        results := results + [e];
        assert hsiResults[..i + 1][..i] == hsiResults[..i];
        i := i + 1;
      }
      assert hsiResults[..|hsiResults|] == hsiResults;
      out := results;
    }

    /** `saveResults`: create-if-absent; an existing file of today is returned without writing anything. */
    method SaveResults(today: string, now: string, render: real -> string) returns (path: string)
      modifies this
      ensures path == JsonPath(dataDirectory, today)
      ensures path in old(files) ==> files == old(files)
      ensures path !in old(files) ==> files == old(files)[path := Saved(now, |results|, Some(processedIndices), Some(results))]
                                                         [CsvPath(dataDirectory, today) := Csv(CsvText(results, render))]
      ensures results == old(results) && processedIndices == old(processedIndices) && scraperCreated == old(scraperCreated)
    {
      path := JsonPath(dataDirectory, today);
      if path in files {
        return path;
      }
      files := files[path := Saved(now, |results|, Some(processedIndices), Some(results))];
      files := files[CsvPath(dataDirectory, today) := Csv(CsvText(results, render))];
    }
  }

  // ---- properties ----

  /** The conversion keeps one record per result, in order, each carrying its result's codes and name. */
  lemma {:induction false} ConvertAllPointwise(rs: seq<IndexResult>, now: string)
    ensures forall k :: 0 <= k < |rs| ==> ConvertAll(rs, now)[k] == ConvertSpec(rs[k], now)
    decreases |rs|
  {
    if rs != [] {
      ConvertAllPointwise(rs[..|rs| - 1], now);
    }
  }

  /** The last item of a kind wins; with no item of that kind the field stays `null`. */
  lemma {:induction false} LastOfKindIsLast(items: seq<FoundItem>, kind: string, n: nat)
    requires n <= |items|
    ensures LastOfKind(items, kind, n).None? <==> forall k :: 0 <= k < n ==> items[k].kind != kind
    ensures LastOfKind(items, kind, n).Some? ==>
      exists k :: 0 <= k < n && items[k].kind == kind && LastOfKind(items, kind, n) == Some(items[k].value)
        && forall j :: k < j < n ==> items[j].kind != kind
  {
    if n > 0 {
      LastOfKindIsLast(items, kind, n - 1);
      if items[n - 1].kind == kind {
        assert LastOfKind(items, kind, n) == Some(items[n - 1].value);
      } else {
        assert LastOfKind(items, kind, n) == LastOfKind(items, kind, n - 1);
        if LastOfKind(items, kind, n - 1).Some? {
          var k :| 0 <= k < n - 1 && items[k].kind == kind && LastOfKind(items, kind, n - 1) == Some(items[k].value)
            && forall j :: k < j < n - 1 ==> items[j].kind != kind;
          assert forall j :: k < j < n ==> items[j].kind != kind;
        }
      }
    }
  }

  /** A record carries an error exactly when its result failed, and then never an empty one. */
  lemma ErrorIffFailed(r: IndexResult, now: string)
    ensures ConvertSpec(r, now).error.Some? <==> !ResultSucceeded(r)
    ensures ConvertSpec(r, now).error.Some? ==> ConvertSpec(r, now).error.value != ""
  {
  }

  /** `processedIndices` holds exactly the index codes of the successful results. */
  lemma {:induction false} ProcessedIsSuccessCodes(rs: seq<IndexResult>)
    ensures forall x :: x in ProcessedOf(rs) <==> exists k :: 0 <= k < |rs| && ResultSucceeded(rs[k]) && rs[k].indexCode == x
    decreases |rs|
  {
    if rs != [] {
      var init := rs[..|rs| - 1];
      ProcessedIsSuccessCodes(init);
      forall x
        ensures x in ProcessedOf(rs) <==> exists k :: 0 <= k < |rs| && ResultSucceeded(rs[k]) && rs[k].indexCode == x
      {
        if x in ProcessedOf(rs) && !(x in ProcessedOf(init)) {
          assert ResultSucceeded(rs[|rs| - 1]) && rs[|rs| - 1].indexCode == x;
        }
        if exists k :: 0 <= k < |rs| && ResultSucceeded(rs[k]) && rs[k].indexCode == x {
          var k :| 0 <= k < |rs| && ResultSucceeded(rs[k]) && rs[k].indexCode == x;
          if k < |rs| - 1 {
            assert init[k] == rs[k];
          }
        }
      }
    }
  }

  /** Today's saved file wins: its records are used and the scraper is never created. */
  lemma CacheHitSkipsScraper(s: BatchState, files: map<string, DataFile>, dir: string, today: string, now: string,
                             initialized: bool, hsi: Option<HsiReply>)
    requires JsonPath(dir, today) in files && files[JsonPath(dir, today)].Saved?
    ensures ProcessSpec(s, files, dir, today, now, initialized, hsi).scraperCreated == s.scraperCreated
    ensures files[JsonPath(dir, today)].results.None? ==> ProcessSpec(s, files, dir, today, now, initialized, hsi).results == []
  {
  }

  /** An unusable reply aborts the run and returns the records held before it. */
  lemma AbortKeepsRecords(s: BatchState, files: map<string, DataFile>, dir: string, today: string, now: string,
                          initialized: bool, hsi: Option<HsiReply>)
    requires !(JsonPath(dir, today) in files && files[JsonPath(dir, today)].Saved?)
    requires !initialized || hsi.None? || hsi.value.success == Some(false) || hsi.value.results.None?
    ensures ProcessSpec(s, files, dir, today, now, initialized, hsi).results == s.results
    ensures ProcessSpec(s, files, dir, today, now, initialized, hsi).processedIndices == s.processedIndices
  {
  }

  /** A fresh conversion: one record per result, in order. */
  lemma FreshRunConverts(s: BatchState, files: map<string, DataFile>, dir: string, today: string, now: string,
                         hsi: HsiReply, k: nat)
    requires !(JsonPath(dir, today) in files && files[JsonPath(dir, today)].Saved?)
    requires Usable(Some(hsi)) && k < |hsi.results.value|
    ensures var out := ProcessSpec(s, files, dir, today, now, true, Some(hsi)).results;
      |out| == |hsi.results.value| && out[k] == ConvertSpec(hsi.results.value[k], now)
  {
    ConvertAllPointwise(hsi.results.value, now);
  }

  /** No CSV field spills onto another line when no text in the records holds a line break. */
  predicate SingleLine(e: EtfRecord, render: real -> string) {
    CountChar(CsvRow(e, render), '\n') == 0
  }

  /** A row holds a line break only if one of its seven fields does. */
  lemma CsvRowSingleLine(e: EtfRecord, render: real -> string)
    requires CountChar(e.etfCode, '\n') == 0 && CountChar(e.indexCode, '\n') == 0 && CountChar(e.indexName, '\n') == 0
    requires CountChar(e.timestamp, '\n') == 0
    requires e.error.Some? ==> CountChar(e.error.value, '\n') == 0
    requires forall v: real :: CountChar(render(v), '\n') == 0
    ensures SingleLine(e, render)
  {
    var fields := [e.etfCode, e.indexCode, e.indexName, NumberField(e.dividendYield, render), NumberField(e.peRatio, render),
                   e.timestamp, if e.error.Some? then e.error.value else ""];
    assert CountChar("", '\n') == 0;
    assert forall k :: 0 <= k < |fields| ==> CountChar(fields[k], '\n') == 0;
    CountCharJoin(fields, ",", '\n');
    assert CountChar(",", '\n') == 0;
  }

  lemma HeaderHasOneBreak()
    ensures CountChar(CsvHeader, '\n') == 1
  {
    CountCharAbsent(CsvHeaderLine, '\n');
    CountCharAppend(CsvHeaderLine, "\n", '\n');
    assert "\n"[1..] == "";
  }

  /** The CSV is the header line plus one line per record: `max(1, n)` line breaks for `n` records. */
  lemma CsvLineCount(results: seq<EtfRecord>, render: real -> string)
    requires forall k :: 0 <= k < |results| ==> SingleLine(results[k], render)
    ensures CountChar(CsvText(results, render), '\n') == if |results| == 0 then 1 else |results|
  {
    var rows := CsvRows(results, render);
    assert forall k :: 0 <= k < |rows| ==> CountChar(rows[k], '\n') == 0;
    var body := Join(rows, "\n");
    assert CountChar("\n", '\n') == 1 by {
      assert "\n"[1..] == "";
    }
    CountCharJoin(rows, "\n", '\n');
    assert CountChar(body, '\n') == if |rows| == 0 then 0 else |rows| - 1;
    CountCharAppend(CsvHeader, body, '\n');
    HeaderHasOneBreak();
  }
}
