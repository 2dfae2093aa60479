/**
 * `CSIndexFetcher`: downloads a CSI index indicator sheet per code, reads the
 * P/E, D/P and index-name columns from its first data row, retries every failure
 * with exponential backoff, and fetches lists of codes in consecutive batches.
 *
 * A download is an oracle indexed by the attempt number; waiting is recorded as
 * the sequence of delays asked for.
 */
module CsIndexFetcher {
  import opened Wrappers
  import opened Text
  import opened Cells
  import Polling

  /** The options passed to the constructor; a value left out is `None`. */
  datatype FetcherOptions = FetcherOptions(maxRetries: Option<int>, retryDelay: Option<real>, backoffMultiplier: Option<real>)

  datatype Config = Config(maxRetries: int, retryDelay: real, backoffMultiplier: real)

  /** `options.x || default`: a missing value and 0 both give the default. */
  function OrInt(v: Option<int>, default: int): int { if v.Some? && v.value != 0 then v.value else default }
  function OrReal(v: Option<real>, default: real): real { if v.Some? && v.value != 0.0 then v.value else default }

  function MakeConfig(o: FetcherOptions): (c: Config)
    ensures o.maxRetries.None? || o.maxRetries == Some(0) ==> c.maxRetries == 3
    ensures o.retryDelay.None? || o.retryDelay == Some(0.0) ==> c.retryDelay == 2000.0
    ensures o.backoffMultiplier.None? || o.backoffMultiplier == Some(0.0) ==> c.backoffMultiplier == 1.5
    ensures o.maxRetries.Some? && o.maxRetries.value != 0 ==> c.maxRetries == o.maxRetries.value
    ensures o.retryDelay.Some? && o.retryDelay.value != 0.0 ==> c.retryDelay == o.retryDelay.value
    ensures o.backoffMultiplier.Some? && o.backoffMultiplier.value != 0.0 ==> c.backoffMultiplier == o.backoffMultiplier.value
  {
    Config(OrInt(o.maxRetries, 3), OrReal(o.retryDelay, 2000.0), OrReal(o.backoffMultiplier, 1.5))
  }

  /** How one download-and-parse goes before the sheet is inspected. */
  datatype Download = FetchThrew(message: string) | NotOk(statusText: string) | ParseThrew(message: string) | Sheet(rows: seq<seq<Cell>>)

  /** The `findIndex` of a header: the first marked column, none, or the `TypeError` of a truthy non-string header before it. */
  datatype Lookup = Column(index: nat) | NoColumn | LookupThrew

  const NotAFunctionMessage := "h.includes is not a function"

  /** `headerRow.findIndex(h => h && h.includes(marker))` from column `i` on. */
  function FindHeader(header: seq<Cell>, marker: string, i: nat): (r: Lookup)
    decreases |header| - i
    ensures r.Column? ==> i <= r.index < |header| && header[r.index].Str? && Contains(header[r.index].s, marker)
  {
    if i >= |header| then NoColumn
    else if !Truthy(header[i]) then FindHeader(header, marker, i + 1)
    else if !header[i].Str? then LookupThrew
    else if Contains(header[i].s, marker) then Column(i)
    else FindHeader(header, marker, i + 1)
  }

  /** The record a successful attempt returns; `fundName` is always empty. */
  datatype EtfData = EtfData(etfCode: string, fundName: string, indexName: Cell, pe1: Cell, pe2: Cell, dp1: Cell, dp2: Cell)

  datatype AttemptResult = AttemptOk(data: EtfData) | AttemptFailed(message: string)

  /** The data-row cell under a column, or `missing` when there is no such column. */
  function Pick(row: seq<Cell>, l: Lookup, missing: Cell): Cell {
    if l.Column? then At(row, l.index) else missing
  }

  /** One attempt of `getETFData` for `code`. */
  function Attempt(code: string, d: Download): AttemptResult {
    match d
    case FetchThrew(m) => AttemptFailed(m)
    case ParseThrew(m) => AttemptFailed(m)
    case NotOk(status) => AttemptFailed("Failed to download file for code " + code + ": " + status)
    case Sheet(rows) =>
      if |rows| < 2 then AttemptFailed("No data found in the Excel file for code " + code + ".")
      else
        var header := rows[0];
        var pe1 := FindHeader(header, "P/E1", 0);
        var pe2 := FindHeader(header, "P/E2", 0);
        var dp1 := FindHeader(header, "D/P1", 0);
        var dp2 := FindHeader(header, "D/P2", 0);
        var name := FindHeader(header, "Index Chinese Name", 0);
        if pe1.LookupThrew? || pe2.LookupThrew? || dp1.LookupThrew? || dp2.LookupThrew? || name.LookupThrew? then
          AttemptFailed(NotAFunctionMessage)
        else
          AttemptOk(EtfData(code, "", Pick(rows[1], name, Str("N/A")),
            Pick(rows[1], pe1, Null), Pick(rows[1], pe2, Null), Pick(rows[1], dp1, Null), Pick(rows[1], dp2, Null)))
  }

  /** What `getETFData` resolves to; on failure `maxRetries` is echoed. */
  datatype EtfResult =
    | EtfOk(data: EtfData, retryCount: nat)
    | EtfFailed(etfCode: string, error: string, retryCount: nat, maxRetries: int)

  /** `base^e`. */
  function Pow(base: real, e: nat): real { if e == 0 then 1.0 else base * Pow(base, e - 1) }

  /** The wait before the retry that follows failed attempt `r`. */
  function RetryDelay(c: Config, r: nat): real { c.retryDelay * Pow(c.backoffMultiplier, r) }

  /** `getETFData(code, r)`: the source's recursion on `retryCount`. */
  function FetchFrom(c: Config, code: string, download: nat -> Download, r: nat): EtfResult
    decreases c.maxRetries - r
  {
    match Attempt(code, download(r))
    case AttemptOk(data) => EtfOk(data, r)
    case AttemptFailed(m) => if r < c.maxRetries then FetchFrom(c, code, download, r + 1) else EtfFailed(code, m, r, c.maxRetries)
  }

  /** The delays that recursion waits. */
  function DelaysFrom(c: Config, code: string, download: nat -> Download, r: nat): seq<real>
    decreases c.maxRetries - r
  {
    match Attempt(code, download(r))
    case AttemptOk(_) => []
    case AttemptFailed(_) => if r < c.maxRetries then [RetryDelay(c, r)] + DelaysFrom(c, code, download, r + 1) else []
  }

  function FetchSpec(c: Config, code: string, download: nat -> Download): EtfResult { FetchFrom(c, code, download, 0) }

  /** The retry as a bounded loop: attempt, and after a failure wait and try again while retries remain. */
  method GetETFData(c: Config, code: string, download: nat -> Download) returns (result: EtfResult, delays: seq<real>)
    ensures result == FetchSpec(c, code, download)
    ensures delays == DelaysFrom(c, code, download, 0)
  {
    var retryCount: nat := 0;
    delays := [];
    while true
      invariant FetchFrom(c, code, download, retryCount) == FetchSpec(c, code, download)
      invariant delays + DelaysFrom(c, code, download, retryCount) == DelaysFrom(c, code, download, 0)
      decreases c.maxRetries - retryCount
    {
      var attempt := Attempt(code, download(retryCount));
      if attempt.AttemptOk? {
        return EtfOk(attempt.data, retryCount), delays;
      }
      if retryCount >= c.maxRetries {
        return EtfFailed(code, attempt.message, retryCount, c.maxRetries), delays;
      }
      delays := delays + [RetryDelay(c, retryCount)];
      retryCount := retryCount + 1;
    }
  }

  /** Attempt `k` fails, whatever the error. */
  predicate Fails(code: string, download: nat -> Download, k: nat) { Attempt(code, download(k)).AttemptFailed? }

  /**
   * From attempt `r` on: success reports the number of failures before it; failure
   * comes only after the last allowed attempt, with that attempt's message; one
   * delay is waited after each failure but the last, growing by the multiplier.
   */
  lemma {:induction false} FetchFromFacts(c: Config, code: string, download: nat -> Download, r: nat)
    ensures var res := FetchFrom(c, code, download, r);
      res.retryCount >= r && (forall k :: r <= k < res.retryCount ==> Fails(code, download, k))
    ensures var res := FetchFrom(c, code, download, r);
      res.EtfOk? ==> Attempt(code, download(res.retryCount)) == AttemptOk(res.data)
    ensures var res := FetchFrom(c, code, download, r);
      res.retryCount <= (if r < c.maxRetries then c.maxRetries else r)
    ensures var res := FetchFrom(c, code, download, r);
      res.EtfFailed? ==> (res.retryCount == (if r < c.maxRetries then c.maxRetries else r)
        && Attempt(code, download(res.retryCount)) == AttemptFailed(res.error) && res.maxRetries == c.maxRetries)
    ensures var res := FetchFrom(c, code, download, r);
      var ds := DelaysFrom(c, code, download, r);
      |ds| == res.retryCount - r && forall k :: 0 <= k < |ds| ==> ds[k] == RetryDelay(c, r + k)
    decreases c.maxRetries - r
  {
    if Attempt(code, download(r)).AttemptFailed? && r < c.maxRetries {
      FetchFromFacts(c, code, download, r + 1);
    }
  }

  /** At most `maxRetries + 1` attempts; exhaustion reports `retryCount = maxRetries` (0 for a negative setting). */
  lemma FetchBounds(c: Config, code: string, download: nat -> Download)
    ensures FetchSpec(c, code, download).retryCount <= (if c.maxRetries > 0 then c.maxRetries else 0)
    ensures FetchSpec(c, code, download).EtfFailed? ==>
      FetchSpec(c, code, download).retryCount == (if c.maxRetries > 0 then c.maxRetries else 0)
      && forall k :: 0 <= k <= FetchSpec(c, code, download).retryCount ==> Fails(code, download, k)
    ensures FetchSpec(c, code, download).EtfOk? ==>
      !Fails(code, download, FetchSpec(c, code, download).retryCount)
      && forall k :: 0 <= k < FetchSpec(c, code, download).retryCount ==> Fails(code, download, k)
  {
    FetchFromFacts(c, code, download, 0);
    var res := FetchSpec(c, code, download);
    if res.EtfFailed? {
      assert Fails(code, download, res.retryCount);
    }
  }

  /** With the default settings, three failures in a row are followed by waits of 2000, 3000 and 4500 ms. */
  lemma DefaultSchedule(code: string, download: nat -> Download)
    requires forall k :: 0 <= k <= 3 ==> Fails(code, download, k)
    ensures DelaysFrom(MakeConfig(FetcherOptions(None, None, None)), code, download, 0) == [2000.0, 3000.0, 4500.0]
    ensures FetchSpec(MakeConfig(FetcherOptions(None, None, None)), code, download).EtfFailed?
  {
    var c := MakeConfig(FetcherOptions(None, None, None));
    FetchFromFacts(c, code, download, 0);
    assert Fails(code, download, 0) && Fails(code, download, 1) && Fails(code, download, 2) && Fails(code, download, 3);
    assert Pow(1.5, 2) == 2.25;
  }

  /** A sheet row with fewer than two rows fails the attempt; a missing column reads `null`, a missing name 'N/A'. */
  lemma SheetShape(code: string, rows: seq<seq<Cell>>)
    ensures |rows| < 2 ==> Attempt(code, Sheet(rows)).AttemptFailed?
    ensures |rows| >= 2 && Attempt(code, Sheet(rows)).AttemptOk? ==>
      var d := Attempt(code, Sheet(rows)).data;
      d.etfCode == code && d.fundName == ""
      && (FindHeader(rows[0], "P/E1", 0) == NoColumn ==> d.pe1 == Null)
      && (FindHeader(rows[0], "Index Chinese Name", 0) == NoColumn ==> d.indexName == Str("N/A"))
      && (FindHeader(rows[0], "P/E2", 0).Column? ==> d.pe2 == At(rows[1], FindHeader(rows[0], "P/E2", 0).index))
  {
  }

  /** A header lookup takes the first column whose text contains the marker, past only falsy headers and non-matching strings. */
  lemma {:induction false} FindHeaderIsFirst(header: seq<Cell>, marker: string, i: nat)
    requires FindHeader(header, marker, i).Column?
    ensures forall j :: i <= j < FindHeader(header, marker, i).index ==>
      !Truthy(header[j]) || (header[j].Str? && !Contains(header[j].s, marker))
    decreases |header| - i
  {
    if Truthy(header[i]) && header[i].Str? && Contains(header[i].s, marker) {
    } else {
      FindHeaderIsFirst(header, marker, i + 1);
    }
  }

  // ---- getETFDataBatch ----

  /** The batch options; a value left out is `None`. */
  datatype BatchOptions = BatchOptions(concurrency: Option<nat>, batchDelay: Option<real>)

  function Concurrency(o: BatchOptions): (n: nat)
    ensures n > 0
  {
    if o.concurrency.Some? && o.concurrency.value != 0 then o.concurrency.value else 5
  }

  function BatchDelay(o: BatchOptions): real { OrReal(o.batchDelay, 1000.0) }

  /** The inter-batch delays from the batch starting at `i` on: one after every batch that has codes after it. */
  function BatchDelaysFrom(n: nat, size: nat, d: real, i: nat): seq<real>
    requires size > 0
    decreases n - i
  {
    if i >= n then [] else (if i + size < n then [d] else []) + BatchDelaysFrom(n, size, d, i + size)
  }

  /** The results, in code order, given the downloads of the code at each position. */
  function BatchSpec(c: Config, codes: seq<string>, downloads: nat -> nat -> Download): (r: seq<EtfResult>)
    ensures |r| == |codes|
  {
    seq(|codes|, k requires 0 <= k < |codes| => FetchSpec(c, codes[k], downloads(k)))
  }

  /** Consecutive chunks of `concurrency` codes; each chunk's codes are fetched, then the delay is taken if codes remain. */
  method GetETFDataBatch(c: Config, codes: seq<string>, o: BatchOptions, downloads: nat -> nat -> Download)
    returns (results: seq<EtfResult>, batchDelays: seq<real>)
    ensures results == BatchSpec(c, codes, downloads)
    ensures batchDelays == BatchDelaysFrom(|codes|, Concurrency(o), BatchDelay(o), 0)
  {
    var size := Concurrency(o);
    var delay := BatchDelay(o);
    results := [];
    batchDelays := [];
    var i := 0;
    while i < |codes|
      invariant i == |results| <= |codes|
      invariant forall k :: 0 <= k < i ==> results[k] == FetchSpec(c, codes[k], downloads(k))
      invariant batchDelays + BatchDelaysFrom(|codes|, size, delay, i) == BatchDelaysFrom(|codes|, size, delay, 0)
      decreases |codes| - i
    {
      var end := if i + size < |codes| then i + size else |codes|;
      var j := i;
      while j < end
        invariant i <= j <= end && j == |results|
        invariant forall k :: 0 <= k < j ==> results[k] == FetchSpec(c, codes[k], downloads(k))
      {
        var r, _ := GetETFData(c, codes[j], downloads(j));
        results := results + [r];
        j := j + 1;
      }
      assert BatchDelaysFrom(|codes|, size, delay, i)
        == (if i + size < |codes| then [delay] else []) + BatchDelaysFrom(|codes|, size, delay, end);
      if i + size < |codes| {
        batchDelays := batchDelays + [delay];
      }
      i := end;
    }
    assert results == BatchSpec(c, codes, downloads);
  }

  /** There is one delay fewer than there are batches, so none after the last. */
  lemma {:induction false} BatchDelayCount(n: nat, size: nat, d: real, i: nat)
    requires size > 0 && i < n
    ensures |BatchDelaysFrom(n, size, d, i)| == Polling.CeilDiv(n - i, size) - 1
    decreases n - i
  {
    if i + size < n {
      BatchDelayCount(n, size, d, i + size);
    } else {
      assert Polling.CeilDiv(n - i - size, size) == 0;
    }
  }
}
