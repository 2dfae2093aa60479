/**
 * The fund-size scraper: for every configured code not yet scraped today, the
 * Shenzhen report (codes starting '1') or the Shanghai fund page (codes starting
 * '5') gives today's size, which is upserted into that fund's history file, newest
 * first and at most 20 entries long.
 *
 * The pages are inputs: the Shanghai table as the page evaluation returns it and
 * the Shenzhen report's first record; `new URL(..).search` parsing is an input too.
 * One clock reading `now` stands for every `new Date()` of a run, and `dayOf`
 * for `new Date(t).toDateString()`.
 */
module StockHistory {
  import opened Wrappers
  import opened Text

  /** A text, or JavaScript's `undefined` or `null` where the scraper read nothing. */
  datatype JsValue = Undefined | Null | Str(s: string)

  /**
   * One history entry. A date or size read from outside a table row is `None`
   * (`undefined`); the code and name keep apart the Shanghai row's `undefined`
   * and the `null` of `URLSearchParams.get` for an absent Shenzhen parameter,
   * because both reach the file name.
   */
  datatype StockEntry = StockEntry(date: Option<string>, stock: JsValue, name: JsValue,
                                   size: Option<string>, scrapeTime: Option<string>)

  /** A history file: one that does not parse as a JSON array, or its entries. */
  datatype StockFile = Unreadable | Entries(list: seq<StockEntry>)

  const MaxEntries: nat := 20

  /** `String(x)` as used in a file name. */
  function JsText(x: JsValue): string {
    match x
    case Undefined => "undefined"
    case Null => "null"
    case Str(t) => t
  }

  function StockPath(stock: JsValue): string { "data/" + JsText(stock) + "_data.json" }

  // ---- saveToFile ----

  /** `findIndex(item => item.date === date)`, from position `i`. */
  function FindDate(list: seq<StockEntry>, date: Option<string>, i: nat): (r: int)
    decreases |list| - i
    ensures r == -1 || i <= r < |list|
    ensures r >= 0 ==> list[r].date == date && forall k :: i <= k < r ==> list[k].date != date
    ensures r == -1 ==> forall k :: i <= k < |list| ==> list[k].date != date
  {
    if i >= |list| then -1 else if list[i].date == date then i else FindDate(list, date, i + 1)
  }

  /** The list after the upsert: replace the entry with the same date, else prepend; then keep the first 20. */
  function Upsert(list: seq<StockEntry>, e: StockEntry): seq<StockEntry> {
    var idx := FindDate(list, e.date, 0);
    var updated := if idx >= 0 then list[idx := e] else [e] + list;
    if |updated| > MaxEntries then updated[..MaxEntries] else updated
  }

  /** The files after `saveToFile`: a file that does not parse makes it give up without writing. */
  function SaveSpec(files: map<string, StockFile>, data: StockEntry, now: string): map<string, StockFile> {
    var path := StockPath(data.stock);
    if path in files && files[path].Unreadable? then files
    else files[path := Entries(Upsert(if path in files then files[path].list else [], data.(scrapeTime := Some(now))))]
  }

  /** `shouldScrapeStock`: scrape unless the newest entry was scraped on today's date. */
  predicate ShouldScrape(files: map<string, StockFile>, code: string, now: string, dayOf: string -> string) {
    var path := StockPath(Str(code));
    path !in files || files[path].Unreadable? || |files[path].list| == 0
    || files[path].list[0].scrapeTime.None? || dayOf(files[path].list[0].scrapeTime.value) != dayOf(now)
  }

  // ---- result shaping ----

  /** What the Shanghai page yields: the wait or navigation throws, or the table rows (`None`: no container or table). */
  datatype ShPage = ShThrew | ShTable(rows: Option<seq<seq<string>>>)

  function Field(row: seq<string>, i: nat): Option<string> { if i < |row| then Some(row[i]) else None }

  function FieldValue(row: seq<string>, i: nat): JsValue { if i < |row| then Str(row[i]) else Undefined }

  /** `shScrapeData`'s result before saving: row 1, columns 0 to 3, when there are more than one row. */
  function ShShape(page: ShPage): Option<StockEntry> {
    if page.ShTable? && page.rows.Some? && |page.rows.value| > 1 then
      var row := page.rows.value[1];
      Some(StockEntry(Field(row, 0), FieldValue(row, 1), FieldValue(row, 2), Field(row, 3), None))
    else None
  }

  /**
   * What the Shenzhen report yields: the request throws, the reply has no record
   * (an empty array, or a falsy `data`), or the first record's link HTML, the
   * size column's caption and its size text.
   */
  datatype SzReply = SzThrew | SzNoData | SzRecord(kzjcurl: string, caption: string, dqgm: string)

  predicate IsQuote(c: char) { c == '\'' || c == '"' }

  /** The first quote at or after `j`, or `|s|`. */
  function QuoteFrom(s: string, j: nat): (r: nat)
    requires j <= |s|
    decreases |s| - j
    ensures j <= r <= |s| && (r < |s| ==> IsQuote(s[r])) && forall k :: j <= k < r ==> !IsQuote(s[k])
  {
    if j == |s| || IsQuote(s[j]) then j else QuoteFrom(s, j + 1)
  }

  /** `href=['"]([^'"]+)['"]` matched at `i`: the captured link. */
  function HrefAt(s: string, i: nat): Option<string> {
    if StartsAt(s, "href=", i) && i + 5 < |s| && IsQuote(s[i + 5]) then
      var end := QuoteFrom(s, i + 6);
      if end < |s| && end > i + 6 then Some(s[i + 6..end]) else None
    else None
  }

  /** The leftmost match of the link pattern at or after `i`. */
  function FirstHref(s: string, i: nat): (r: Option<string>)
    decreases |s| - i
    ensures r.None? ==> forall j :: i <= j ==> HrefAt(s, j).None?
    ensures r.Some? ==> exists j :: i <= j < |s| && HrefAt(s, j) == r
                                     && forall j' :: i <= j' < j ==> HrefAt(s, j').None?
  {
    if i >= |s| then
      assert forall j :: i <= j ==> !StartsAt(s, "href=", j);
      None
    else if HrefAt(s, i).Some? then HrefAt(s, i) else FirstHref(s, i + 1)
  }

  /** `\d{4}-\d{2}-\d{2}` at `i`. */
  predicate DateAt(s: string, i: nat) {
    i + 10 <= |s| && AllDigits(s[i..i + 4]) && s[i + 4] == '-' && AllDigits(s[i + 5..i + 7])
    && s[i + 7] == '-' && AllDigits(s[i + 8..i + 10])
  }

  /** The leftmost date at or after `i`. */
  function FirstDate(s: string, i: nat): (r: Option<string>)
    decreases |s| - i
    ensures r.None? ==> forall j :: i <= j ==> !DateAt(s, j)
    ensures r.Some? ==> exists j :: (i <= j && DateAt(s, j) && r.value == s[j..j + 10]
                                     && forall k :: i <= k < j ==> !DateAt(s, k))
  {
    if i + 10 > |s| then None
    else if DateAt(s, i) then Some(s[i..i + 10])
    else FirstDate(s, i + 1)
  }

  predicate SizeChar(c: char) { IsDigit(c) || c == '.' || c == '-' }

  /** `replace(/[^\d.-]/g, '')`. */
  function KeepSizeChars(s: string): (r: string)
    ensures forall k :: 0 <= k < |r| ==> SizeChar(r[k])
    ensures |r| <= |s|
  {
    if |s| == 0 then "" else (if SizeChar(s[0]) then [s[0]] else "") + KeepSizeChars(s[1..])
  }

  /**
   * `szScrapeData`'s result before saving. A missing link, a link `new URL`
   * rejects, or a caption without a date throws, which gives `null`.
   */
  function SzShape(reply: SzReply, query: string -> Option<map<string, string>>): Option<StockEntry> {
    if !reply.SzRecord? then None
    else
      var href := FirstHref(reply.kzjcurl, 0);
      var date := FirstDate(reply.caption, 0);
      if href.None? || query(href.value).None? || date.None? then None
      else
        var params := query(href.value).value;
        Some(StockEntry(date, if "stock" in params then Str(params["stock"]) else Null,
                        if "name" in params then Str(params["name"]) else Null,
                        Some(KeepSizeChars(reply.dqgm)), None))
  }

  // ---- processAllStocks ----

  /** What the two exchanges answer for each code. */
  datatype Sites = Sites(sh: string -> ShPage, sz: string -> SzReply, query: string -> Option<map<string, string>>)

  /** The scraper a code goes to: '1' is Shenzhen, '5' Shanghai, anything else none. */
  function Shape(code: string, sites: Sites): Option<StockEntry> {
    if StartsWith(code, "1") then SzShape(sites.sz(code), sites.query)
    else if StartsWith(code, "5") then ShShape(sites.sh(code))
    else None
  }

  /** One code's turn: the files after it and the result it adds, if any. */
  function StepSpec(files: map<string, StockFile>, code: string, sites: Sites, now: string, dayOf: string -> string)
    : (map<string, StockFile>, Option<StockEntry>)
  {
    if !ShouldScrape(files, code, now, dayOf) then (files, None)
    else
      var shaped := Shape(code, sites);
      if shaped.None? then (files, None)
      else (SaveSpec(files, shaped.value, now), Some(shaped.value.(scrapeTime := Some(now))))
  }

  /** The whole run over the first `n` codes: the files it leaves and the results it returns. */
  function RunSpec(files: map<string, StockFile>, codes: seq<string>, n: nat, sites: Sites, now: string, dayOf: string -> string)
    : (map<string, StockFile>, seq<StockEntry>)
    requires n <= |codes|
  {
    if n == 0 then (files, [])
    else
      var before := RunSpec(files, codes, n - 1, sites, now, dayOf);
      var step := StepSpec(before.0, codes[n - 1], sites, now, dayOf);
      (step.0, before.1 + (if step.1.Some? then [step.1.value] else []))
  }

  /** One more code: the run so far, then that code's step. */
  lemma RunSpecStep(files: map<string, StockFile>, codes: seq<string>, n: nat, sites: Sites, now: string, dayOf: string -> string)
    requires n < |codes|
    ensures var before := RunSpec(files, codes, n, sites, now, dayOf);
      var step := StepSpec(before.0, codes[n], sites, now, dayOf);
      RunSpec(files, codes, n + 1, sites, now, dayOf) == (step.0, before.1 + (if step.1.Some? then [step.1.value] else []))
  {
  }

  class StockScraper {
    var files: map<string, StockFile>

    constructor(existing: map<string, StockFile>)
      ensures files == existing
    {
      files := existing;
    }

    /** `saveToFile`: the entry is stamped, upserted in place and the list cut to 20. */
    method SaveToFile(data: StockEntry, now: string) returns (stamped: StockEntry)
      modifies this
      ensures files == SaveSpec(old(files), data, now)
      ensures stamped == data.(scrapeTime := Some(now))
    {
      var fileName := StockPath(data.stock);
      stamped := data.(scrapeTime := Some(now));
      if fileName in files && files[fileName].Unreadable? {
        return;
      }
      var existing := if fileName in files then files[fileName].list else [];
      var existingIndex := -1;
      var i := 0;
      while i < |existing|
        invariant 0 <= i <= |existing|
        invariant FindDate(existing, stamped.date, 0) == (if existingIndex >= 0 then existingIndex else FindDate(existing, stamped.date, i))
        invariant existingIndex == -1 || (0 <= existingIndex < |existing| && existingIndex < i)
      {
        if existingIndex == -1 && existing[i].date == stamped.date {
          existingIndex := i;
        }
        i := i + 1;
      }
      if existingIndex != -1 {
        existing := existing[existingIndex := stamped];
      } else {
        existing := [stamped] + existing;
      }
      if |existing| > MaxEntries {
        existing := existing[..MaxEntries];
      }
      files := files[fileName := Entries(existing)];
    }

    /** One code of `processAllStocks`. */
    method ProcessStock(code: string, sites: Sites, now: string, dayOf: string -> string) returns (result: Option<StockEntry>)
      modifies this
      ensures files == StepSpec(old(files), code, sites, now, dayOf).0
      ensures result == StepSpec(old(files), code, sites, now, dayOf).1
    {
      if !ShouldScrape(files, code, now, dayOf) {
        return None;
      }
      var shaped := Shape(code, sites);
      if shaped.None? {
        return None;
      }
      var stamped := SaveToFile(shaped.value, now);
      result := Some(stamped);
    }

    method ProcessAllStocks(codes: seq<string>, sites: Sites, now: string, dayOf: string -> string) returns (results: seq<StockEntry>)
      modifies this
      ensures files == RunSpec(old(files), codes, |codes|, sites, now, dayOf).0
      ensures results == RunSpec(old(files), codes, |codes|, sites, now, dayOf).1
    {
      results := [];
      var i := 0;
      while i < |codes|
        invariant 0 <= i <= |codes|
        invariant files == RunSpec(old(files), codes, i, sites, now, dayOf).0
        invariant results == RunSpec(old(files), codes, i, sites, now, dayOf).1
      {
        RunSpecStep(old(files), codes, i, sites, now, dayOf);
        var r := ProcessStock(codes[i], sites, now, dayOf);
        if r.Some? {
          results := results + [r.value];
        }
        i := i + 1;
      }
    }
  }

  // ---- properties ----

  /** The stored list never exceeds 20 entries, and keeps the new entry unless it replaces one beyond the first 20. */
  lemma UpsertBounded(list: seq<StockEntry>, e: StockEntry)
    ensures |Upsert(list, e)| <= MaxEntries
    ensures |Upsert(list, e)| == if |list| < MaxEntries && FindDate(list, e.date, 0) == -1 then |list| + 1
                                 else if |list| < MaxEntries then |list| else MaxEntries
  {
  }

  /** A new date goes in front and the older entries move down one place, the 20th falling off. */
  lemma UpsertPrepends(list: seq<StockEntry>, e: StockEntry)
    requires forall k :: 0 <= k < |list| ==> list[k].date != e.date
    ensures Upsert(list, e)[0] == e
    ensures forall k :: 0 <= k < |list| && k + 1 < MaxEntries ==> Upsert(list, e)[k + 1] == list[k]
  {
    assert FindDate(list, e.date, 0) == -1;
  }

  /** A known date is replaced where it stands; every other kept entry is untouched. */
  lemma UpsertReplaces(list: seq<StockEntry>, e: StockEntry, k: nat)
    requires k < |list| && list[k].date == e.date && forall j :: 0 <= j < k ==> list[j].date != e.date
    requires k < MaxEntries
    ensures Upsert(list, e)[k] == e
    ensures forall j :: 0 <= j < |Upsert(list, e)| && j != k ==> Upsert(list, e)[j] == list[j]
  {
    assert FindDate(list, e.date, 0) == k;
  }

  predicate DistinctDates(list: seq<StockEntry>) {
    forall i, j :: 0 <= i < j < |list| ==> list[i].date != list[j].date
  }

  /** Upserting keeps the dates of a history distinct. */
  lemma UpsertKeepsDatesDistinct(list: seq<StockEntry>, e: StockEntry)
    requires DistinctDates(list)
    ensures DistinctDates(Upsert(list, e))
  {
    var idx := FindDate(list, e.date, 0);
    var updated := if idx >= 0 then list[idx := e] else [e] + list;
    assert DistinctDates(updated) by {
      if idx < 0 {
        forall i, j | 0 <= i < j < |updated|
          ensures updated[i].date != updated[j].date
        {
          if i > 0 {
            assert updated[i] == list[i - 1] && updated[j] == list[j - 1];
          }
        }
      }
    }
  }

  /** Saving the same entry twice in a short history leaves the file as one save does. */
  lemma UpsertIdempotent(list: seq<StockEntry>, e: StockEntry)
    requires |list| <= MaxEntries
    ensures Upsert(Upsert(list, e), e) == Upsert(list, e)
  {
    var once := Upsert(list, e);
    var idx := FindDate(list, e.date, 0);
    if idx >= 0 {
      assert once == list[idx := e];
      assert FindDate(once, e.date, 0) == idx by {
        assert once[idx].date == e.date;
        assert forall k :: 0 <= k < idx ==> once[k] == list[k];
      }
    } else {
      assert once[0] == e;
      assert FindDate(once, e.date, 0) == 0;
    }
  }

  /** `shouldScrapeStock` is false exactly when the newest entry of the file carries today's date. */
  lemma ShouldScrapeIff(files: map<string, StockFile>, code: string, now: string, dayOf: string -> string)
    ensures !ShouldScrape(files, code, now, dayOf) <==>
      var path := StockPath(Str(code));
      path in files && files[path].Entries? && |files[path].list| > 0
      && files[path].list[0].scrapeTime.Some? && dayOf(files[path].list[0].scrapeTime.value) == dayOf(now)
  {
  }

  /** A save that puts its entry in front marks the stock as scraped today. */
  lemma SaveMarksScrapedToday(files: map<string, StockFile>, data: StockEntry, code: string, now: string, dayOf: string -> string)
    requires data.stock == Str(code)
    requires !(StockPath(data.stock) in files && files[StockPath(data.stock)].Unreadable?)
    requires var path := StockPath(data.stock);
      path !in files || FindDate(files[path].list, data.date, 0) <= 0
    ensures !ShouldScrape(SaveSpec(files, data, now), code, now, dayOf)
  {
  }

  /** Codes of neither exchange, and codes already scraped today, add no result and touch no file. */
  lemma SkippedCodes(files: map<string, StockFile>, code: string, sites: Sites, now: string, dayOf: string -> string)
    requires !ShouldScrape(files, code, now, dayOf) || !(StartsWith(code, "1") || StartsWith(code, "5"))
    ensures StepSpec(files, code, sites, now, dayOf) == (files, None)
  {
  }

  /** A Shanghai table of one row or none gives no result; otherwise row 1 supplies all four fields. */
  lemma ShNeedsTwoRows(rows: seq<seq<string>>)
    ensures ShShape(ShTable(Some(rows))).Some? <==> |rows| > 1
    ensures |rows| > 1 && |rows[1]| >= 4 ==>
      (ShShape(ShTable(Some(rows))).value
       == StockEntry(Some(rows[1][0]), Str(rows[1][1]), Str(rows[1][2]), Some(rows[1][3]), None))
    ensures |rows| > 1 && |rows[1]| < 2 ==>
      StockPath(ShShape(ShTable(Some(rows))).value.stock) == "data/undefined_data.json"
  {
    UndefinedPath();
  }

  lemma UndefinedPath()
    ensures StockPath(Undefined) == "data/undefined_data.json"
  {
  }

  lemma NullPath()
    ensures StockPath(Null) == "data/null_data.json"
  {
  }

  /** A Shenzhen link without a `stock` parameter is saved under the code `null`. */
  lemma SzWithoutStockIsNull(reply: SzReply, query: string -> Option<map<string, string>>)
    requires reply.SzRecord? && FirstHref(reply.kzjcurl, 0).Some? && FirstDate(reply.caption, 0).Some?
    requires query(FirstHref(reply.kzjcurl, 0).value).Some?
    requires "stock" !in query(FirstHref(reply.kzjcurl, 0).value).value
    ensures SzShape(reply, query).Some? && SzShape(reply, query).value.stock == Null
    ensures StockPath(SzShape(reply, query).value.stock) == "data/null_data.json"
  {
    NullPath();
  }

  /** The size filter keeps exactly the digits, dots and minus signs, in order: filtering twice changes nothing. */
  lemma {:induction false} KeepSizeCharsIdempotent(s: string)
    ensures KeepSizeChars(KeepSizeChars(s)) == KeepSizeChars(s)
  {
    if |s| > 0 {
      KeepSizeCharsIdempotent(s[1..]);
      KeepAllowed(KeepSizeChars(s));
    }
  }

  /** A text of size characters only passes the filter unchanged. */
  lemma {:induction false} KeepAllowed(s: string)
    requires forall k :: 0 <= k < |s| ==> SizeChar(s[k])
    ensures KeepSizeChars(s) == s
  {
    if |s| > 0 {
      KeepAllowed(s[1..]);
    }
  }

  /** The filter drops exactly the characters that are not size characters. */
  lemma {:induction false} KeepSizeCharsCounts(s: string, c: char)
    ensures CountChar(KeepSizeChars(s), c) == if SizeChar(c) then CountChar(s, c) else 0
  {
    if |s| > 0 {
      KeepSizeCharsCounts(s[1..], c);
      CountCharAppend(if SizeChar(s[0]) then [s[0]] else "", KeepSizeChars(s[1..]), c);
      if SizeChar(s[0]) {
        assert [s[0]][1..] == "";
      }
    }
  }

  /** Each result of the run was stamped with the run's time. */
  lemma {:induction false} ResultsStamped(files: map<string, StockFile>, codes: seq<string>, n: nat, sites: Sites, now: string, dayOf: string -> string)
    requires n <= |codes|
    ensures var out := RunSpec(files, codes, n, sites, now, dayOf).1;
      |out| <= n && forall k :: 0 <= k < |out| ==> out[k].scrapeTime == Some(now)
  {
    if n > 0 {
      ResultsStamped(files, codes, n - 1, sites, now, dayOf);
    }
  }
}
