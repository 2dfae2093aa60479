# etf-data-scrape, modelled in Dafny

This project models the decision logic of a set of Node.js scrapers that collect
fund and index data: dividend yields, P/E ratios, fund sizes and index returns.
It proves properties of that logic. The browser, HTTP, spreadsheet, PDF and
file-system calls become inputs. What remains is plain sequential logic over
strings, sheet rows, lists and maps, and that logic is modelled directly.

## Groups

**Value extraction.**
- The HSI scrapers pull a number out of a sheet row (`NumericValue`).
- They pick the dividend and P/E rows out of a downloaded sheet (`FundamentalsSheet`).
- They run a three-stage cascade over a fundamentals page (`PageCascade`). The stages are:
  1. element texts;
  2. table rows;
  3. keyword search in the page text, then a positional fallback.
- The CSI fetchers find sheet columns through their headers (`CsIndexFetcher`, `EtfPeDp`).
- The S&P reader scans a factsheet's text for the numbers after a fixed header (`SpPdf`).

**Retry and polling.**
- The CSI fetcher retries every failure with exponential backoff and fetches lists in consecutive batches (`CsIndexFetcher`).
- The index scraper makes up to five extraction attempts (`HsiAttempts`).
- The fundamentals scraper has a `smartWait` loop and a content poll (`Polling`).

**Login.**
- The form controls are found by first-match selector probing.
- Success is judged from the URL after submission.
- A navigation timeout that leaves the browser on a plausible URL is tolerated.

These are modelled in `LoginFlow`. The session check that logs in again when a session has expired is in `HsiIndex`.

**Daily caching and orchestration.**
- The HSI summary run (`HsiIndex`).
- The ETF batch processor (`EtfBatch`).
- The fund-size history with its 20-entry upsert (`StockHistory`).
- The index-return collector (`IndexReturns`).
- The index report and the static page built from the collector's output (`IndexReport`, `StaticHtml`).

**Display.** Size-change windows over a fund's date-sorted history, and the page's colour class for a change (`SizeChanges`).

## How the model is built

**Classes.** Objects whose fields the source updates in place are classes:
- `EtfBatch.EtfBatchProcessor`;
- `HsiIndex.HsiIndexScraper`;
- `StockHistory.StockScraper`;
- `IndexReturns.IndexReturnCollector`, for the module-level `allIndexData`;
- `IndexReport.IndexReportGenerator`.

A directory of files is a `map` field from path to contents. A file that does not parse as JSON is a constructor of its own.

**Loops.** A loop in the source is a method with a loop. Each such method is proved equal to a recursive specification function, and the properties are lemmas about that function.

**Environments.** Environments that answer repeatedly are oracles:
- a download per attempt, a page per index, a condition per check;
- these are functions from the position (`nat`) to the answer.

The following are parameters:
- the clock (`today`, `now`);
- `Math.random()` draws, as reals in [0, 1);
- `JSON.stringify`;
- the rendering of numbers;
- the HTML template.

Waiting is recorded as the sequence of delays asked for.

**Numbers.** `parseFloat` of a matched token is its exact rational value (`real`).

**Shared code.** Several files contain the same code twice:
- `extractNumericValue`, `extractFundamentalsFromSheet`, `findLoginElements`, `smartWait` and `continueLoginAfterTimeout` appear in both HSI scrapers;
- `loadIndexList`, `getIndexName`, the settled-promise partition, `generateTableRows` and `generateHTML` appear in `cs-index-report-generate.js` and `generate-static-html.js`.

Each is modelled once. The rows below cite one copy:
- the other HSI copies are at hsi-index-scraper.js:157-257, 833-869 and 934-955, and hsi-fundamentals-scraper.js:709-749 and 795-835;
- the other report copies are at generate-static-html.js:19-44, 69-77, 90-92, 95-108 and 122-142.

The page cascade differs between the two scrapers. `PageCascade.Variant` models both versions:
- the fundamentals scraper has no table stage;
- it has shorter placeholder lists;
- it takes its fallback text from the first fundamentals container.

## Behaviour worth noting

- **Retries.** `getETFData` retries every error, whatever its kind, and never caps the backoff delay (cs-index-fetcher.js:63-73).
- **Report data directory.** `cs-index-report-generate.js` looks for the collector's output under `index-data/` (lines 11-13). The collector writes to `index-return/` (cs-index-return-fetcher.js:6). See Findings.
- **Report entry point.** `main` in `cs-index-report-generate.js` calls `generateReport`, which is not defined (line 280). The model's entry point is `generateIndexReport`, the function evidently meant.
- **Extra result on a throwing delay.** In `getAllHsidata`, the 3000 ms pause after an index sits inside the same `try` as the fetch. If that pause throws, the entry gets a second result (hsi-index-scraper.js:1171-1218). So `results.length` equals the number of mapping entries plus the number of pauses that threw. The two are equal only when no pause throws.
- **Login timeout.** After a `TimeoutError` on login, the scraper calls `continueLoginAfterTimeout` when the current URL is non-empty and lacks "error" (hsi-index-scraper.js:130-154). That function fills in and submits the form once more.

## Model

| member | source | states |
|---|---|---|
| NumericValue.ExtractNumericValueFirstCell | hsi-index-scraper.js:871-911 | The row reads as `null` iff no cell reads as a number. Otherwise the result is the number of the first cell that does, and every earlier cell reads as nothing. |
| NumericValue.PlainDigitsValue | hsi-index-scraper.js:871-911 | A cell made only of digits reads as its decimal value. |
| NumericValue.UnitSuffixScales | hsi-index-scraper.js:871-911 | Digits followed by 万亿, 千亿, 亿, 万 or 千 read as the number times 10^12, 10^11, 10^8, 10^4 or 10^3. |
| NumericValue.UnitNumberOfSuffix | hsi-index-scraper.js:871-911 | The unit rule alone gives the scaled value for digits followed by a unit. |
| NumericValue.NoSuffixUnit | hsi-index-scraper.js:871-911 | Digits followed by a unit contain no percentage or 倍 match, so the earlier rules pass the cell over. |
| NumericValue.SuffixedNumberValue | hsi-index-scraper.js:877-888 | Any number, decimals included, followed by optional white space and '%' or '倍' reads as that number. |
| NumericValue.DecimalPercent | hsi-index-scraper.js:877-882 | "12.5%" reads as 12.5. |
| NumericValue.PercentBeatsTimes | hsi-index-scraper.js:877-888 | A percentage wins over a multiple written before it: digits, '倍', then a number and '%' read as the percentage. |
| NumericValue.SuffixSkip | hsi-index-scraper.js:878 | The leftmost-match search passes over every position where the pattern does not match. |
| FundamentalsSheet.ExtractFundamentalsFromSheet | hsi-fundamentals-scraper.js:671-707 | The row loop computes the scan function `SheetResult` (non-array rows skipped, lower-cased joined text matched). |
| FundamentalsSheet.DividendLastWins | hsi-fundamentals-scraper.js:671-707 | `dividendYield` is null iff no row matched a dividend keyword with a number. Otherwise it is the value of the last such row. |
| FundamentalsSheet.PeLastWins | hsi-fundamentals-scraper.js:671-707 | The same for `peRatio`: the last matching P/E row wins. |
| FundamentalsSheet.FoundRowsInOrder | hsi-fundamentals-scraper.js:671-707 | `foundRows` lists only rows that matched, with their own cells. The order is by row, and within a row the dividend match comes before the P/E match, so nothing is listed twice. |
| FundamentalsSheet.FoundRowsComplete | hsi-fundamentals-scraper.js:671-707 | Every metric a row contributes is listed. The list is exactly as long as the number of contributions. |
| FundamentalsSheet.SheetResultNullIff | hsi-fundamentals-scraper.js:671-707 | `foundRows` is empty, and the function returns null, iff no row matched either keyword. |
| FundamentalsSheet.ReadingOfRow | hsi-fundamentals-scraper.js:671-707 | A non-array row reads nothing. A value is read only from a row whose lower-cased text mentions the keyword, and it is that row's `extractNumericValue`. |
| PageCascade.ExtractFundamentalsFromPage | hsi-index-scraper.js:523-663 | The cascade's steps compute `CascadeResult`: the fields of the three stages, or null when `foundData` is empty. |
| PageCascade.ScanElements | hsi-index-scraper.js:538-573 | The element loop stops at the first element past the placeholders that holds a number. |
| PageCascade.ScanTables | hsi-index-scraper.js:575-606 | The table loop visits every row of every table in order. |
| PageCascade.FirstElementNumberIsFirst | hsi-index-scraper.js:538-573 | Stage 1 finds nothing iff every element is a placeholder or holds no number. Otherwise it takes the first number of the first element that is neither. |
| PageCascade.PlaceholdersHaveNoNumber | hsi-index-scraper.js:544-563 | No placeholder text ('周息率', '市盈率 (倍)', '市盈率', '', '-') holds a digit. |
| PageCascade.DigitFreeSkipsAreRedundant | hsi-fundamentals-scraper.js:410-429 | Skipping digit-free texts changes nothing: stage 1 acts as if there were no skip list. |
| PageCascade.ElementStageSameInBothScrapers | hsi-fundamentals-scraper.js:410-429 | Despite the different skip lists, stage 1 gives the same fields in both scrapers. |
| PageCascade.KeywordFillOnlyFills | hsi-index-scraper.js:608-644 | A keyword search fills only its own field, and only when that field is missing. It never overwrites a truthy value. |
| PageCascade.RowStepKeeps | hsi-index-scraper.js:575-606 | One table row keeps every truthy field and only appends to `foundData`. |
| PageCascade.TableStageKeeps | hsi-index-scraper.js:575-606 | The whole table stage keeps every truthy field and only appends to `foundData`. |
| PageCascade.PositionalFillNeedsTwoNumbers | hsi-index-scraper.js:631-643 | With fewer than two numbers in the text nothing changes. Otherwise a missing dividend yield takes the first number and a missing P/E the second. |
| PageCascade.TextStageKeeps | hsi-index-scraper.js:608-644 | The text stage keeps every truthy field. |
| PageCascade.CascadeKeepsElementStage | hsi-index-scraper.js:538-644 | Later stages never undo what stage 1 found. |
| PageCascade.ElementStageSuffices | hsi-index-scraper.js:575-644 | When stage 1 finds both fields truthy, the rest of the cascade changes nothing. |
| HsiAttempts.ExtractFundamentalsData | hsi-index-scraper.js:398-521 | The attempt loop computes `ExtractSpec`: at most five attempts, stopping at the first with non-empty `foundData`. |
| HsiAttempts.AttemptsFromFacts | hsi-index-scraper.js:406-463 | The loop makes between one and five attempts, all failing before the last. A success is the last attempt's result, and a failure uses all five. |
| HsiAttempts.ExtractSucceedsIff | hsi-index-scraper.js:406-505 | The extraction succeeds iff some one of the five attempts finds data. `attempts` then counts up to the first such attempt, and a failure reports five. |
| HsiAttempts.FoundDataNonEmpty | hsi-index-scraper.js:406-505 | A success always carries a non-empty `foundData`. |
| HsiAttempts.GetSingleIndexFundamentals | hsi-index-scraper.js:1265-1334 | The result records whether the visit went through, and the extraction runs whatever the visit gave. |
| LoginFlow.ProbeSelectors | hsi-fundamentals-scraper.js:195-241 | The selector loop returns the handle of the first selector that finds an element. |
| LoginFlow.FindLoginElements | hsi-fundamentals-scraper.js:144-244 | The three scans and the button fallback compute `FindSpec`. |
| LoginFlow.FirstMatchIsFirst | hsi-fundamentals-scraper.js:195-241 | A scan finds nothing iff every selector misses or throws. Otherwise it finds the element of the first selector that hits. |
| LoginFlow.SubmitFallback | hsi-fundamentals-scraper.js:195-241 | The generic-button fallback is used only when no submit selector hits. It takes the first button, or none, and a throwing button query rejects. |
| LoginFlow.SubmitLoginFormIff | hsi-index-scraper.js:278-300 | Submission succeeds iff there is a control, the navigation completes, and "login" occurs nowhere in the new URL. |
| LoginFlow.LoggedInMeans | hsi-index-scraper.js:87-155 | A pass logs in only after finding both credential fields and a submit control, and navigating off the login page. |
| LoginFlow.TimeoutTolerance | hsi-index-scraper.js:130-154 | After a thrown first pass, `login` can succeed only if the error was a `TimeoutError` and the current URL is non-empty and lacks "error". |
| LoginFlow.OtherErrorsFail | hsi-index-scraper.js:130-154 | Any first pass that fails other than by timing out makes `login` false, whatever a retry would do. |
| LoginFlow.LoginSucceedsOffLoginPage | hsi-index-scraper.js:87-155 | A successful login has a pass, first or retry, that navigated to a URL without "login". |
| Polling.SmartWait | hsi-fundamentals-scraper.js:772-793 | The loop returns `SmartWaitSpec`'s verdict and asks for one `interval` wait per check. |
| Polling.WaitSucceedsAtFirstHold | hsi-fundamentals-scraper.js:772-793 | The wait succeeds at the first check whose condition holds, and a throwing check counts as false. |
| Polling.WaitBound | hsi-fundamentals-scraper.js:772-793 | The checks number at most ceil(remaining budget / interval), and exactly that many on failure. |
| Polling.SmartWaitChecks | hsi-fundamentals-scraper.js:772-793 | At most ceil(maxWait / interval) checks are made. The wait fails iff no check among them holds. |
| Polling.NavigateToFundamentals | hsi-fundamentals-scraper.js:289-351 | The method returns `NavigateSpec` and asks for one 1000 ms wait per poll. |
| Polling.PollBounded | hsi-fundamentals-scraper.js:298-326 | There are at most 15 polls, stopping at the first keyword or error. Every poll before the last saw content without a keyword. |
| Polling.NavigateResult | hsi-fundamentals-scraper.js:289-351 | A completed load succeeds unless a content read throws. A load that throws succeeds iff it was a `TimeoutError` on a URL containing "fundamentals". |
| HsiIndex.ProcessEntries | hsi-index-scraper.js:1168-1218 | The mapping loop's result list is `ResultsUpTo` over all entries. |
| HsiIndex.HsiIndexScraper.EnsureSession | hsi-index-scraper.js:1087-1166 | The error and browser state after initialising or probing the session are `SessionSpec`'s. |
| HsiIndex.HsiIndexScraper.GetAllHsidata | hsi-index-scraper.js:1006-1263 | The reply, the files and the browser state after a run are those of `GetAllSpec`. |
| HsiIndex.CacheHitIsReturnedUnchanged | hsi-index-scraper.js:1014-1049 | A readable summary for today is returned with `fromCache` set, and nothing else is touched. |
| HsiIndex.UnusableCacheFallsThrough | hsi-index-scraper.js:1014-1049 | A summary that does not parse, or has no results, acts as if it were absent. |
| HsiIndex.FreshRunIgnoresFiles | hsi-index-scraper.js:1053-1253 | A fresh run's reply and browser state do not depend on the files. Only the summary it writes does. |
| HsiIndex.MissingCredentialsStop | hsi-index-scraper.js:1053-1084 | Without a cache and without both credentials, the run stops with the credentials error, and the browser and files are untouched. |
| HsiIndex.SessionPassesOnlyWhenLoggedIn | hsi-index-scraper.js:1087-1166 | The session step passes only with a browser, and only after a successful login unless the open session was still valid. |
| HsiIndex.ResultsCount | hsi-index-scraper.js:1168-1218 | Every entry yields one result, plus a second one for each entry whose between-index pause threw. |
| HsiIndex.ResultsFollowMapping | hsi-index-scraper.js:1168-1218 | When no pause throws, result `k` carries entry `k`'s codes and fetched data, in mapping order. |
| HsiIndex.CountsAddUp | hsi-index-scraper.js:1220-1225 | `successfulIndexes + failedIndexes` equals the number of results. |
| HsiIndex.FreshSummaryCounts | hsi-index-scraper.js:1220-1229 | In a fresh summary, successes plus failures equal the results. `totalIndexes` is the mapping size. |
| HsiIndex.SingleEntrySingleResult | hsi-index-scraper.js:1196-1201 | A one-entry mapping takes no pause, so its summary holds exactly one result. |
| HsiIndex.FreshRunIsCachedNextTime | hsi-index-scraper.js:1229-1253 | A fresh run stores its reply under today's name. The next run that day returns it from the cache without changing anything. |
| CsIndexFetcher.MakeConfig | cs-index-fetcher.js:5-10 | A missing or zero option falls back to 3 retries, a 2000 ms delay and a 1.5 multiplier. Any other value is kept. |
| CsIndexFetcher.GetETFData | cs-index-fetcher.js:17-84 | The retry loop computes the recursive `FetchSpec` and waits the delays `DelaysFrom` lists. |
| CsIndexFetcher.FetchFromFacts | cs-index-fetcher.js:63-82 | Every attempt before the last fails. A success reports its attempt number as `retryCount`. Exhaustion reports the last error and `retryCount = maxRetries`. |
| CsIndexFetcher.FetchBounds | cs-index-fetcher.js:63-82 | At most `maxRetries + 1` attempts are made, whatever the errors are. A failure means all of them failed. |
| CsIndexFetcher.DefaultSchedule | cs-index-fetcher.js:63-73 | With the default options, repeated failures wait 2000, 3000 and 4500 ms and then fail. |
| CsIndexFetcher.SheetShape | cs-index-fetcher.js:35-59 | A sheet with fewer than two rows fails the attempt. A missing column reads `null`, and a missing name reads 'N/A'. |
| CsIndexFetcher.FindHeaderIsFirst | cs-index-fetcher.js:43-56 | A header lookup takes the first column whose text contains the marker. |
| CsIndexFetcher.GetETFDataBatch | cs-index-fetcher.js:87-108 | There is one result per code, in code order. The inter-batch delays are those of `BatchDelaysFrom`. |
| CsIndexFetcher.BatchDelayCount | cs-index-fetcher.js:101-104 | There is one delay fewer than there are batches, so none after the last. |
| EtfPeDp.GetIndexInfo | etf-pe-dp-fetcher.js:17-76 | It succeeds iff the reply is JSON with `success`, and a non-empty `data`. It then maps `data[0]`. A non-OK status and an empty answer fail with their messages. |
| EtfPeDp.FindColumns | etf-pe-dp-fetcher.js:117-129 | The header loop returns the last PE column and the last DP column. |
| EtfPeDp.LastColumnIsLast | etf-pe-dp-fetcher.js:120-129 | The column found matches its test, and no later column does. Without one it is -1. |
| EtfPeDp.PeTakesPrecedence | etf-pe-dp-fetcher.js:120-129 | A column taken as PE is never also taken as DP. |
| EtfPeDp.SheetErrors | etf-pe-dp-fetcher.js:109-155 | An empty sheet and a sheet without a data row both fail, and every result carries the index code. |
| EtfPeDp.ColumnsReadSecondRow | etf-pe-dp-fetcher.js:138-147 | With a data row the value comes from the second row under the PE column. Without that column, the value and its name are `null`. |
| EtfPeDp.SearchFailureSkipsSheet | etf-pe-dp-fetcher.js:170-204 | A failed index lookup never reads the sheet and returns its error with the ETF code. |
| EtfPeDp.ResultCarriesCodes | etf-pe-dp-fetcher.js:170-204 | Every result carries the ETF code, and after a successful lookup the index code and name. It is combined iff both steps succeed. |
| EtfPeDp.GetMultipleETFPEAndDP | etf-pe-dp-fetcher.js:212-225 | There is one result per code, in order, each with a 1000 ms pause. |
| EtfBatch.EtfBatchProcessor.LoadTodayData | etf-fundamentals-batch.js:60-75 | A parsed file replaces `results` and `processedIndices`, defaulting to [] and the empty set. A file that does not parse changes nothing and returns false. |
| EtfBatch.EtfBatchProcessor.ProcessAllETFs | etf-fundamentals-batch.js:114-222 | The new state is `ProcessSpec` of the old one, and the files are unchanged. |
| EtfBatch.ConvertResult | etf-fundamentals-batch.js:171-203 | The `foundData` loop computes `ConvertSpec`. |
| EtfBatch.ConvertAllPointwise | etf-fundamentals-batch.js:171-203 | The conversion keeps one record per result, in order. |
| EtfBatch.LastOfKindIsLast | etf-fundamentals-batch.js:177-192 | A field is null iff no item has its kind. Otherwise it is the value of the last item of that kind. |
| EtfBatch.ErrorIffFailed | etf-fundamentals-batch.js:194-200 | A record has an error iff its result failed, and the error is never empty. |
| EtfBatch.ProcessedIsSuccessCodes | etf-fundamentals-batch.js:194-200 | `processedIndices` holds exactly the index codes of the successful results. |
| EtfBatch.CacheHitSkipsScraper | etf-fundamentals-batch.js:120-135 | When today's file exists and parses, the scraper is never created. Results default to []. |
| EtfBatch.AbortKeepsRecords | etf-fundamentals-batch.js:151-165 | An uninitialised scraper, a null reply, `success: false` or a missing results array keeps the held records. |
| EtfBatch.FreshRunConverts | etf-fundamentals-batch.js:171-203 | A usable reply gives one record per result, record `k` being the conversion of result `k`. |
| EtfBatch.EtfBatchProcessor.SaveResults | etf-fundamentals-batch.js:224-254 | Saving is create-if-absent. An existing file of today is returned untouched. Otherwise the JSON and the CSV are both written. |
| EtfBatch.CsvRowSingleLine | etf-fundamentals-batch.js:261-276 | A CSV row holds no line break when none of its seven fields does. |
| EtfBatch.CsvLineCount | etf-fundamentals-batch.js:256-282 | The CSV has the header line plus one line per record. |
| StockHistory.FindDate | scraper.js:138-148 | The `findIndex` on the date gives the first entry with that date, or -1 when there is none. |
| StockHistory.StockScraper.SaveToFile | scraper.js:123-163 | The file becomes `SaveSpec` of the old one, and the returned entry is the input stamped with `now`. |
| StockHistory.UpsertBounded | scraper.js:138-153 | A history never exceeds 20 entries. It grows by one only for a new date when under the cap. |
| StockHistory.UpsertPrepends | scraper.js:138-153 | A new date is put first and the old entries follow, shifted by one, up to the cap. |
| StockHistory.UpsertReplaces | scraper.js:138-153 | An entry with the same date is replaced at its index, and every other entry is untouched. |
| StockHistory.UpsertKeepsDatesDistinct | scraper.js:138-153 | Distinct dates stay distinct after an upsert. |
| StockHistory.UpsertIdempotent | scraper.js:138-153 | Saving the same entry twice leaves what saving it once left. |
| StockHistory.ShouldScrapeIff | scraper.js:297-321 | A stock is skipped iff its file parses, is non-empty, and its newest entry was scraped today. |
| StockHistory.SaveMarksScrapedToday | scraper.js:123-163 | After saving today's entry as the newest, the stock is no longer due for scraping today. |
| StockHistory.StockScraper.ProcessStock | scraper.js:23-55 | One code's step dispatches on its first digit and changes files and results as `StepSpec` says. A missing Shenzhen `stock` parameter is `null` and a short Shanghai row gives `undefined`, and each names its own file. |
| StockHistory.StockScraper.ProcessAllStocks | scraper.js:19-58 | The loop's files and results are `RunSpec` over all codes. |
| StockHistory.SkippedCodes | scraper.js:23-38 | A code that is due for no scrape, or starts with neither '1' nor '5', changes nothing and yields nothing. |
| StockHistory.ResultsStamped | scraper.js:40-55 | At most one result per code is appended, and every one carries the run's time stamp. |
| StockHistory.ShNeedsTwoRows | scraper.js:98-111 | The Shanghai page gives a result iff its table has more than one row. The result is date, stock, name and size from row 1, columns 0 to 3. A row without column 1 is saved to "data/undefined_data.json". |
| StockHistory.SzWithoutStockIsNull | scraper.js:203-207 | A Shenzhen link without a `stock` parameter gives the code `null`, and the entry is saved to "data/null_data.json". |
| StockHistory.FirstHref | scraper.js:193-195 | The leftmost `href='…'` or `href="…"` in the text is found: no earlier position starts one. There is none iff no position starts one. |
| StockHistory.FirstDate | scraper.js:199-201 | The first `dddd-dd-dd` in the text is taken. |
| StockHistory.KeepSizeCharsCounts | scraper.js:209 | The size keeps every digit, '.' and '-' of the text and drops every other character. |
| StockHistory.KeepSizeCharsIdempotent | scraper.js:209 | Cleaning a size twice gives what cleaning it once gives. |
| StockHistory.KeepAllowed | scraper.js:209 | A size made only of allowed characters is unchanged. |
| SizeChanges.SortNewestFirst | display.js:31 | The sorted copy is a permutation of the history. |
| SizeChanges.SortIsSorted | display.js:31 | The sorted copy is ordered newest first. |
| SizeChanges.ReportNeedsTwoEntries | display.js:27-29 | A report exists iff the history file parses and has at least two entries. |
| SizeChanges.WindowsByLength | display.js:33-68 | The 3-, 5-, 10- and 30-entry windows exist iff the history has at least 4, 6, 11 and 31 entries. Each window, and the one-day change, is the newest size minus the size 3, 5, 10, 30 or 1 places older in date order, dated by the newest entry. |
| SizeChanges.WindowDateIsNewest | display.js:33-68 | Every window is dated by an entry of the history at least as new as all others. |
| SizeChanges.GetChangeClass | display.js:91-94 | 'N/A' has no class, a positive change is 'negative', and any other change is 'positive'. |
| SpPdf.BaseMatch | sp-pdf-metrics.js:31 | The header-and-window match exists iff the header '股息率 市净率 预期市盈率' occurs, with white space or nothing between its words. |
| SpPdf.ExtractMetrics | sp-pdf-metrics.js:23-51 | The three metrics are either all found or all `null`. |
| SpPdf.MetricsIff | sp-pdf-metrics.js:33-44 | Metrics are found iff the header occurs and its window holds at least four tokens. They are then tokens 1, 2 and 3, with token 0 ignored. |
| SpPdf.WindowIsBounded | sp-pdf-metrics.js:31 | Only the leftmost header and at most 40 characters after it are examined. |
| SpPdf.SameWindowSameMetrics | sp-pdf-metrics.js:31 | Texts with the same window yield the same metrics. |
| SpPdf.SpaceAfterDecimalsOnlySpaces | sp-pdf-metrics.js:35 | The decimal spacing only inserts spaces, keeping every other character in order. |
| SpPdf.PadPercentOnlySpaces | sp-pdf-metrics.js:36 | Padding '%' only inserts spaces. |
| SpPdf.PadPercentWithoutPercent | sp-pdf-metrics.js:36 | A window without '%' is left as it is. |
| SpPdf.GluedNumbersSplit | sp-pdf-metrics.js:35-37 | The glued text "12.3445.67" yields the two tokens "12.34" and "45.67". |
| SpPdf.MatchShape | sp-pdf-metrics.js:37 | A token matched at a digit run is digits, a point and digits, or digits and '%'. |
| SpPdf.TokensShape | sp-pdf-metrics.js:37 | Every token of the scan, so every number the metrics are taken from, is a decimal number or a whole percentage. |
| SpPdf.ProcessAllETFs | sp-pdf-metrics.js:53-81 | There is one result per configured index, in order. |
| SpPdf.ErrorsOnlyOnFailure | sp-pdf-metrics.js:59-79 | A result records an error iff its download or parse failed, and it keeps the index's codes. |
| SpPdf.GetETFResultByStock | sp-pdf-metrics.js:84-86 | It returns a result for that code, and `undefined` iff there is none. |
| SpPdf.GetETFResultByStockIsFirst | sp-pdf-metrics.js:84-86 | The result found is the first one for that code. |
| IndexReturns.RandomDelayBounds | cs-index-return-fetcher.js:14-16 | With `min <= max` the delay is a whole number in [min, max]. |
| IndexReturns.RandomDelayCovers | cs-index-return-fetcher.js:14-16 | Every whole number in [min, max] is drawn by some random value. |
| IndexReturns.MapRow | cs-index-return-fetcher.js:97-110 | A record takes the trimmed cells 0 to 9, and a missing column 9 becomes ''. |
| IndexReturns.MapRowsCount | cs-index-return-fetcher.js:89-112 | Rows with fewer than nine cells are dropped and every other row is kept. The records are empty iff every row is short. |
| IndexReturns.MapRowsKeepsOrder | cs-index-return-fetcher.js:89-112 | The `j`-th long row gives the `j`-th record. |
| IndexReturns.IndexCodes | cs-index-return-fetcher.js:145 | No kept code is blank after trimming. |
| IndexReturns.IndexCodesOfRow | cs-index-return-fetcher.js:145 | A code is kept iff its `String()` is not blank. An absent cell gives the kept code 'undefined'. |
| IndexReturns.IndexReturnCollector.FetchIndexReturnData | cs-index-return-fetcher.js:18-133 | An index is appended, with its rows in table order, only if a row survives. A failed visit adds nothing. |
| IndexReturns.IndexReturnCollector.VisitAll | cs-index-return-fetcher.js:147-157 | Indices are visited in order, and a random pause follows every index but the last. |
| IndexReturns.IndexReturnCollector.RunAll | cs-index-return-fetcher.js:135-176 | The collection is written under today's name and under the default name. |
| IndexReturns.BetweenDelaysBounded | cs-index-return-fetcher.js:150-154 | Every pause lies between 5000 and 15000 ms, and pause `k` uses draw `k`. |
| IndexReturns.CollectedAllPerCode | cs-index-return-fetcher.js:116-132 | Each collected entry comes from one visited code, with that page's records, and is never empty. A failing index adds nothing. |
| IndexReport.ChooseIn | cs-index-report-generate.js:9-48 | Today's file is preferred, then the default file. Otherwise the collector runs, and the default file is used iff it then exists. |
| IndexReport.AsWrittenMissesCollectorOutput | cs-index-report-generate.js:11-13 | As written, the report looks in `index-data/`. It finds nothing even after a collector run that succeeded. |
| IndexReport.CorrectedFindsCollectorOutput | cs-index-report-generate.js:29-47 | Looking in `index-return/`, the report finds the collector's default file and reads back exactly what the collector wrote. |
| IndexReport.ReadReturns | cs-index-report-generate.js:51-66 | A non-empty read is the chosen file's parsed content. A parsed chosen file is always read in full. |
| IndexReport.LoadIndexList | cs-index-report-generate.js:69-94 | A missing sheet gives an empty mapping. Otherwise the loop computes `MappingOf` the rows. |
| IndexReport.MappingOf | cs-index-report-generate.js:79-86 | Every mapped name is truthy. |
| IndexReport.MappingLastWins | cs-index-report-generate.js:79-86 | A code is mapped iff some row has a truthy code and name for it. It maps to the name of the last such row. |
| IndexReport.GetIndexName | cs-index-report-generate.js:174-176 | A mapped code gives its name, and an unmapped code gives the code itself. |
| IndexReport.IndexNameFromSheet | cs-index-report-generate.js:174-176 | With no row naming the code the code is shown. Otherwise the last naming row's name is shown. |
| IndexReport.PeDpCodes | cs-index-report-generate.js:128-134 | Every PE/DP code is truthy. |
| IndexReport.PeDpCodesIff | cs-index-report-generate.js:128-134 | A cell is a code iff it is truthy and is the first cell of a row after the header. |
| IndexReport.Partition | cs-index-report-generate.js:145-153 | The partition loop computes `Successes` and `Failures`. |
| IndexReport.PartitionIff | cs-index-report-generate.js:145-153 | Successes and failures add up to the promises. A success is exactly a fulfilled `success: true` result. A failure pairs the code at the same index with the rejection reason or error. |
| IndexReport.PeDpOnlySuccesses | cs-index-report-generate.js:159-166 | Without a cache only successful results are returned. The cache is either untouched or holds exactly them. |
| IndexReport.PeDpCacheRoundTrip | cs-index-report-generate.js:112-123 | A second call on the same day returns what the first returned and stored, whatever it is then given. |
| IndexReport.ItemRows | cs-index-report-generate.js:179-192 | An item with no data gives no row, one data row gives one row, and more give exactly two. |
| IndexReport.RowsInItemOrder | cs-index-report-generate.js:179-192 | The rows of item `k` sit between those of the items before and after it. |
| IndexReport.ItemRowsText | cs-index-report-generate.js:179-192 | The rows are `data[0]` plain and, iff there is more data, `data[1]` in a `total-return` row. |
| IndexReport.GenerateTableRows | cs-index-report-generate.js:179-192 | The string the loop builds is the concatenation of every item's rows in order. |
| IndexReport.GenerateHtml | cs-index-report-generate.js:206-226 | The result is null iff the template is missing or empty. |
| IndexReport.HtmlWithoutMarks | cs-index-report-generate.js:218-223 | A template without placeholders comes back unchanged. |
| IndexReport.HtmlReplacesFirstTableMark | cs-index-report-generate.js:218-223 | Only the first table-rows placeholder is replaced, and the text around it is kept. The rows are inserted after `$`-pattern expansion (`$$`, `$&`, `` $` ``, `$'`), and as they are when they hold no '$'. |
| Text.SubstitutionWithoutDollar | cs-index-report-generate.js:219 | A replacement text without '$' is inserted as it is. |
| Text.SubstitutionPatterns | cs-index-report-generate.js:219 | In a replacement text, `$'` expands to the text after the match and `$$` to one '$'. |
| Text.SubstitutionAppend | cs-index-report-generate.js:219 | A '$'-free prefix of a replacement text is copied, and the rest expands on its own. |
| IndexReport.WrittenPage | cs-index-report-generate.js:251-254 | A page is written iff it was produced and is not the empty text. |
| IndexReport.BareTableMarkEmptyPage | cs-index-report-generate.js:251-254 | The template "{{TABLE_ROWS}}" with no rows produces the empty page, which is not written. |
| IndexReport.IndexReportGenerator.LoadJsonData | cs-index-report-generate.js:51-66 | The data is what the corrected file choice reads. Only the collector's run changes the files. |
| IndexReport.IndexReportGenerator.LoadPeDpData | cs-index-report-generate.js:97-171 | The data and the cache are those of `PeDpSpec`. |
| IndexReport.IndexReportGenerator.GenerateIndexReport | cs-index-report-generate.js:229-277 | No data means no report and no change. Otherwise the PE/DP cache is updated, and the filled template is written under today's name unless it is missing or empty. |
| StaticHtml.LoadJsonData | generate-static-html.js:7-16 | The data is the default file's parsed content, or [] when the file is absent or does not parse. |
| StaticHtml.ReadsCollectorOutput | generate-static-html.js:7-16 | After a collector run the page reads back exactly the collection written. |
| StaticHtml.LoadPeDpData | generate-static-html.js:47-87 | A missing sheet gives []. Otherwise only the successful results are kept, in order. |
| StaticHtml.GenerateStaticPage | generate-static-html.js:145-179 | The written page is `StaticPage` of the files and inputs. |
| StaticHtml.PageNeedsDataAndTemplate | generate-static-html.js:145-179 | A page is written iff the default file parses to non-empty data, the template is non-empty and the filled page is not empty. |
| StaticHtml.EmptyPageIsNotWritten | generate-static-html.js:167-170 | Indexes without records in a template that is only "{{TABLE_ROWS}}" give the empty page, and nothing is written. |

## Left out

- **Browser plumbing.** Puppeteer is out: launch, request interception, screenshots, `savePageContent`, `fillCredentials` typing, the blob download over CDP, and `page.goto`/`waitForSelector`. The page is an oracle that answers selector queries, element texts, row texts, body text, URLs and thrown errors.
- **Foreign libraries.** XLSX, pdf-parse, node-fetch and axios are out. Their outputs are inputs: 2-D cell arrays, extracted text, and status-and-JSON replies.
- **Files.** The file system is a map from path to parsed contents, and a file that does not parse is a constructor of its own. `mkdir` calls and output-directory creation are left out.
- **Clock and randomness.** `new Date()` is a parameter, and one clock reading stands for every reading in a run. `Math.random()` draws are parameters in [0, 1).
- **Timing.** `setTimeout` and `waitForTimeout` are only recorded as delays. A pause is assumed not to throw, except the HSI between-index pause, whose failure is modelled.
- **Concurrency.** `Promise.all` and `Promise.allSettled` are evaluated as sequential maps ordered by index. Each promise's settlement is an input.
- **PE/DP rejection values.** A `Rejected` settlement carries only its message.
- **Floating point.** `parseFloat` is the exact decimal value (`real`), with no IEEE rounding. `NaN` dates in the size-history sort are not modelled.
- **Locale formatting.** `toLocaleString` and `formatNumber` (display.js:83-89) are out. `JSON.stringify` and the CSV number rendering are parameters.
- **Reporting and drivers.** `generateHTML` and `writeHTML` of display.js are out, as is `displayAllStockChanges` of scraper.js. So are the `main` functions that only wire I/O, `opn`/`open` of the report, `loadTemplate` (the template is an input), `printSummary`, `initialize`, `login` of the batch processor, and every `finally { close() }`.
- **CLI and demo scripts.** etf-pe-dp-cli.js, example-usage.js, test-etf-pe-dp.js and cs-index-fetcher copy.js are not part of this model.
- **Fundamentals scraper extraction.** `extractFundamentalsData` of the fundamentals scraper (hsi-fundamentals-scraper.js:353-387) is out. It makes a single attempt to write a debug file. The five-attempt loop of the index scraper is modelled.
- **Index scraper navigation.** `navigateToFundamentals` of the index scraper (hsi-index-scraper.js:302-396) is not part of this model. The fundamentals scraper's version is modelled in `Polling`. The duplicated `login` and `submitLoginForm` of the fundamentals scraper (hsi-fundamentals-scraper.js:74-142 and 265-287) are modelled once, in `LoginFlow`.
- **Collector page internals.** In the collector's page visit, the in-page random waits and the selector fallbacks for finding the table are left out. A visit gives the body rows' inner texts, or an error.
- **Collector sheet failure.** A failure of the collector's index-list sheet read, which aborts `main` before anything is written, is not modelled. The rows are an input.
- **Regular expressions.** These are written out as scanning functions:
  - `\s` and `trim()` use the white space of ECMA-262 with the space separators of Unicode 15; later Unicode additions are not followed;
  - `[\s\S]{0,40}` counts characters, not UTF-16 code units.
- **SpPdf token alternative.** The token pattern's `\d+%` alternative is modelled, but it can never match after the '%' padding.
- **JSON shapes.** A `JSON.parse` that yields a non-array where an array is expected, and prototype keys of JavaScript objects, are not modelled. This includes a size-history file whose JSON is not an array, for which `calculateSizeChanges` returns null.
- HsiIndex.HsiIndexScraper.GetAllHsidata: a failing write of the summary file (hsi-index-scraper.js:1229), which the outer `catch` (hsi-index-scraper.js:1255-1262) turns into `{timestamp, success: false, error}`, is not modelled; writes always succeed.
- EtfBatch.EtfBatchProcessor.SaveResults: a failing write of the JSON file (etf-fundamentals-batch.js:250-253), which returns null and skips the CSV, is not modelled; writes always succeed.
- HsiAttempts.ExtractFundamentalsData: the `url` and `title` of the page that each attempt records (hsi-index-scraper.js:472-473) are dropped, since nothing reads them.
- Polling.Wait: requires a positive interval. With `checkInterval` 0 the source's `waitTime` never grows, so the loop runs until the condition holds; the one call (hsi-index-scraper.js:312-350) passes 2000 ms.
- **PE/DP cache write failure.** A failing write of the PE/DP cache is the `writable` flag. The results are returned either way.

## Findings

| source | as written | input that shows it | evidently intended | confidence | as-written member | corrected member |
|---|---|---|---|---|---|---|
| cs-index-report-generate.js:11-13 | `checkAndFetchData` looks for `all_index_returns_<today>.json` and `all_index_returns.json` under `index-data/`. After running the collector it checks `index-data/all_index_returns.json` again (line 37). | No return files yet. The collector run succeeds and writes `index-return/all_index_returns.json` (cs-index-return-fetcher.js:6, 165-166). The report still finds no file and returns null. | Look under `index-return/`, where the collector writes and where generate-static-html.js:9 reads. | high, not executed | IndexReport.AsWrittenMissesCollectorOutput | IndexReport.CorrectedFindsCollectorOutput |

`IndexReport.CheckAndFetchDataAsWritten` is the file choice as written, and `IndexReport.CheckAndFetchData` is the corrected one. Both are instances of `IndexReport.ChooseIn`. The generator class uses the corrected choice.
