/**
 * `extractFundamentalsData` of the index scraper: up to five attempts at running
 * the page cascade, stopping at the first that finds something, and
 * `getSingleIndexFundamentals`, which visits an index page and then extracts.
 */
module HsiAttempts {
  import opened Wrappers
  import opened PageCascade

  const MaxAttempts: nat := 5

  /**
   * How one attempt goes: the page as the cascade sees it, the evaluation throwing
   * (which `extractFundamentalsFromPage` turns into `null`), or the 3000 ms wait
   * before it throwing (which abandons the attempt).
   */
  datatype AttemptOutcome = Snapshot(page: PageSnapshot) | EvaluateThrew | WaitThrew(message: string)

  /** What one attempt extracts. */
  function AttemptResult(a: AttemptOutcome): Option<PageFundamentals> {
    if a.Snapshot? then CascadeResult(IndexScraper, a.page) else None
  }

  /** The extraction's result; the page URL and title are left out. */
  datatype DataResult =
    | DataFound(fundamentals: PageFundamentals, attempts: nat)
    | DataMissing(attempts: nat)
    | DataError(message: string)

  const NoDataMessage := "No data found after multiple attempts"

  predicate Succeeded(d: DataResult) { d.DataFound? }

  /** The error message a result carries, if any. */
  function ErrorOf(d: DataResult): Option<string> {
    match d
    case DataFound(_, _) => None
    case DataMissing(_) => Some(NoDataMessage)
    case DataError(m) => Some(m)
  }

  /** What the loop records: the fundamentals found, if any, and how many attempts it made. */
  datatype AttemptRun = AttemptRun(found: Option<PageFundamentals>, attempts: nat)

  /** The attempt loop from attempt `k` on, given what each attempt extracts. */
  function AttemptsFrom(results: nat -> Option<PageFundamentals>, k: nat): AttemptRun
    decreases MaxAttempts - k
  {
    if k >= MaxAttempts then AttemptRun(None, k)
    else if results(k).Some? then AttemptRun(results(k), k + 1)
    else AttemptsFrom(results, k + 1)
  }

  /** What each attempt extracts. */
  function Extracted(attempt: nat -> AttemptOutcome): nat -> Option<PageFundamentals> {
    (k: nat) => AttemptResult(attempt(k))
  }

  /** `extractFundamentalsData`: `initialWait` is the error of the 5000 ms wait before the loop, if it throws. */
  function ExtractSpec(initialWait: Option<string>, attempt: nat -> AttemptOutcome): DataResult {
    ExtractFrom(initialWait, Extracted(attempt))
  }

  /** The extraction, given what each attempt extracts. */
  function ExtractFrom(initialWait: Option<string>, results: nat -> Option<PageFundamentals>): DataResult {
    if initialWait.Some? then DataError(initialWait.value)
    else
      var run := AttemptsFrom(results, 0);
      if run.found.Some? then DataFound(run.found.value, run.attempts) else DataMissing(run.attempts)
  }

  method ExtractFundamentalsData(initialWait: Option<string>, attempt: nat -> AttemptOutcome) returns (r: DataResult)
    ensures r == ExtractSpec(initialWait, attempt)
  {
    if initialWait.Some? {
      return DataError(initialWait.value);
    }
    var attempts := 0;
    var pageFundamentals: Option<PageFundamentals> := None;
    while attempts < MaxAttempts
      invariant attempts <= MaxAttempts
      invariant pageFundamentals.None?
      invariant AttemptsFrom(Extracted(attempt), attempts) == AttemptsFrom(Extracted(attempt), 0)
    {
      attempts := attempts + 1;
      var outcome := attempt(attempts - 1);
      if outcome.WaitThrew? {
        continue;
      }
      pageFundamentals := AttemptResult(outcome);
      if pageFundamentals.Some? {
        break;
      }
    }
    if pageFundamentals.Some? {
      r := DataFound(pageFundamentals.value, attempts);
    } else {
      r := DataMissing(attempts);
    }
  }

  /** The loop makes between one and five attempts and stops at the first fruitful one. */
  lemma {:induction false} AttemptsFromFacts(results: nat -> Option<PageFundamentals>, k: nat)
    requires k <= MaxAttempts
    ensures k <= AttemptsFrom(results, k).attempts <= MaxAttempts
    ensures var run := AttemptsFrom(results, k);
      forall j :: k <= j < run.attempts - (if run.found.Some? then 1 else 0) ==> results(j).None?
    ensures var run := AttemptsFrom(results, k);
      run.found.Some? ==> run.attempts > k && run.found == results(run.attempts - 1)
    ensures AttemptsFrom(results, k).found.None? ==> AttemptsFrom(results, k).attempts == MaxAttempts
    decreases MaxAttempts - k
  {
    if k < MaxAttempts && results(k).None? {
      AttemptsFromFacts(results, k + 1);
    }
  }

  /**
   * The extraction succeeds iff some attempt among the five finds data; `attempts`
   * then counts up to the first such attempt, and a failure has used all five.
   */
  lemma ExtractSucceedsIff(results: nat -> Option<PageFundamentals>)
    ensures Succeeded(ExtractFrom(None, results)) <==> exists k :: 0 <= k < MaxAttempts && results(k).Some?
    ensures ExtractFrom(None, results).DataFound? ==>
      var k := ExtractFrom(None, results).attempts - 1;
      0 <= k < MaxAttempts && results(k) == Some(ExtractFrom(None, results).fundamentals)
      && forall j :: 0 <= j < k ==> results(j).None?
    ensures ExtractFrom(None, results).DataMissing? ==> ExtractFrom(None, results).attempts == MaxAttempts
  {
    AttemptsFromFacts(results, 0);
    var run := AttemptsFrom(results, 0);
    if run.found.Some? {
      assert results(run.attempts - 1).Some?;
    }
  }

  /** Found data is never empty: a success always carries at least one `foundData` entry. */
  lemma FoundDataNonEmpty(attempt: nat -> AttemptOutcome)
    requires ExtractSpec(None, attempt).DataFound?
    ensures |ExtractSpec(None, attempt).fundamentals.foundData| > 0
  {
    var results := Extracted(attempt);
    AttemptsFromFacts(results, 0);
    var k := AttemptsFrom(results, 0).attempts - 1;
    assert results(k) == AttemptResult(attempt(k));
  }

  // ---- getSingleIndexFundamentals ----

  /** What one index page offers: whether the visit went through, and how the extraction's waits and attempts go. */
  datatype IndexPage = IndexPage(visited: bool, initialWait: Option<string>, attempt: nat -> AttemptOutcome)

  /** `navigationSuccess` and the extraction's result; a failed visit does not stop the extraction. */
  datatype IndexData = IndexData(navigationSuccess: bool, data: DataResult)

  function SingleIndexSpec(p: IndexPage): IndexData {
    IndexData(p.visited, ExtractSpec(p.initialWait, p.attempt))
  }

  method GetSingleIndexFundamentals(p: IndexPage) returns (d: IndexData)
    ensures d == SingleIndexSpec(p)
    ensures d.navigationSuccess == p.visited
  {
    var data := ExtractFundamentalsData(p.initialWait, p.attempt);
    d := IndexData(p.visited, data);
  }
}
