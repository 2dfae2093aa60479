/**
 * `getAllHsidata` of the index scraper: today's summary file short-circuits the
 * whole run; otherwise credentials are required, the browser session is set up or
 * checked, every entry of the ETF-to-index mapping is fetched in turn, and the
 * summary with its success and failure counts is written under today's name.
 */
module HsiIndex {
  import opened Wrappers
  import opened Text
  import opened LoginFlow
  import opened HsiAttempts

  /** One entry of the ETF-to-index mapping, in the mapping's iteration order. */
  datatype MappingEntry = MappingEntry(etfCode: string, indexCode: string, indexName: string, description: string)

  /** What an entry produced: the single-index data, or the error that interrupted it. */
  datatype EntryOutcome = Fetched(data: IndexData) | EntryFailed(message: string)

  datatype IndexResult = IndexResult(
    etfCode: string, indexCode: string, indexName: string, description: string, timestamp: string,
    outcome: EntryOutcome)

  /** `r.success` of a result. */
  predicate ResultSucceeded(r: IndexResult) { r.outcome.Fetched? && Succeeded(r.outcome.data.data) }

  /** The reply object; a field the source leaves out of a given reply is `None`. */
  datatype HsiReply = HsiReply(
    timestamp: string, success: Option<bool>, error: Option<string>,
    totalIndexes: Option<nat>, successfulIndexes: Option<nat>, failedIndexes: Option<nat>,
    results: Option<seq<IndexResult>>, fromCache: Option<bool>, cacheSource: Option<string>)

  /** A file in the output directory: one that does not parse, or a stored reply. */
  datatype SummaryFile = Corrupt | Summary(data: HsiReply)

  const OutputDir := "hsi-fundamentals-data"

  /** Today's summary file; `today` is the `YYYY-MM-DD` part of the current ISO time stamp. */
  function SummaryPath(today: string): string { OutputDir + "/fundamentals-summary-" + today + ".json" }

  /**
   * The reply a cached summary gives: the stored object marked as read from the
   * cache. A file that does not parse, or whose `results` is missing (the listing
   * of cached results then throws), is a cache miss.
   */
  function CachedReply(files: map<string, SummaryFile>, path: string): Option<HsiReply> {
    if path in files && files[path].Summary? && files[path].data.results.Some? then
      Some(files[path].data.(fromCache := Some(true), cacheSource := Some(path)))
    else None
  }

  /** The credentials read from the configuration file, if it has them. */
  datatype Credentials = Credentials(username: string, password: string)

  /** `!username || !password` fails for a missing or empty value. */
  predicate HasCredentials(c: Option<Credentials>) { c.Some? && c.value.username != "" && c.value.password != "" }

  const MissingCredentialsMessage := "Login credentials not found. Please provide username and password."
  const InitFailedMessage := "Browser initialization failed"
  const LoginFailedMessage := "Login failed"
  const ReloginFailedMessage := "Re-login failed"

  /**
   * How `initialize` ends: it reports failure also when it throws after the page
   * was opened, and then the browser and page are both set all the same.
   */
  datatype InitOutcome = InitOk | InitFailedBeforePage | InitFailedAfterPage

  /** Where the visit of a members-only page lands, when the session is already up. */
  datatype ProbeOutcome = LandedOn(url: string) | ProbeFailed

  /** What a call of `login` meets. */
  datatype LoginRun = LoginRun(first: LoginPass, urlAtError: string, retry: LoginPass)

  predicate LoginSucceeds(l: LoginRun) { Login(l.first, l.urlAtError, l.retry) }

  datatype SessionEnv = SessionEnv(init: InitOutcome, probe: ProbeOutcome, login: LoginRun)

  /** The session step's verdict and whether the scraper has a browser and page afterwards. */
  datatype Session = Session(error: Option<string>, browserReady: bool)

  /** A landing URL that means the session expired. */
  predicate OnLoginPage(url: string) { Contains(url, "login") || Contains(url, "signin") }

  function SessionSpec(ready: bool, env: SessionEnv): Session {
    if !ready then
      match env.init
      case InitFailedBeforePage => Session(Some(InitFailedMessage), false)
      case InitFailedAfterPage => Session(Some(InitFailedMessage), true)
      case InitOk => Session(if LoginSucceeds(env.login) then None else Some(LoginFailedMessage), true)
    else
      match env.probe
      case LandedOn(url) =>
        if OnLoginPage(url) then Session(if LoginSucceeds(env.login) then None else Some(ReloginFailedMessage), true)
        else Session(None, true)
      case ProbeFailed => Session(if LoginSucceeds(env.login) then None else Some(LoginFailedMessage), true)
  }

  /** The reply of a run that stops before fetching. */
  function FailureReply(today: string, message: string): HsiReply {
    HsiReply(today, Some(false), Some(message), None, None, None, None, Some(false), None)
  }

  /** What one mapping entry meets: its index page, and the error of the 3000 ms delay after it, if that throws. */
  datatype EntryEnv = EntryEnv(page: IndexPage, delayError: Option<string>)

  /**
   * The results one entry pushes. The delay runs after the entry's result is pushed
   * whenever the mapping has more than one entry; if it throws, the catch block
   * pushes a second, failed result for the same entry.
   */
  function EntryResults(e: MappingEntry, today: string, env: EntryEnv, several: bool): seq<IndexResult> {
    var fetched := IndexResult(e.etfCode, e.indexCode, e.indexName, e.description, today, Fetched(SingleIndexSpec(env.page)));
    if several && env.delayError.Some? then
      [fetched, IndexResult(e.etfCode, e.indexCode, e.indexName, e.description, today, EntryFailed(env.delayError.value))]
    else [fetched]
  }

  /** The results after the first `n` entries. */
  function ResultsUpTo(mapping: seq<MappingEntry>, today: string, envs: nat -> EntryEnv, n: nat): seq<IndexResult>
    requires n <= |mapping|
  {
    if n == 0 then [] else ResultsUpTo(mapping, today, envs, n - 1) + EntryResults(mapping[n - 1], today, envs(n - 1), |mapping| > 1)
  }

  function CountSucceeded(rs: seq<IndexResult>): nat {
    if rs == [] then 0 else CountSucceeded(rs[..|rs| - 1]) + (if ResultSucceeded(rs[|rs| - 1]) then 1 else 0)
  }

  function CountFailed(rs: seq<IndexResult>): nat {
    if rs == [] then 0 else CountFailed(rs[..|rs| - 1]) + (if ResultSucceeded(rs[|rs| - 1]) then 0 else 1)
  }

  /** The summary of a fresh run. */
  function SummaryReply(today: string, mapping: seq<MappingEntry>, results: seq<IndexResult>): HsiReply {
    HsiReply(today, None, None, Some(|mapping|), Some(CountSucceeded(results)), Some(CountFailed(results)),
      Some(results), Some(false), None)
  }

  /** A run's reply and the scraper's state after it. */
  datatype Run = Run(reply: HsiReply, files: map<string, SummaryFile>, browserReady: bool)

  function GetAllSpec(files: map<string, SummaryFile>, ready: bool, mapping: seq<MappingEntry>, today: string,
                      creds: Option<Credentials>, session: SessionEnv, envs: nat -> EntryEnv): Run
  {
    match CachedReply(files, SummaryPath(today))
    case Some(cached) => Run(cached, files, ready)
    case None => FreshRun(files, ready, mapping, today, creds, session, envs)
  }

  /** A run that finds no usable summary for today. */
  function FreshRun(files: map<string, SummaryFile>, ready: bool, mapping: seq<MappingEntry>, today: string,
                    creds: Option<Credentials>, session: SessionEnv, envs: nat -> EntryEnv): Run
  {
    if !HasCredentials(creds) then Run(FailureReply(today, MissingCredentialsMessage), files, ready)
    else
      var s := SessionSpec(ready, session);
      if s.error.Some? then Run(FailureReply(today, s.error.value), files, s.browserReady)
      else
        var reply := SummaryReply(today, mapping, ResultsUpTo(mapping, today, envs, |mapping|));
        Run(reply, files[SummaryPath(today) := Summary(reply)], s.browserReady)
  }

  /** The mapping loop: each entry is fetched, its result pushed, and the between-index delay taken. */
  method ProcessEntries(mapping: seq<MappingEntry>, today: string, envs: nat -> EntryEnv) returns (results: seq<IndexResult>)
    ensures results == ResultsUpTo(mapping, today, envs, |mapping|)
  {
    results := [];
    var i := 0;
    while i < |mapping|
      invariant 0 <= i <= |mapping|
      invariant results == ResultsUpTo(mapping, today, envs, i)
    {
      var e := mapping[i];
      var env := envs(i);
      var data := GetSingleIndexFundamentals(env.page);
      results := results + [IndexResult(e.etfCode, e.indexCode, e.indexName, e.description, today, Fetched(data))];
      if |mapping| > 1 && env.delayError.Some? {
        results := results + [IndexResult(e.etfCode, e.indexCode, e.indexName, e.description, today, EntryFailed(env.delayError.value))];
      }
      i := i + 1;
    }
  }

  /** The scraper object: whether it holds a browser and page, and the files of its output directory. */
  class HsiIndexScraper {
    var browserReady: bool
    var files: map<string, SummaryFile>

    constructor(existing: map<string, SummaryFile>)
      ensures !browserReady && files == existing
    {
      browserReady := false;
      files := existing;
    }

    /** Initialize and log in, or check the session and log in again if it expired. */
    method EnsureSession(session: SessionEnv) returns (error: Option<string>)
      modifies this
      ensures Session(error, browserReady) == SessionSpec(old(browserReady), session)
      ensures files == old(files)
    {
      if !browserReady {
        if session.init != InitOk {
          browserReady := session.init == InitFailedAfterPage;
          return Some(InitFailedMessage);
        }
        browserReady := true;
        if !LoginSucceeds(session.login) {
          return Some(LoginFailedMessage);
        }
        return None;
      }
      if session.probe.LandedOn? {
        if OnLoginPage(session.probe.url) && !LoginSucceeds(session.login) {
          return Some(ReloginFailedMessage);
        }
        return None;
      }
      if !LoginSucceeds(session.login) {
        return Some(LoginFailedMessage);
      }
      error := None;
    }

    method GetAllHsidata(mapping: seq<MappingEntry>, today: string, creds: Option<Credentials>,
                         session: SessionEnv, envs: nat -> EntryEnv) returns (reply: HsiReply)
      modifies this
      ensures Run(reply, files, browserReady) == GetAllSpec(old(files), old(browserReady), mapping, today, creds, session, envs)
    {
      var path := SummaryPath(today);
      var cached := CachedReply(files, path);
      if cached.Some? {
        return cached.value;
      }
      if !HasCredentials(creds) {
        return FailureReply(today, MissingCredentialsMessage);
      }
      var error := EnsureSession(session);
      if error.Some? {
        return FailureReply(today, error.value);
      }
      var results := ProcessEntries(mapping, today, envs);
      reply := SummaryReply(today, mapping, results);
      files := files[path := Summary(reply)];
    }
  }

  // ---- properties ----

  /** Today's readable summary is returned as stored, marked as cached, and nothing is touched. */
  lemma CacheHitIsReturnedUnchanged(files: map<string, SummaryFile>, ready: bool, mapping: seq<MappingEntry>, today: string,
                                    creds: Option<Credentials>, session: SessionEnv, envs: nat -> EntryEnv)
    requires SummaryPath(today) in files && files[SummaryPath(today)].Summary?
    requires files[SummaryPath(today)].data.results.Some?
    ensures var run := GetAllSpec(files, ready, mapping, today, creds, session, envs);
      run.files == files && run.browserReady == ready
      && run.reply == files[SummaryPath(today)].data.(fromCache := Some(true), cacheSource := Some(SummaryPath(today)))
  {
  }

  /** A fresh run's reply and browser state do not depend on the files; only the summary it writes does. */
  lemma FreshRunIgnoresFiles(files: map<string, SummaryFile>, other: map<string, SummaryFile>, ready: bool,
                             mapping: seq<MappingEntry>, today: string,
                             creds: Option<Credentials>, session: SessionEnv, envs: nat -> EntryEnv)
    ensures var a := FreshRun(files, ready, mapping, today, creds, session, envs);
      var b := FreshRun(other, ready, mapping, today, creds, session, envs);
      a.reply == b.reply && a.browserReady == b.browserReady
  {
  }

  /** A summary file that cannot be used is treated as if it were not there. */
  lemma UnusableCacheFallsThrough(files: map<string, SummaryFile>, ready: bool, mapping: seq<MappingEntry>, today: string,
                                  creds: Option<Credentials>, session: SessionEnv, envs: nat -> EntryEnv)
    requires SummaryPath(today) in files
    requires files[SummaryPath(today)].Corrupt? || files[SummaryPath(today)].data.results.None?
    ensures var clean := GetAllSpec(files - {SummaryPath(today)}, ready, mapping, today, creds, session, envs);
      var run := GetAllSpec(files, ready, mapping, today, creds, session, envs);
      run.reply == clean.reply && run.browserReady == clean.browserReady
  {
    var path := SummaryPath(today);
    assert CachedReply(files - {path}, path).None?;
    assert CachedReply(files, path).None?;
    FreshRunIgnoresFiles(files, files - {path}, ready, mapping, today, creds, session, envs);
  }

  /** Without cache and credentials, the run stops with the credentials error and never touches the browser. */
  lemma MissingCredentialsStop(files: map<string, SummaryFile>, ready: bool, mapping: seq<MappingEntry>, today: string,
                               creds: Option<Credentials>, session: SessionEnv, envs: nat -> EntryEnv)
    requires CachedReply(files, SummaryPath(today)).None?
    requires !HasCredentials(creds)
    ensures GetAllSpec(files, ready, mapping, today, creds, session, envs)
      == Run(FailureReply(today, MissingCredentialsMessage), files, ready)
  {
  }

  /** The session step passes only with a browser, and only after a successful login unless an open session was still valid. */
  lemma SessionPassesOnlyWhenLoggedIn(ready: bool, env: SessionEnv)
    requires SessionSpec(ready, env).error.None?
    ensures SessionSpec(ready, env).browserReady
    ensures LoginSucceeds(env.login) || (ready && env.probe.LandedOn? && !OnLoginPage(env.probe.url))
  {
  }

  /** Entries `k < n` whose between-index delay threw. */
  function DelayThrows(mapping: seq<MappingEntry>, envs: nat -> EntryEnv, n: nat): nat
    requires n <= |mapping|
  {
    if n == 0 then 0
    else DelayThrows(mapping, envs, n - 1) + (if |mapping| > 1 && envs(n - 1).delayError.Some? then 1 else 0)
  }

  /** Every entry yields one result, plus one more for each entry whose delay threw. */
  lemma {:induction false} ResultsCount(mapping: seq<MappingEntry>, today: string, envs: nat -> EntryEnv, n: nat)
    requires n <= |mapping|
    ensures |ResultsUpTo(mapping, today, envs, n)| == n + DelayThrows(mapping, envs, n)
  {
    if n > 0 {
      ResultsCount(mapping, today, envs, n - 1);
    }
  }

  /** When no delay throws, result `k` belongs to entry `k`, in mapping order. */
  lemma {:induction false} ResultsFollowMapping(mapping: seq<MappingEntry>, today: string, envs: nat -> EntryEnv, n: nat)
    requires n <= |mapping|
    requires DelayThrows(mapping, envs, n) == 0
    ensures |ResultsUpTo(mapping, today, envs, n)| == n
    ensures forall k :: 0 <= k < n ==>
      var r := ResultsUpTo(mapping, today, envs, n)[k];
      r.etfCode == mapping[k].etfCode && r.indexCode == mapping[k].indexCode
      && r.outcome == Fetched(SingleIndexSpec(envs(k).page))
  {
    if n > 0 {
      ResultsFollowMapping(mapping, today, envs, n - 1);
      var prev := ResultsUpTo(mapping, today, envs, n - 1);
      assert ResultsUpTo(mapping, today, envs, n) == prev + EntryResults(mapping[n - 1], today, envs(n - 1), |mapping| > 1);
    }
  }

  lemma {:induction false} CountsAddUp(rs: seq<IndexResult>)
    ensures CountSucceeded(rs) + CountFailed(rs) == |rs|
    decreases |rs|
  {
    if rs != [] {
      CountsAddUp(rs[..|rs| - 1]);
    }
  }

  /**
   * A fresh run's summary: its success and failure counts add up to the number of
   * results, `totalIndexes` is the mapping's size, and the two agree unless a
   * between-index delay threw.
   */
  lemma FreshSummaryCounts(today: string, mapping: seq<MappingEntry>, envs: nat -> EntryEnv)
    ensures var results := ResultsUpTo(mapping, today, envs, |mapping|);
      var reply := SummaryReply(today, mapping, results);
      reply.successfulIndexes.value + reply.failedIndexes.value == |results|
      && reply.totalIndexes.value == |mapping|
      && |results| == |mapping| + DelayThrows(mapping, envs, |mapping|)
  {
    var results := ResultsUpTo(mapping, today, envs, |mapping|);
    CountsAddUp(results);
    ResultsCount(mapping, today, envs, |mapping|);
  }

  /** With only one entry no delay is taken, so the summary holds exactly one result. */
  lemma SingleEntrySingleResult(today: string, mapping: seq<MappingEntry>, envs: nat -> EntryEnv)
    requires |mapping| == 1
    ensures |ResultsUpTo(mapping, today, envs, 1)| == 1
  {
    ResultsCount(mapping, today, envs, 1);
  }

  /** A fresh run stores its reply under today's name, so the next run on the same day is served from the cache. */
  lemma FreshRunIsCachedNextTime(files: map<string, SummaryFile>, ready: bool, mapping: seq<MappingEntry>, today: string,
                                 creds: Option<Credentials>, session: SessionEnv, envs: nat -> EntryEnv,
                                 ready2: bool, mapping2: seq<MappingEntry>, creds2: Option<Credentials>,
                                 session2: SessionEnv, envs2: nat -> EntryEnv)
    requires CachedReply(files, SummaryPath(today)).None?
    requires HasCredentials(creds) && SessionSpec(ready, session).error.None?
    ensures var run := GetAllSpec(files, ready, mapping, today, creds, session, envs);
      var next := GetAllSpec(run.files, ready2, mapping2, today, creds2, session2, envs2);
      next.reply == run.reply.(fromCache := Some(true), cacheSource := Some(SummaryPath(today)))
      && next.files == run.files
  {
  }
}
