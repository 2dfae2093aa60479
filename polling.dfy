/**
 * The polling loops of the fundamentals scraper: `smartWait`, which waits a
 * fixed interval and then checks a condition until the budget is spent, and
 * the content poll of `navigateToFundamentals` with its timeout tolerance.
 *
 * Waiting is recorded as the sequence of delays asked for; the condition and
 * the page content are oracles indexed by how many checks came before.
 */
module Polling {
  import opened Wrappers
  import opened Text
  import opened LoginFlow

  /** How one evaluation of the condition ends. */
  datatype CheckOutcome = Holds | Fails | CheckThrew

  datatype WaitOutcome = WaitOutcome(success: bool, checks: nat)

  /** `smartWait` from check `k` on, after `waited` ms: a throwing check counts as one that fails. */
  function Wait(maxWait: nat, interval: nat, cond: nat -> CheckOutcome, k: nat, waited: nat): WaitOutcome
    requires interval > 0
    decreases maxWait - waited
  {
    if waited >= maxWait then WaitOutcome(false, k)
    else if cond(k) == Holds then WaitOutcome(true, k + 1)
    else Wait(maxWait, interval, cond, k + 1, waited + interval)
  }

  function SmartWaitSpec(maxWait: nat, interval: nat, cond: nat -> CheckOutcome): WaitOutcome
    requires interval > 0
  {
    Wait(maxWait, interval, cond, 0, 0)
  }

  /** `n` copies of `d`: the delays a loop of `n` rounds asks for. */
  function Repeat(d: nat, n: nat): (r: seq<nat>)
    ensures |r| == n && forall k :: 0 <= k < n ==> r[k] == d
  {
    if n == 0 then [] else Repeat(d, n - 1) + [d]
  }

  /** Each round waits `interval` ms and then checks once. */
  method SmartWait(maxWait: nat, interval: nat, cond: nat -> CheckOutcome) returns (r: bool, delays: seq<nat>)
    requires interval > 0
    ensures r == SmartWaitSpec(maxWait, interval, cond).success
    ensures delays == Repeat(interval, SmartWaitSpec(maxWait, interval, cond).checks)
  {
    var waitTime := 0;
    delays := [];
    while waitTime < maxWait
      invariant Wait(maxWait, interval, cond, |delays|, waitTime) == SmartWaitSpec(maxWait, interval, cond)
      invariant delays == Repeat(interval, |delays|)
      decreases maxWait - waitTime
    {
      delays := delays + [interval];
      var outcome := cond(|delays| - 1);
      if outcome == Holds {
        return true, delays;
      }
      waitTime := waitTime + interval;
    }
    r := false;
  }

  /** `ceil(x / d)` for a positive `d`, counted one interval at a time. */
  function CeilDiv(x: int, d: nat): nat
    requires d > 0
    decreases x
  {
    if x <= 0 then 0 else 1 + CeilDiv(x - d, d)
  }

  /** `CeilDiv(x, d)` intervals of `d` cover `x`, and one fewer does not. */
  lemma {:induction false} CeilDivIsCeiling(x: int, d: nat)
    requires d > 0 && x > 0
    ensures CeilDiv(x, d) * d >= x
    ensures (CeilDiv(x, d) - 1) * d < x
    decreases x
  {
    var c := CeilDiv(x - d, d);
    assert CeilDiv(x, d) == c + 1;
    if x - d > 0 {
      CeilDivIsCeiling(x - d, d);
      assert (c + 1) * d == c * d + d;
      assert (c + 1 - 1) * d == (c - 1) * d + d;
    } else {
      assert c == 0;
    }
  }

  /** The first check that holds ends the wait with success; without one, the wait fails. */
  lemma {:induction false} WaitSucceedsAtFirstHold(maxWait: nat, interval: nat, cond: nat -> CheckOutcome, k: nat, waited: nat)
    requires interval > 0
    ensures Wait(maxWait, interval, cond, k, waited).checks >= k
    ensures var w := Wait(maxWait, interval, cond, k, waited);
      forall j :: k <= j < w.checks - (if w.success then 1 else 0) ==> cond(j) != Holds
    ensures var w := Wait(maxWait, interval, cond, k, waited);
      w.success ==> w.checks > k && cond(w.checks - 1) == Holds
    decreases maxWait - waited
  {
    if waited < maxWait && cond(k) != Holds {
      WaitSucceedsAtFirstHold(maxWait, interval, cond, k + 1, waited + interval);
    }
  }

  /** The checks fit in the budget: at most `ceil(max / interval)` of them, and exactly that many on failure. */
  lemma {:induction false} WaitBound(maxWait: nat, interval: nat, cond: nat -> CheckOutcome, k: nat, waited: nat)
    requires interval > 0
    ensures Wait(maxWait, interval, cond, k, waited).checks - k <= CeilDiv(maxWait - waited, interval)
    ensures !Wait(maxWait, interval, cond, k, waited).success ==>
      Wait(maxWait, interval, cond, k, waited).checks - k == CeilDiv(maxWait - waited, interval)
    decreases maxWait - waited
  {
    if waited < maxWait && cond(k) != Holds {
      WaitBound(maxWait, interval, cond, k + 1, waited + interval);
    }
  }

  lemma SmartWaitChecks(maxWait: nat, interval: nat, cond: nat -> CheckOutcome)
    requires interval > 0
    ensures SmartWaitSpec(maxWait, interval, cond).checks <= CeilDiv(maxWait, interval)
    ensures maxWait > 0 ==> (CeilDiv(maxWait, interval) - 1) * interval < maxWait <= CeilDiv(maxWait, interval) * interval
    ensures !SmartWaitSpec(maxWait, interval, cond).success <==>
      forall j :: 0 <= j < SmartWaitSpec(maxWait, interval, cond).checks ==> cond(j) != Holds
  {
    WaitBound(maxWait, interval, cond, 0, 0);
    if maxWait > 0 {
      CeilDivIsCeiling(maxWait, interval);
    }
    WaitSucceedsAtFirstHold(maxWait, interval, cond, 0, 0);
  }

  // ---- navigateToFundamentals ----

  /** The answer to `page.content()`. */
  datatype ContentAnswer = Content(html: string) | ContentThrew(name: ErrorName)

  const NavigationMaxWait: nat := 15000
  const NavigationInterval: nat := 1000

  predicate MentionsFundamentals(html: string) {
    Contains(html, "fundamentals") || Contains(html, "指数分析") || Contains(html, "基本面") || Contains(html, "Fundamentals")
  }

  /** How the content poll ends. */
  datatype PollOutcome = KeywordSeen(polls: nat) | BudgetSpent(polls: nat) | PollThrew(polls: nat, name: ErrorName)

  /** The content poll, from poll `k` on. */
  function Poll(content: nat -> ContentAnswer, k: nat): (r: PollOutcome)
    decreases NavigationMaxWait - 1000 * k
  {
    if 1000 * k >= NavigationMaxWait then BudgetSpent(k)
    else match content(k)
      case ContentThrew(name) => PollThrew(k + 1, name)
      case Content(html) => if MentionsFundamentals(html) then KeywordSeen(k + 1) else Poll(content, k + 1)
  }

  /** How the page load itself ends. */
  datatype LoadOutcome = Loaded | LoadThrew(name: ErrorName)

  /** The catch block: a timeout is forgiven iff the browser is on a fundamentals URL. */
  function TimeoutPath(name: ErrorName, urlAtError: string): bool {
    name == TimeoutError && urlAtError != "" && Contains(urlAtError, "fundamentals")
  }

  function NavigateSpec(load: LoadOutcome, content: nat -> ContentAnswer, urlAtError: string): bool {
    if load.LoadThrew? then TimeoutPath(load.name, urlAtError)
    else match Poll(content, 0)
      case PollThrew(_, name) => TimeoutPath(name, urlAtError)
      case _ => true
  }

  /** The polls `navigateToFundamentals` makes: none if the page load throws. */
  function NavigatePolls(load: LoadOutcome, content: nat -> ContentAnswer): nat {
    if load.LoadThrew? then 0 else Poll(content, 0).polls
  }

  method NavigateToFundamentals(load: LoadOutcome, content: nat -> ContentAnswer, urlAtError: string)
    returns (ok: bool, delays: seq<nat>)
    ensures ok == NavigateSpec(load, content, urlAtError)
    ensures delays == Repeat(NavigationInterval, NavigatePolls(load, content))
  {
    delays := [];
    if load.LoadThrew? {
      return TimeoutPath(load.name, urlAtError), delays;
    }
    var waitTime := 0;
    var k := 0;
    while waitTime < NavigationMaxWait
      invariant waitTime == 1000 * k && k <= 15
      invariant Poll(content, k) == Poll(content, 0)
      invariant delays == Repeat(NavigationInterval, k)
      decreases NavigationMaxWait - waitTime
    {
      var answer := content(k);
      delays := delays + [NavigationInterval];
      waitTime := waitTime + NavigationInterval;
      k := k + 1;
      if answer.ContentThrew? {
        return TimeoutPath(answer.name, urlAtError), delays;
      }
      if MentionsFundamentals(answer.html) {
        break;
      }
    }
    ok := true;
  }

  /** The poll stops at the first keyword or error, never later than the fifteenth poll. */
  lemma {:induction false} PollBounded(content: nat -> ContentAnswer, k: nat)
    requires k <= 15
    ensures k <= Poll(content, k).polls <= 15
    ensures Poll(content, k).BudgetSpent? ==> Poll(content, k).polls == 15
    ensures forall j :: k <= j < Poll(content, k).polls - 1 ==>
      content(j).Content? && !MentionsFundamentals(content(j).html)
    decreases 15 - k
  {
    if k < 15 && content(k).Content? && !MentionsFundamentals(content(k).html) {
      PollBounded(content, k + 1);
    }
  }

  /** A completed page load makes the navigation succeed unless a content read throws something other than a tolerated timeout. */
  lemma NavigateResult(load: LoadOutcome, content: nat -> ContentAnswer, urlAtError: string)
    ensures NavigatePolls(load, content) <= 15
    ensures load.Loaded? && !Poll(content, 0).PollThrew? ==> NavigateSpec(load, content, urlAtError)
    ensures load.LoadThrew? ==>
      (NavigateSpec(load, content, urlAtError) <==> load.name == TimeoutError && Contains(urlAtError, "fundamentals"))
  {
    PollBounded(content, 0);
  }
}
