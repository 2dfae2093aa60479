/**
 * The login flow shared by both HSI scrapers: locating the form controls by
 * probing CSS selectors, submitting the form, and the tolerance for a timeout
 * that leaves the browser on a page that looks fine.
 *
 * The browser is an oracle: `probe` answers a single-element query for a
 * selector, `buttons` the generic button query, and each submission's
 * navigation either ends on some URL or throws.
 */
module LoginFlow {
  import opened Wrappers
  import opened Text

  /** An element handle the page hands back. */
  datatype Handle = Handle(id: nat)

  /** The `name` of a thrown error; only `TimeoutError` is ever looked at. */
  datatype ErrorName = TimeoutError | OtherError(name: string)

  /** The answer to `page.$(selector)`: an element, `null`, or an exception. */
  datatype Probe = Found(handle: Handle) | NotFound | ProbeThrew

  /** The answer to `page.$$('button, input[type="submit"]')`. */
  datatype ButtonQuery = Buttons(handles: seq<Handle>) | ButtonsThrew(name: ErrorName)

  datatype LoginPage = LoginPage(probe: string -> Probe, buttons: ButtonQuery)

  datatype LoginElements = LoginElements(username: Option<Handle>, password: Option<Handle>, submit: Option<Handle>)

  /** What `findLoginElements` resolves to, or the error it rejects with. */
  datatype FindOutcome = Elements(elements: LoginElements) | FindThrew(name: ErrorName)

  const UsernameSelectors: seq<string> := [
    "input[type=\"text\"]", "input[name=\"username\"]", "input[id=\"username\"]",
    "input[name=\"user\"]", "input[id=\"user\"]", "input[name=\"email\"]", "input[id=\"email\"]",
    "input[placeholder*=\"username\" i]", "input[placeholder*=\"user\" i]",
    "input[placeholder*=\"email\" i]", "input[placeholder*=\"用户名\" i]", "input[placeholder*=\"登录\" i]"]

  const PasswordSelectors: seq<string> := [
    "input[type=\"password\"]", "input[name=\"password\"]", "input[id=\"password\"]",
    "input[name=\"pass\"]", "input[id=\"pass\"]", "input[placeholder*=\"password\" i]",
    "input[placeholder*=\"pass\" i]", "input[placeholder*=\"密码\" i]"]

  const SubmitSelectors: seq<string> := [
    "button[type=\"submit\"]", "input[type=\"submit\"]",
    "button:contains(\"Login\")", "button:contains(\"Sign In\")", "button:contains(\"Log In\")",
    "button:contains(\"登录\")", "button:contains(\"登入\")",
    "input[value*=\"Login\" i]", "input[value*=\"Sign\" i]", "input[value*=\"Submit\" i]",
    "input[value*=\"登录\" i]", "input[value*=\"登入\" i]"]

  /** The first selector from `i` on that finds an element; a throwing probe is passed over. */
  function FirstMatch(selectors: seq<string>, probe: string -> Probe, i: nat): Option<Handle>
    decreases |selectors| - i
  {
    if i >= |selectors| then None
    else if probe(selectors[i]).Found? then Some(probe(selectors[i]).handle)
    else FirstMatch(selectors, probe, i + 1)
  }

  /** The elements `findLoginElements` returns: three first-match scans, then the generic-button fallback. */
  function FindSpec(page: LoginPage): FindOutcome {
    var username := FirstMatch(UsernameSelectors, page.probe, 0);
    var password := FirstMatch(PasswordSelectors, page.probe, 0);
    var submit := FirstMatch(SubmitSelectors, page.probe, 0);
    if submit.Some? then Elements(LoginElements(username, password, submit))
    else match page.buttons
      case ButtonsThrew(name) => FindThrew(name)
      case Buttons(hs) => Elements(LoginElements(username, password, if |hs| > 0 then Some(hs[0]) else None))
  }

  /** One selector loop: probe in list order and stop at the first element found. */
  method ProbeSelectors(selectors: seq<string>, probe: string -> Probe) returns (h: Option<Handle>)
    ensures h == FirstMatch(selectors, probe, 0)
  {
    h := None;
    var i := 0;
    while i < |selectors|
      invariant 0 <= i <= |selectors|
      invariant h.None?
      invariant FirstMatch(selectors, probe, i) == FirstMatch(selectors, probe, 0)
    {
      var answer := probe(selectors[i]);
      if answer.ProbeThrew? {
        i := i + 1;
        continue;
      }
      if answer.Found? {
        h := Some(answer.handle);
        break;
      }
      i := i + 1;
    }
  }

  method FindLoginElements(page: LoginPage) returns (r: FindOutcome)
    ensures r == FindSpec(page)
  {
    var username := ProbeSelectors(UsernameSelectors, page.probe);
    var password := ProbeSelectors(PasswordSelectors, page.probe);
    var submit := ProbeSelectors(SubmitSelectors, page.probe);
    if submit.None? {
      if page.buttons.ButtonsThrew? {
        return FindThrew(page.buttons.name);
      }
      if |page.buttons.handles| > 0 {
        submit := Some(page.buttons.handles[0]);
      }
    }
    r := Elements(LoginElements(username, password, submit));
  }

  /** Selector `s` is passed over by a scan: it finds nothing or throws. */
  predicate Misses(probe: string -> Probe, s: string) { !probe(s).Found? }

  /** A scan finds nothing iff every selector misses, and otherwise it takes the first selector that hits. */
  lemma {:induction false} FirstMatchIsFirst(selectors: seq<string>, probe: string -> Probe, i: nat)
    ensures FirstMatch(selectors, probe, i).None? <==>
      forall k :: i <= k < |selectors| ==> Misses(probe, selectors[k])
    ensures FirstMatch(selectors, probe, i).Some? ==>
      exists k :: i <= k < |selectors| && probe(selectors[k]) == Found(FirstMatch(selectors, probe, i).value)
        && forall j :: i <= j < k ==> Misses(probe, selectors[j])
    decreases |selectors| - i
  {
    if i < |selectors| {
      FirstMatchIsFirst(selectors, probe, i + 1);
      if probe(selectors[i]).Found? {
        assert probe(selectors[i]) == Found(FirstMatch(selectors, probe, i).value);
      } else if FirstMatch(selectors, probe, i).Some? {
        var k :| i + 1 <= k < |selectors| && probe(selectors[k]) == Found(FirstMatch(selectors, probe, i + 1).value)
          && forall j :: i + 1 <= j < k ==> Misses(probe, selectors[j]);
        assert forall j :: i <= j < k ==> Misses(probe, selectors[j]);
      }
    }
  }

  /** The generic button is used only when no submit selector hits, and then it is the first one listed. */
  lemma SubmitFallback(page: LoginPage)
    requires forall k :: 0 <= k < |SubmitSelectors| ==> Misses(page.probe, SubmitSelectors[k])
    ensures page.buttons.Buttons? && |page.buttons.handles| > 0 ==>
      FindSpec(page).Elements? && FindSpec(page).elements.submit == Some(page.buttons.handles[0])
    ensures page.buttons.Buttons? && |page.buttons.handles| == 0 ==>
      FindSpec(page).Elements? && FindSpec(page).elements.submit.None?
    ensures page.buttons.ButtonsThrew? ==> FindSpec(page) == FindThrew(page.buttons.name)
  {
    FirstMatchIsFirst(SubmitSelectors, page.probe, 0);
  }

  /** How the click-and-wait of a submission ends. */
  datatype Navigation = NavigatedTo(url: string) | NavigationThrew

  /** `submitLoginForm`: the login went through iff the page navigated away to a URL without "login". */
  function SubmitLoginForm(submit: Option<Handle>, nav: Navigation): bool {
    submit.Some? && nav.NavigatedTo? && !Contains(nav.url, "login")
  }

  /**
   * What one pass through the form meets: an error from the steps before the
   * element search (the page load, the fixed wait, the login-page screenshot of
   * the first pass; the settling wait of the retry), the page, an error from
   * filling the credentials, and how the submission's navigation ends.
   */
  datatype LoginPass = LoginPass(preludeError: Option<ErrorName>, page: LoginPage, fillError: Option<ErrorName>, nav: Navigation)

  datatype PassOutcome = LoggedIn | Rejected | Threw(name: ErrorName)

  /** One pass through the form, minus the error handling around it. */
  function RunPass(p: LoginPass): PassOutcome {
    if p.preludeError.Some? then Threw(p.preludeError.value)
    else match FindSpec(p.page)
      case FindThrew(name) => Threw(name)
      case Elements(e) =>
        if e.username.None? || e.password.None? then Rejected
        else if p.fillError.Some? then Threw(p.fillError.value)
        else if SubmitLoginForm(e.submit, p.nav) then LoggedIn
        else Rejected
  }

  /** `continueLoginAfterTimeout`: every error in the retry yields false. */
  function ContinueLoginAfterTimeout(retry: LoginPass): bool {
    RunPass(retry) == LoggedIn
  }

  /** `login`: the first pass, and the retry a timeout hands over to while the current URL `urlAtError` looks fine. */
  function Login(first: LoginPass, urlAtError: string, retry: LoginPass): bool {
    match RunPass(first)
      case LoggedIn => true
      case Rejected => false
      case Threw(name) =>
        if name == TimeoutError && urlAtError != "" && !Contains(urlAtError, "error") then ContinueLoginAfterTimeout(retry)
        else false
  }

  /** Submission succeeds exactly when there is a control, the navigation completes, and "login" occurs nowhere in the new URL. */
  lemma SubmitLoginFormIff(submit: Option<Handle>, nav: Navigation)
    ensures SubmitLoginForm(submit, nav) <==>
      submit.Some? && nav.NavigatedTo? && forall k :: !StartsAt(nav.url, "login", k)
  {
    if nav.NavigatedTo? {
      ContainsIff(nav.url, "login");
    }
  }

  /** A pass logs in only after finding both fields and a submit control and navigating off the login page. */
  lemma LoggedInMeans(p: LoginPass)
    requires RunPass(p) == LoggedIn
    ensures p.preludeError.None? && p.fillError.None?
    ensures FindSpec(p.page).Elements?
    ensures FindSpec(p.page).elements.username.Some? && FindSpec(p.page).elements.password.Some?
    ensures FindSpec(p.page).elements.submit.Some?
    ensures p.nav.NavigatedTo? && !Contains(p.nav.url, "login")
  {
  }

  /**
   * The timeout tolerance: a failing first pass is rescued only by a timeout
   * while the URL is non-empty and lacks "error", and then the result is the retry's.
   */
  lemma TimeoutTolerance(first: LoginPass, urlAtError: string, retry: LoginPass)
    requires RunPass(first).Threw?
    ensures Login(first, urlAtError, retry) <==>
      RunPass(first).name == TimeoutError && urlAtError != "" && !Contains(urlAtError, "error")
      && RunPass(retry) == LoggedIn
  {
  }

  /** Without a timeout the retry never runs: a pass that does not log in makes `login` false whatever the retry would do. */
  lemma OtherErrorsFail(first: LoginPass, urlAtError: string, retry: LoginPass)
    requires RunPass(first) != LoggedIn
    requires !(RunPass(first).Threw? && RunPass(first).name == TimeoutError)
    ensures !Login(first, urlAtError, retry)
  {
  }

  /** A successful login has some pass that navigated off the login page with both credentials fields found. */
  lemma LoginSucceedsOffLoginPage(first: LoginPass, urlAtError: string, retry: LoginPass)
    requires Login(first, urlAtError, retry)
    ensures exists p :: p in {first, retry} && RunPass(p) == LoggedIn && p.nav.NavigatedTo? && !Contains(p.nav.url, "login")
  {
    if RunPass(first) == LoggedIn {
      LoggedInMeans(first);
      assert first in {first, retry};
    } else {
      LoggedInMeans(retry);
      assert retry in {first, retry};
    }
  }
}
