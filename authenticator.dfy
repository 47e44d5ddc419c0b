/**
 * `TradeIslandAuthenticator` (scraping/auth/authenticator.py): login, the logged-in check,
 * cookie save and restore, and three navigation steps, each locating controls by trying an
 * ordered list of selectors and taking the first that resolves. Every method is proved
 * against a function that computes, from the page oracle and the history so far, the
 * actions it performs, the selectors it probes and its result.
 */
module Authenticator {
  import opened Wrappers
  import opened Text
  import opened Browser
  import opened SessionStore

  /** The ordered candidate selectors for each control the authenticator looks for. */
  datatype Selectors = Selectors(
    email: seq<Selector>, password: seq<Selector>, login: seq<Selector>,
    indicators: seq<Selector>, searchTab: seq<Selector>, searchInput: seq<Selector>,
    searchButton: seq<Selector>)

  /** The lists written in the authenticator, in their order. */
  const TradeIslandSelectors: Selectors := Selectors(
    /* email: the email field */
    ["input[type=\"email\"]", "input[name*=\"email\"]", "input[name*=\"mail\"]",
    "input[id*=\"email\"]", "input[id*=\"mail\"]", "input[placeholder*=\"メール\"]",
    "input[placeholder*=\"email\"]"],
    /* password: the password field */
    ["input[type=\"password\"]", "input[name*=\"password\"]", "input[name*=\"pass\"]",
    "input[id*=\"password\"]", "input[id*=\"pass\"]", "input[placeholder*=\"パスワード\"]",
    "input[placeholder*=\"password\"]"],
    /* login: the login button */
    ["button[type=\"submit\"]", "input[type=\"submit\"]", "button:has-text(\"ログイン\")",
    "button:has-text(\"login\")", "input[value*=\"ログイン\"]", "input[value*=\"login\"]",
    "[class*=\"login\"] button", "[class*=\"signin\"] button"],
    /* indicators: elements shown only to a logged-in user */
    ["[href*=\"logout\"]", "[class*=\"user\"]", "[class*=\"profile\"]",
    "text=\"ユーザー検索\"", "text=\"マイページ\""],
    /* searchTab: the user-search tab */
    ["text=\"ユーザー検索\"", "[href*=\"user\"]", "[href*=\"search\"]",
    "a:has-text(\"ユーザー検索\")", "button:has-text(\"ユーザー検索\")"],
    /* searchInput: the search box */
    ["input[placeholder*=\"ニックネーム\"]", "input[placeholder*=\"nickname\"]",
    "input[name*=\"nickname\"]", "input[name*=\"search\"]", "input[type=\"search\"]",
    "input[class*=\"search\"]"],
    /* searchButton: the search button */
    ["button:has-text(\"検索\")", "button[type=\"submit\"]", "input[type=\"submit\"]"])

  /** The candidate links to a user's profile, built from the nickname. */
  function ProfileSelectors(nickname: string): (r: seq<Selector>)
    ensures |r| == 5
  {
    ["a:has-text(\"" + nickname + "\")", "[href*=\"" + nickname + "\"]",
     "text=\"" + nickname + "\"", ".user-item a", ".search-result a"]
  }

  /** The index of the first selector that resolves, if any. */
  function FirstMatch(sels: seq<Selector>, matching: set<Selector>): (r: Option<nat>)
    ensures r.Some? ==> r.value < |sels| && sels[r.value] in matching
    ensures r.Some? ==> forall j :: 0 <= j < r.value ==> sels[j] !in matching
    ensures r.None? <==> forall j :: 0 <= j < |sels| ==> sels[j] !in matching
    decreases |sels|
  {
    if sels == [] then None
    else if sels[0] in matching then Some(0)
    else
      match FirstMatch(sels[1..], matching)
      case None => None
      case Some(i) => Some(i + 1)
  }

  /** The selectors a first-match lookup probes: up to the match, or all of them. */
  function Probed(sels: seq<Selector>, matching: set<Selector>): (r: seq<Selector>)
    ensures |r| <= |sels| && r == sels[..|r|]
    ensures forall j :: 0 <= j < |r| - 1 ==> r[j] !in matching
    ensures r == sels || (|r| > 0 && r[|r| - 1] in matching)
    ensures (exists j :: 0 <= j < |sels| && sels[j] in matching) <==> |r| > 0 && r[|r| - 1] in matching
  {
    match FirstMatch(sels, matching)
    case None => sels
    case Some(i) => sels[..i + 1]
  }

  /** The outcome of `_is_logged_in` and the selectors it probed. */
  datatype Check = Check(loggedIn: bool, probes: seq<Selector>)

  /** The URL rule of `_is_logged_in`. */
  predicate UrlSaysLoggedIn(url: string, baseUrl: string) {
    !Contains(url, "/login") && Contains(url, baseUrl)
  }

  /** `_is_logged_in` on a view: the URL rule, else whether some indicator resolves. */
  function Detect(baseUrl: string, indicators: seq<Selector>, view: View): (c: Check)
    ensures UrlSaysLoggedIn(view.url, baseUrl) ==> c == Check(true, [])
    ensures !UrlSaysLoggedIn(view.url, baseUrl) ==>
      (c.loggedIn <==> exists j :: 0 <= j < |indicators| && indicators[j] in view.matching)
  {
    if UrlSaysLoggedIn(view.url, baseUrl) then Check(true, [])
    else Check(FirstMatch(indicators, view.matching).Some?, Probed(indicators, view.matching))
  }

  /** Why `login` returned what it did; it returns true exactly for the first two. */
  datatype Reason = AlreadyLoggedIn | LoggedIn | NoEmailField | NoPasswordField | NoLoginButton
                  | NotLoggedIn | Raised
  {
    predicate Succeeded() { this == AlreadyLoggedIn || this == LoggedIn }
  }

  /** A run of `login`: its reason, the page history after it, its probes, and whether it saves. */
  datatype LoginRun = LoginRun(reason: Reason, history: seq<Action>, probes: seq<Selector>, saves: bool)

  /** `login` from the point the login page has loaded and is not logged in. */
  function EnterCredentials(env: seq<Action> -> View, h: seq<Action>, s: Selectors, baseUrl: string,
                            email: string, password: string): LoginRun
  {
    match FirstMatch(s.email, env(h).matching)
    case None => LoginRun(NoEmailField, h, s.email, false)
    case Some(e) =>
      var h1 := h + [Fill(s.email[e], email)];
      var p1 := s.email[..e + 1];
      if env(h1).raised then LoginRun(Raised, h1, p1, false)
      else
        var r := EnterPassword(env, h1, s, baseUrl, password);
        r.(probes := p1 + r.probes)
  }

  /** `login` from the point the email is typed: find the password field, type, submit. */
  function EnterPassword(env: seq<Action> -> View, h: seq<Action>, s: Selectors, baseUrl: string,
                         password: string): LoginRun
  {
    match FirstMatch(s.password, env(h).matching)
    case None => LoginRun(NoPasswordField, h, s.password, false)
    case Some(p) =>
      var h1 := h + [Fill(s.password[p], password)];
      var p1 := s.password[..p + 1];
      if env(h1).raised then LoginRun(Raised, h1, p1, false)
      else
        var r := Submit(env, h1, s, baseUrl);
        r.(probes := p1 + r.probes)
  }

  /** `login` from the point both fields are filled: find the button, click, check again. */
  function Submit(env: seq<Action> -> View, h: seq<Action>, s: Selectors, baseUrl: string): LoginRun {
    match FirstMatch(s.login, env(h).matching)
    case None => LoginRun(NoLoginButton, h, s.login, false)
    case Some(b) =>
      var h1 := h + [Click(s.login[b])];
      var p1 := s.login[..b + 1];
      if env(h1).raised then LoginRun(Raised, h1, p1, false)
      else
        var c := Detect(baseUrl, s.indicators, env(h1));
        LoginRun(if c.loggedIn then LoggedIn else NotLoggedIn, h1, p1 + c.probes, c.loggedIn)
  }

  /** `login` from history `h`. */
  function RunLogin(env: seq<Action> -> View, h: seq<Action>, s: Selectors, baseUrl: string,
                    loginUrl: string, email: string, password: string): LoginRun
  {
    var h1 := h + [Goto(loginUrl)];
    if env(h1).raised then LoginRun(Raised, h1, [], false)
    else
      var c := Detect(baseUrl, s.indicators, env(h1));
      if c.loggedIn then LoginRun(AlreadyLoggedIn, h1, c.probes, false)
      else
        var r := EnterCredentials(env, h1, s, baseUrl, email, password);
        r.(probes := c.probes + r.probes)
  }

  /** A run of a navigation step: its result, the page history after it, its probes. */
  datatype StepRun = StepRun(ok: bool, history: seq<Action>, probes: seq<Selector>)

  /**
   * `navigate_to_user_search` and `click_user_profile`: try each candidate in turn; one that
   * does not resolve, or whose click raises, is skipped.
   */
  function ClickFirst(env: seq<Action> -> View, h: seq<Action>, sels: seq<Selector>): StepRun
    decreases |sels|
  {
    if sels == [] then StepRun(false, h, [])
    else if sels[0] !in env(h).matching then
      var r := ClickFirst(env, h, sels[1..]);
      r.(probes := [sels[0]] + r.probes)
    else
      var h1 := h + [Click(sels[0])];
      if !env(h1).raised then StepRun(true, h1, [sels[0]])
      else
        var r := ClickFirst(env, h1, sels[1..]);
        r.(probes := [sels[0]] + r.probes)
  }

  /** `search_user_by_nickname` from history `h`. */
  function RunSearch(env: seq<Action> -> View, h: seq<Action>, s: Selectors, nickname: string): StepRun {
    match FirstMatch(s.searchInput, env(h).matching)
    case None => StepRun(false, h, s.searchInput)
    case Some(i) =>
      var input := s.searchInput[i];
      var h1 := h + [Fill(input, nickname)];
      var p1 := s.searchInput[..i + 1];
      if env(h1).raised then StepRun(false, h1, p1)
      else
        var submit := match FirstMatch(s.searchButton, env(h1).matching)
          case Some(b) => Click(s.searchButton[b])
          case None => PressEnter(input);
        var h2 := h1 + [submit];
        StepRun(!env(h2).raised, h2, p1 + Probed(s.searchButton, env(h1).matching))
  }

  /** Already logged in on the login page: true, with no fill, no click and no save. */
  lemma AlreadyLoggedInShortCircuits(env: seq<Action> -> View, h: seq<Action>, s: Selectors,
                                     baseUrl: string, loginUrl: string, email: string, password: string)
    requires !env(h + [Goto(loginUrl)]).raised
    requires Detect(baseUrl, s.indicators, env(h + [Goto(loginUrl)])).loggedIn
    ensures RunLogin(env, h, s, baseUrl, loginUrl, email, password)
         == LoginRun(AlreadyLoggedIn, h + [Goto(loginUrl)], Detect(baseUrl, s.indicators, env(h + [Goto(loginUrl)])).probes, false)
  {
  }

  /**
   * What `login` does to the page, by outcome: a missing email field stops before any
   * typing, a missing password field after the email only, a missing button after both
   * fields; a run that reaches the second check has typed both and clicked a login button.
   */
  lemma LoginActions(env: seq<Action> -> View, h: seq<Action>, s: Selectors,
                     baseUrl: string, loginUrl: string, email: string, password: string)
    ensures
      var run := RunLogin(env, h, s, baseUrl, loginUrl, email, password);
      && |run.history| > |h| && run.history[..|h|] == h && run.history[|h|] == Goto(loginUrl)
      && (run.reason == AlreadyLoggedIn || run.reason == NoEmailField ==> |run.history| == |h| + 1)
      && (run.reason == NoPasswordField ==>
            |run.history| == |h| + 2 && run.history[|h| + 1].Fill? && run.history[|h| + 1].text == email
            && run.history[|h| + 1].target in s.email)
      && (run.reason == NoLoginButton ==>
            |run.history| == |h| + 3 && run.history[|h| + 1].Fill? && run.history[|h| + 1].text == email
            && run.history[|h| + 1].target in s.email
            && run.history[|h| + 2].Fill? && run.history[|h| + 2].text == password
            && run.history[|h| + 2].target in s.password)
      && (run.reason == LoggedIn || run.reason == NotLoggedIn ==>
            |run.history| == |h| + 4 && run.history[|h| + 1].Fill? && run.history[|h| + 1].text == email
            && run.history[|h| + 1].target in s.email
            && run.history[|h| + 2].Fill? && run.history[|h| + 2].text == password
            && run.history[|h| + 2].target in s.password
            && run.history[|h| + 3].Click? && run.history[|h| + 3].target in s.login)
  {
    var h1 := h + [Goto(loginUrl)];
    var run := RunLogin(env, h, s, baseUrl, loginUrl, email, password);
    if !env(h1).raised && !Detect(baseUrl, s.indicators, env(h1)).loggedIn {
      var e := FirstMatch(s.email, env(h1).matching);
      if e.Some? {
        var h2 := h1 + [Fill(s.email[e.value], email)];
        var p := FirstMatch(s.password, env(h2).matching);
        if !env(h2).raised && p.Some? {
          var h3 := h2 + [Fill(s.password[p.value], password)];
          var b := FirstMatch(s.login, env(h3).matching);
          if !env(h3).raised && b.Some? {
            assert run.history == h3 + [Click(s.login[b.value])];
          }
        }
      }
    }
  }

  /**
   * After the click, `login` saves the cookies exactly when the second check passes and
   * returns exactly that; whenever it returns true the page it ends on is logged in.
   */
  lemma LoginResult(env: seq<Action> -> View, h: seq<Action>, s: Selectors,
                    baseUrl: string, loginUrl: string, email: string, password: string)
    ensures
      var run := RunLogin(env, h, s, baseUrl, loginUrl, email, password);
      && (run.saves <==> run.reason == LoggedIn)
      && (run.reason.Succeeded() ==>
            !env(run.history).raised && Detect(baseUrl, s.indicators, env(run.history)).loggedIn)
      && (run.reason == LoggedIn || run.reason == NotLoggedIn ==>
            (run.reason.Succeeded() <==> Detect(baseUrl, s.indicators, env(run.history)).loggedIn))
  {
    var h1 := h + [Goto(loginUrl)];
    if !env(h1).raised && !Detect(baseUrl, s.indicators, env(h1)).loggedIn {
      var e := FirstMatch(s.email, env(h1).matching);
      if e.Some? {
        var h2 := h1 + [Fill(s.email[e.value], email)];
        var p := FirstMatch(s.password, env(h2).matching);
        if !env(h2).raised && p.Some? {
          var h3 := h2 + [Fill(s.password[p.value], password)];
          var b := FirstMatch(s.login, env(h3).matching);
          if !env(h3).raised && b.Some? {
            var run := RunLogin(env, h, s, baseUrl, loginUrl, email, password);
            assert run.history == h3 + [Click(s.login[b.value])];
          }
        }
      }
    }
  }

  /** Every lookup of `login` probes a prefix of its list, in order, stopping at the match. */
  lemma LookupProbesInOrder(sels: seq<Selector>, matching: set<Selector>)
    ensures Probed(sels, matching) == sels[..|Probed(sels, matching)|]
    ensures FirstMatch(sels, matching).Some? <==>
      (|Probed(sels, matching)| > 0 && Probed(sels, matching)[|Probed(sels, matching)| - 1] in matching)
  {
    if FirstMatch(sels, matching).None? && |sels| > 0 {
      assert sels[|sels| - 1] !in matching;
    }
  }

  /** With an empty `base_url` (the default) every URL without "/login" counts as logged in. */
  lemma EmptyBaseUrlTrustsAnyUrl(indicators: seq<Selector>, view: View)
    requires !Contains(view.url, "/login")
    ensures Detect("", indicators, view) == Check(true, [])
  {
    assert StartsWith(view.url, "");
  }

  /** The navigation steps only ever click candidates, after the history they start from. */
  lemma {:induction false} ClickFirstActions(env: seq<Action> -> View, h: seq<Action>, sels: seq<Selector>)
    ensures
      var r := ClickFirst(env, h, sels);
      && |r.history| >= |h| && r.history[..|h|] == h
      && forall k :: |h| <= k < |r.history| ==> r.history[k].Click? && r.history[k].target in sels
    decreases |sels|
  {
    if sels != [] {
      var h1 := h + [Click(sels[0])];
      if sels[0] !in env(h).matching {
        ClickFirstActions(env, h, sels[1..]);
      } else if env(h1).raised {
        ClickFirstActions(env, h1, sels[1..]);
        var r := ClickFirst(env, h1, sels[1..]);
        assert r.history[..|h|] == r.history[..|h1|][..|h|];
      }
    }
  }

  /**
   * The navigation steps probe their candidates in order: all of them when the result is
   * false, and up to the one whose click succeeded when it is true.
   */
  lemma {:induction false} ClickFirstProbes(env: seq<Action> -> View, h: seq<Action>, sels: seq<Selector>)
    ensures
      var r := ClickFirst(env, h, sels);
      && (!r.ok ==> r.probes == sels)
      && (r.ok ==> 0 < |r.probes| <= |sels| && r.probes == sels[..|r.probes|])
    decreases |sels|
  {
    if sels != [] {
      var h1 := h + [Click(sels[0])];
      var next := if sels[0] !in env(h).matching then h else h1;
      if sels[0] !in env(h).matching || env(h1).raised {
        ClickFirstProbes(env, next, sels[1..]);
        var r := ClickFirst(env, next, sels[1..]);
        if r.ok {
          assert [sels[0]] + sels[1..][..|r.probes|] == sels[..|r.probes| + 1];
        }
      }
    }
  }

  /** A true result ends with a click on the last candidate probed, and that click did not raise. */
  lemma {:induction false} ClickFirstSuccess(env: seq<Action> -> View, h: seq<Action>, sels: seq<Selector>)
    requires ClickFirst(env, h, sels).ok
    ensures
      var r := ClickFirst(env, h, sels);
      && |r.probes| > 0 && |r.history| > |h|
      && r.history[|r.history| - 1] == Click(r.probes[|r.probes| - 1])
      && r.probes[|r.probes| - 1] in env(r.history[..|r.history| - 1]).matching
      && !env(r.history).raised
    decreases |sels|
  {
    var h1 := h + [Click(sels[0])];
    if sels[0] !in env(h).matching {
      ClickFirstSuccess(env, h, sels[1..]);
    } else if env(h1).raised {
      ClickFirstSuccess(env, h1, sels[1..]);
    } else {
      assert ClickFirst(env, h, sels).history[..|h1| - 1] == h;
    }
  }

  /**
   * `search_user_by_nickname`: no search box means false and no action; otherwise the
   * nickname is typed into the first box found, then the first button found is clicked or,
   * when there is none, Enter is pressed in the box.
   */
  lemma SearchOutcome(env: seq<Action> -> View, h: seq<Action>, s: Selectors, nickname: string)
    ensures
      var r := RunSearch(env, h, s, nickname);
      var input := FirstMatch(s.searchInput, env(h).matching);
      && (input.None? ==> !r.ok && r.history == h)
      && (input.Some? ==>
            |r.history| > |h| && r.history[..|h|] == h && r.history[|h|] == Fill(s.searchInput[input.value], nickname))
      && (r.ok ==>
            && input.Some? && |r.history| == |h| + 2
            && var h1 := h + [Fill(s.searchInput[input.value], nickname)];
               var button := FirstMatch(s.searchButton, env(h1).matching);
               r.history[|h| + 1] ==
                 if button.Some? then Click(s.searchButton[button.value]) else PressEnter(s.searchInput[input.value]))
  {
  }

  /** A run of the remaining candidates after the candidates `p` were probed and skipped. */
  function Prepend(p: seq<Selector>, r: StepRun): StepRun {
    StepRun(r.ok, r.history, p + r.probes)
  }

  /**
   * One step of `ClickFirst` at candidate `i`: the run so far is extended by skipping the
   * candidate, or ends with true on a click that does not raise.
   */
  lemma ClickFirstStep(env: seq<Action> -> View, h: seq<Action>, sels: seq<Selector>, i: nat)
    requires i < |sels|
    ensures
      var h1 := h + [Click(sels[i])];
      Prepend(sels[..i], ClickFirst(env, h, sels[i..])) ==
        if sels[i] !in env(h).matching then Prepend(sels[..i + 1], ClickFirst(env, h, sels[i + 1..]))
        else if !env(h1).raised then StepRun(true, h1, sels[..i + 1])
        else Prepend(sels[..i + 1], ClickFirst(env, h1, sels[i + 1..]))
  {
    assert sels[i..][1..] == sels[i + 1..];
    assert sels[..i + 1] == sels[..i] + [sels[i]];
  }

  class Authenticator {
    const page: Page
    /** The candidate lists the methods try. */
    const selectors: Selectors
    /** The session directory; `session_file` is its cookies file. */
    const files: SessionFiles
    /** `settings.target_site.base_url` and `settings.target_site.login_url`. */
    const baseUrl: string
    const loginUrl: string

    constructor (page: Page, files: SessionFiles, baseUrl: string, loginUrl: string)
      ensures this.page == page && this.files == files && selectors == TradeIslandSelectors
      ensures this.baseUrl == baseUrl && this.loginUrl == loginUrl
    {
      this.page := page;
      selectors := TradeIslandSelectors;
      this.files := files;
      this.baseUrl := baseUrl;
      this.loginUrl := loginUrl;
    }

    /** One `for selector in ...: wait_for_selector ... break` lookup. */
    method FindFirst(sels: seq<Selector>) returns (found: Option<nat>)
      modifies page`probes
      ensures found == FirstMatch(sels, page.Current().matching)
      ensures page.probes == old(page.probes) + Probed(sels, page.Current().matching)
    {
      found := None;
      var i := 0;
      while i < |sels|
        invariant 0 <= i <= |sels|
        invariant page.history == old(page.history)
        invariant forall j :: 0 <= j < i ==> sels[j] !in page.Current().matching
        invariant page.probes == old(page.probes) + sels[..i]
      {
        var hit := page.WaitForSelector(sels[i]);
        if hit {
          found := Some(i);
          assert page.probes == old(page.probes) + sels[..i + 1];
          return;
        }
        i := i + 1;
      }
      assert sels[..i] == sels;
    }

    /** `_is_logged_in`: it probes but never acts on the page. */
    method IsLoggedIn() returns (loggedIn: bool)
      modifies page`probes
      ensures loggedIn == Detect(baseUrl, selectors.indicators, page.Current()).loggedIn
      ensures page.probes == old(page.probes) + Detect(baseUrl, selectors.indicators, page.Current()).probes
    {
      var url := page.Current().url;
      if !Contains(url, "/login") && Contains(url, baseUrl) {
        return true;
      }
      var found := FindFirst(selectors.indicators);
      loggedIn := found.Some?;
    }

    /**
     * `_save_session`: overwrites the cookies file only, and swallows a failed write (which
     * leaves the file as it was or, once truncated, unloadable).
     */
    method SaveSession(write: WriteOutcome)
      modifies files`cookies
      ensures files.cookies == Overwrite(old(files.cookies), page.Current().cookies, write)
    {
      files.cookies := Overwrite(files.cookies, page.Current().cookies, write);
    }

    /** `_load_session`: restores the cookies file whenever it loads, whatever the metadata says. */
    method LoadSession()
      modifies page`history
      ensures page.history == old(page.history) +
        (if files.cookies.Present? then [AddCookies(files.cookies.content)] else [])
    {
      if files.cookies.Present? {
        var _ := page.Perform(AddCookies(files.cookies.content));
      }
    }

    /** `login`. `save` says how writing the cookies file would end. */
    method Login(email: string, password: string, save: WriteOutcome) returns (ok: bool)
      modifies page, files`cookies
      ensures
        var run := RunLogin(page.env, old(page.history), selectors, baseUrl, loginUrl, email, password);
        && ok == run.reason.Succeeded()
        && page.history == run.history
        && page.probes == old(page.probes) + run.probes
        && files.cookies == if run.saves then Overwrite(old(files.cookies), page.Current().cookies, save) else old(files.cookies)
    {
      var raised := page.Perform(Goto(loginUrl));
      if raised {
        return false;
      }
      ghost var p0 := page.probes;
      var already := IsLoggedIn();
      if already {
        return true;
      }
      ghost var p1 := page.probes;
      ok := FillAndSubmit(email, password, save);
      assert page.probes == old(page.probes) + (p1[|old(page.probes)|..] + page.probes[|p1|..]);
    }

    /** The part of `login` after the login page has loaded and is not logged in. */
    method FillAndSubmit(email: string, password: string, save: WriteOutcome) returns (ok: bool)
      modifies page, files`cookies
      ensures
        var run := EnterCredentials(page.env, old(page.history), selectors, baseUrl, email, password);
        && ok == run.reason.Succeeded()
        && page.history == run.history
        && page.probes == old(page.probes) + run.probes
        && files.cookies == if run.saves then Overwrite(old(files.cookies), page.Current().cookies, save) else old(files.cookies)
    {
      ghost var p0 := page.probes;
      var e := FindFirst(selectors.email);
      if e.None? {
        return false;
      }
      var raised := page.Perform(Fill(selectors.email[e.value], email));
      if raised {
        return false;
      }
      ghost var p1 := page.probes;
      ok := FillPasswordAndSubmit(password, save);
      assert page.probes == p0 + (selectors.email[..e.value + 1] + page.probes[|p1|..]);
    }

    /** The part of `login` after the email is typed. */
    method FillPasswordAndSubmit(password: string, save: WriteOutcome) returns (ok: bool)
      modifies page, files`cookies
      ensures
        var run := EnterPassword(page.env, old(page.history), selectors, baseUrl, password);
        && ok == run.reason.Succeeded()
        && page.history == run.history
        && page.probes == old(page.probes) + run.probes
        && files.cookies == if run.saves then Overwrite(old(files.cookies), page.Current().cookies, save) else old(files.cookies)
    {
      ghost var p0 := page.probes;
      var p := FindFirst(selectors.password);
      if p.None? {
        return false;
      }
      var raised := page.Perform(Fill(selectors.password[p.value], password));
      if raised {
        return false;
      }
      ghost var p1 := page.probes;
      ok := SubmitLogin(save);
      assert page.probes == p0 + (selectors.password[..p.value + 1] + page.probes[|p1|..]);
    }

    /** The part of `login` after both fields are filled. */
    method SubmitLogin(save: WriteOutcome) returns (ok: bool)
      modifies page, files`cookies
      ensures
        var run := Submit(page.env, old(page.history), selectors, baseUrl);
        && ok == run.reason.Succeeded()
        && page.history == run.history
        && page.probes == old(page.probes) + run.probes
        && files.cookies == if run.saves then Overwrite(old(files.cookies), page.Current().cookies, save) else old(files.cookies)
    {
      ghost var p0 := page.probes;
      var b := FindFirst(selectors.login);
      if b.None? {
        return false;
      }
      var raised := page.Perform(Click(selectors.login[b.value]));
      if raised {
        return false;
      }
      ok := IsLoggedIn();
      assert page.probes == p0 + (selectors.login[..b.value + 1] + Detect(baseUrl, selectors.indicators, page.Current()).probes);
      if ok {
        SaveSession(save);
      }
    }

    /** `navigate_to_user_search`. */
    method NavigateToUserSearch() returns (ok: bool)
      modifies page
      ensures
        var run := ClickFirst(page.env, old(page.history), selectors.searchTab);
        ok == run.ok && page.history == run.history && page.probes == old(page.probes) + run.probes
    {
      ok := ClickFirstOf(selectors.searchTab);
    }

    /** `click_user_profile`. */
    method ClickUserProfile(nickname: string) returns (ok: bool)
      modifies page
      ensures
        var run := ClickFirst(page.env, old(page.history), ProfileSelectors(nickname));
        ok == run.ok && page.history == run.history && page.probes == old(page.probes) + run.probes
    {
      ok := ClickFirstOf(ProfileSelectors(nickname));
    }

    /** The loop the two navigation steps share: click the first candidate that works. */
    method ClickFirstOf(sels: seq<Selector>) returns (ok: bool)
      modifies page
      ensures
        var run := ClickFirst(page.env, old(page.history), sels);
        ok == run.ok && page.history == run.history && page.probes == old(page.probes) + run.probes
    {
      ghost var run := ClickFirst(page.env, page.history, sels);
      var i := 0;
      while i < |sels|
        invariant 0 <= i <= |sels|
        invariant run == Prepend(sels[..i], ClickFirst(page.env, page.history, sels[i..]))
        invariant page.probes == old(page.probes) + sels[..i]
      {
        ClickFirstStep(page.env, page.history, sels, i);
        var hit := page.WaitForSelector(sels[i]);
        if hit {
          var raised := page.Perform(Click(sels[i]));
          if !raised {
            return true;
          }
        }
        i := i + 1;
      }
      ok := false;
    }

    /** `search_user_by_nickname`. */
    method SearchUserByNickname(nickname: string) returns (ok: bool)
      modifies page
      ensures
        var run := RunSearch(page.env, old(page.history), selectors, nickname);
        ok == run.ok && page.history == run.history && page.probes == old(page.probes) + run.probes
    {
      ghost var p0 := page.probes;
      var i := FindFirst(selectors.searchInput);
      if i.None? {
        return false;
      }
      var input := selectors.searchInput[i.value];
      var raised := page.Perform(Fill(input, nickname));
      if raised {
        return false;
      }
      var b := FindFirst(selectors.searchButton);
      assert page.probes == p0 + (selectors.searchInput[..i.value + 1] + Probed(selectors.searchButton, page.Current().matching));
      if b.Some? {
        raised := page.Perform(Click(selectors.searchButton[b.value]));
      } else {
        raised := page.Perform(PressEnter(input));
      }
      ok := !raised;
    }
  }
}
