/**
 * The browser page the authenticator drives, as an oracle. How the page looks (its URL,
 * which selectors resolve, its cookies, whether the last action raised) is a function of
 * the actions performed so far; what it does after a click, a fill or a navigation is
 * whatever that function says. Load-state waits and selector timeouts are folded into it:
 * a probe that times out is a selector that does not resolve, and a failing wait after an
 * action is that action raising.
 */
module Browser {
  /** A CSS or Playwright text selector, an uninterpreted string. */
  type Selector = string

  /** A cookie as `context.cookies()` reports it; `expires` in whole seconds. */
  datatype Cookie = Cookie(
    name: string, value: string, domain: string, path: string,
    expires: int, httpOnly: bool, secure: bool, sameSite: string)

  /** The actions that change a page: navigation, typing, clicking, key presses, cookies. */
  datatype Action =
    | Goto(url: string)
    | Fill(target: Selector, text: string)
    | Click(target: Selector)
    | PressEnter(target: Selector)
    | AddCookies(cookies: seq<Cookie>)

  /** What the page shows after a history of actions. */
  datatype View = View(url: string, matching: set<Selector>, cookies: seq<Cookie>, raised: bool)

  class Page {
    /** The page's behaviour: its view after each history of actions. */
    const env: seq<Action> -> View
    /** The actions performed on the page, oldest first. */
    var history: seq<Action>
    /** The selectors probed with `wait_for_selector`, oldest first. */
    var probes: seq<Selector>

    constructor (env: seq<Action> -> View)
      ensures this.env == env && history == [] && probes == []
    {
      this.env := env;
      history := [];
      probes := [];
    }

    /** The current view. */
    function Current(): View
      reads this
    {
      env(history)
    }

    /** `wait_for_selector`: whether the selector resolves now; probing changes nothing else. */
    method WaitForSelector(sel: Selector) returns (found: bool)
      modifies this`probes
      ensures found <==> sel in Current().matching
      ensures probes == old(probes) + [sel]
    {
      found := sel in env(history).matching;
      probes := probes + [sel];
    }

    /** Perform an action; `raised` is whether it (or the wait after it) raised. */
    method Perform(a: Action) returns (raised: bool)
      modifies this`history
      ensures history == old(history) + [a]
      ensures raised == Current().raised
    {
      history := history + [a];
      raised := env(history).raised;
    }
  }
}
