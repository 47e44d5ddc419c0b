/**
 * `Settings._override_with_env_vars` (scraping/config/settings.py): environment variables
 * written into the nested configuration dictionary loaded from YAML, each at its fixed path,
 * creating missing sections on the way (`setdefault(key, {})`).
 */
module Settings {
  import opened Wrappers
  import opened Text

  /** A YAML value: a section (dictionary), a string, a boolean, or anything else. */
  datatype Value = Section(entries: map<string, Value>) | Str(s: string) | Flag(b: bool) | Other

  type Config = map<string, Value>

  /** The value under `path`, if every step exists and every inner step is a section. */
  function Lookup(c: Config, path: seq<string>): Option<Value>
    requires |path| >= 1
    decreases |path|
  {
    if path[0] !in c then None
    else if |path| == 1 then Some(c[path[0]])
    else if c[path[0]].Section? then Lookup(c[path[0]].entries, path[1..])
    else None
  }

  /**
   * Writing `v` at `path` into `c`: the walk `current = current.setdefault(key, {})` and the
   * final store. `None` is the `AttributeError`/`TypeError` raised when a step exists but
   * is not a dictionary.
   */
  function SetPath(c: Config, path: seq<string>, v: Value): Option<Config>
    requires |path| >= 1
    decreases |path|, 0
  {
    match Written(if path[0] in c then Some(c[path[0]]) else None, path[1..], v)
    case None => None
    case Some(x) => Some(c[path[0] := x])
  }

  /** The new value of one key, given its current value (if any) and the rest of the path. */
  function Written(current: Option<Value>, rest: seq<string>, v: Value): Option<Value>
    decreases |rest|, 1
  {
    if rest == [] then Some(v)
    else if current.Some? && !current.value.Section? then None
    else
      var entries := if current.Some? then current.value.entries else map[];
      match SetPath(entries, rest, v)
      case None => None
      case Some(e) => Some(Section(e))
  }

  /** Every existing step of the walk (all keys but the last) is a section. */
  predicate Walkable(c: Config, path: seq<string>)
    requires |path| >= 1
    decreases |path|
  {
    |path| == 1 ||
    (path[0] !in c || (c[path[0]].Section? && Walkable(c[path[0]].entries, path[1..])))
  }

  /** The write fails exactly when some existing inner step is not a section. */
  lemma {:induction false} SetPathFails(c: Config, path: seq<string>, v: Value)
    requires |path| >= 1
    ensures SetPath(c, path, v).Some? <==> Walkable(c, path)
    decreases |path|
  {
    if |path| > 1 {
      if path[0] in c && c[path[0]].Section? {
        SetPathFails(c[path[0]].entries, path[1..], v);
      } else if path[0] !in c {
        SetPathOnEmpty(path[1..], v);
      }
    }
  }

  /** Writing into an empty section always succeeds (every section on the way is created). */
  lemma {:induction false} SetPathOnEmpty(path: seq<string>, v: Value)
    requires |path| >= 1
    ensures SetPath(map[], path, v).Some?
    decreases |path|
  {
    if |path| > 1 {
      SetPathOnEmpty(path[1..], v);
    }
  }

  /** After the write, the value sits at its path. */
  lemma {:induction false} SetPathStores(c: Config, path: seq<string>, v: Value)
    requires |path| >= 1 && SetPath(c, path, v).Some?
    ensures Lookup(SetPath(c, path, v).value, path) == Some(v)
    decreases |path|
  {
    if |path| > 1 {
      var entries := if path[0] in c then c[path[0]].entries else map[];
      SetPathStores(entries, path[1..], v);
    }
  }

  /** Two paths that part somewhere: neither is a prefix of the other. */
  predicate Disjoint(p: seq<string>, q: seq<string>)
    decreases |p|
  {
    |p| >= 1 && |q| >= 1 && (p[0] != q[0] || Disjoint(p[1..], q[1..]))
  }

  /** A write leaves every path that parts from it as it was. */
  lemma {:induction false} SetPathFrame(c: Config, path: seq<string>, v: Value, other: seq<string>)
    requires |path| >= 1 && SetPath(c, path, v).Some? && Disjoint(path, other)
    ensures Lookup(SetPath(c, path, v).value, other) == Lookup(c, other)
    decreases |path|
  {
    if path[0] == other[0] {
      var entries := if path[0] in c then c[path[0]].entries else map[];
      SetPathFrame(entries, path[1..], v, other[1..]);
      if path[0] !in c && |other| > 1 {
        LookupEmpty(other[1..]);
      }
    }
  }

  lemma LookupEmpty(path: seq<string>)
    requires |path| >= 1
    ensures Lookup(map[], path) == None
  {
  }

  /** Every section along the path exists after the write, created empty when it was missing. */
  lemma {:induction false} SetPathCreatesSections(c: Config, path: seq<string>, v: Value, i: nat)
    requires |path| >= 1 && SetPath(c, path, v).Some? && 1 <= i < |path|
    ensures Lookup(SetPath(c, path, v).value, path[..i]).Some?
    ensures Lookup(SetPath(c, path, v).value, path[..i]).value.Section?
    decreases |path|
  {
    var entries := if path[0] in c then c[path[0]].entries else map[];
    if i > 1 {
      SetPathCreatesSections(entries, path[1..], v, i - 1);
      assert path[..i][1..] == path[1..][..i - 1];
    }
  }

  /** The entries of the section under `k`, or none when `k` is missing. */
  function EntriesAt(c: Config, k: string): Config
    requires k !in c || c[k].Section?
  {
    if k in c then c[k].entries else map[]
  }

  /** Storing a rebuilt section under `k`. */
  function Lift(c: Config, k: string, inner: Option<Config>): Option<Config> {
    match inner
    case None => None
    case Some(e) => Some(c[k := Section(e)])
  }

  /** A write below an existing or missing section rewrites that section. */
  lemma SetPathUnfold(c: Config, path: seq<string>, v: Value)
    requires |path| >= 2 && (path[0] !in c || c[path[0]].Section?)
    ensures SetPath(c, path, v) == Lift(c, path[0], SetPath(EntriesAt(c, path[0]), path[1..], v))
  {
  }

  /** A second write below the section just stored under `k` rewrites that section again. */
  lemma SetPathAfterLift(c: Config, k: string, e: Config, path: seq<string>, v: Value)
    requires |path| >= 2 && path[0] == k
    ensures SetPath(c[k := Section(e)], path, v) == Lift(c, k, SetPath(e, path[1..], v))
  {
    SetPathUnfold(c[k := Section(e)], path, v);
    assert EntriesAt(c[k := Section(e)], k) == e;
    match SetPath(e, path[1..], v) {
      case None =>
      case Some(e1) =>
        assert c[k := Section(e)][k := Section(e1)] == c[k := Section(e1)];
    }
  }

  /** Two writes below one section, when they commute there. */
  lemma SetPathCommutesBelow(c: Config, p: seq<string>, v: Value, q: seq<string>, w: Value)
    requires |p| >= 2 && |q| >= 2 && p[0] == q[0] && (p[0] !in c || c[p[0]].Section?)
    requires
      var e := EntriesAt(c, p[0]);
      (match SetPath(e, p[1..], v) case None => None case Some(e1) => SetPath(e1, q[1..], w)) ==
      (match SetPath(e, q[1..], w) case None => None case Some(e2) => SetPath(e2, p[1..], v))
    ensures
      (match SetPath(c, p, v) case None => None case Some(c1) => SetPath(c1, q, w)) ==
      (match SetPath(c, q, w) case None => None case Some(c2) => SetPath(c2, p, v))
  {
    var k := p[0];
    var e := EntriesAt(c, k);
    SetPathUnfold(c, p, v);
    SetPathUnfold(c, q, w);
    match SetPath(e, p[1..], v) {
      case None =>
      case Some(e1) => SetPathAfterLift(c, k, e1, q, w);
    }
    match SetPath(e, q[1..], w) {
      case None =>
      case Some(e2) => SetPathAfterLift(c, k, e2, p, v);
    }
  }

  /** Writes at paths that part commute, failures included. */
  lemma {:induction false} SetPathCommutes(c: Config, p: seq<string>, v: Value, q: seq<string>, w: Value)
    requires Disjoint(p, q)
    ensures
      (match SetPath(c, p, v) case None => None case Some(c1) => SetPath(c1, q, w)) ==
      (match SetPath(c, q, w) case None => None case Some(c2) => SetPath(c2, p, v))
    decreases |p|
  {
    if p[0] == q[0] {
      var k := p[0];
      if k !in c || c[k].Section? {
        SetPathCommutes(EntriesAt(c, k), p[1..], v, q[1..], w);
        SetPathCommutesBelow(c, p, v, q, w);
      }
    } else {
      SetPathCommutesApart(c, p, v, q, w);
    }
  }

  /** Writes under different top-level keys touch different entries. */
  lemma SetPathCommutesApart(c: Config, p: seq<string>, v: Value, q: seq<string>, w: Value)
    requires |p| >= 1 && |q| >= 1 && p[0] != q[0]
    ensures
      (match SetPath(c, p, v) case None => None case Some(c1) => SetPath(c1, q, w)) ==
      (match SetPath(c, q, w) case None => None case Some(c2) => SetPath(c2, p, v))
  {
    var a := Written(if p[0] in c then Some(c[p[0]]) else None, p[1..], v);
    var b := Written(if q[0] in c then Some(c[q[0]]) else None, q[1..], w);
    if a.Some? && b.Some? {
      assert c[p[0] := a.value][q[0] := b.value] == c[q[0] := b.value][p[0] := a.value];
    }
  }

  /** `env_mappings`, in its order. */
  const EnvMappings: seq<(string, seq<string>)> := [
    ("SCRAPING_USERNAME", ["auth", "username"]),
    ("SCRAPING_PASSWORD", ["auth", "password"]),
    ("TARGET_SITE_BASE_URL", ["target_site", "base_url"]),
    ("TARGET_SITE_LOGIN_URL", ["target_site", "login_url"]),
    ("TARGET_SITE_DATA_URL", ["target_site", "data_url"]),
    ("LOG_LEVEL", ["logging", "level"]),
    ("OUTPUT_DIR", ["export", "output_dir"]),
    ("BROWSER_HEADLESS", ["scraping", "browser", "headless"])]

  /** The stored value: `BROWSER_HEADLESS` becomes a boolean, every other variable stays text. */
  function Converted(name: string, raw: string): (r: Value)
    ensures r.Flag? <==> name == "BROWSER_HEADLESS"
    ensures r.Str? ==> r.s == raw
  {
    if name == "BROWSER_HEADLESS" then Flag(Lower(raw) == "true") else Str(raw)
  }

  /**
   * `BROWSER_HEADLESS` is true exactly for the four letters of "true" in any letter case;
   * every other text ("1", "yes", " true") is false.
   */
  lemma HeadlessSpellings(raw: string)
    ensures Converted("BROWSER_HEADLESS", raw) == Flag(true) <==>
      |raw| == 4 && (raw[0] == 't' || raw[0] == 'T') && (raw[1] == 'r' || raw[1] == 'R')
      && (raw[2] == 'u' || raw[2] == 'U') && (raw[3] == 'e' || raw[3] == 'E')
    ensures Converted("BROWSER_HEADLESS", raw) != Flag(true) ==> Converted("BROWSER_HEADLESS", raw) == Flag(false)
  {
    if |raw| == 4 {
      var l := Lower(raw);
      assert l == "true" <==> l[0] == 't' && l[1] == 'r' && l[2] == 'u' && l[3] == 'e';
    }
  }

  /** What one mapping does: nothing when the variable is unset, a write when it is set. */
  function Step(c: Config, m: (string, seq<string>), env: map<string, string>): Option<Config>
    requires |m.1| >= 1
  {
    if m.0 !in env then Some(c) else SetPath(c, m.1, Converted(m.0, env[m.0]))
  }

  predicate WellFormed(ms: seq<(string, seq<string>)>) {
    forall i :: 0 <= i < |ms| ==> |ms[i].1| >= 1
  }

  /** The mappings applied in order; the first failing write ends the whole override. */
  function Apply(c: Config, ms: seq<(string, seq<string>)>, env: map<string, string>): Option<Config>
    requires WellFormed(ms)
    decreases |ms|
  {
    if ms == [] then Some(c)
    else
      match Step(c, ms[0], env)
      case None => None
      case Some(c1) => Apply(c1, ms[1..], env)
  }

  /** The eight paths part pairwise: no path is a prefix of another. */
  lemma MappedPathsDisjoint(i: nat, j: nat)
    requires i < |EnvMappings| && j < |EnvMappings| && i != j
    ensures Disjoint(EnvMappings[i].1, EnvMappings[j].1)
  {
  }

  lemma EnvMappingsDisjoint()
    ensures WellFormed(EnvMappings) && PairwiseDisjoint(EnvMappings)
  {
    forall i, j | 0 <= i < |EnvMappings| && 0 <= j < |EnvMappings| && i != j
      ensures Disjoint(EnvMappings[i].1, EnvMappings[j].1)
    {
      MappedPathsDisjoint(i, j);
    }
  }

  /** Two mappings with parting paths commute. */
  lemma StepsCommute(c: Config, a: (string, seq<string>), b: (string, seq<string>), env: map<string, string>)
    requires |a.1| >= 1 && |b.1| >= 1 && Disjoint(a.1, b.1)
    ensures
      (match Step(c, a, env) case None => None case Some(c1) => Step(c1, b, env)) ==
      (match Step(c, b, env) case None => None case Some(c2) => Step(c2, a, env))
  {
    if a.0 in env && b.0 in env {
      SetPathCommutes(c, a.1, Converted(a.0, env[a.0]), b.1, Converted(b.0, env[b.0]));
    }
  }

  function SwapAt<T>(s: seq<T>, k: nat): (r: seq<T>)
    requires k + 1 < |s|
    ensures |r| == |s| && r[k] == s[k + 1] && r[k + 1] == s[k]
    ensures forall i :: 0 <= i < |s| && i != k && i != k + 1 ==> r[i] == s[i]
  {
    s[..k] + [s[k + 1], s[k]] + s[k + 2..]
  }

  /** Exchanging two neighbouring mappings with parting paths does not change the result. */
  lemma {:induction false} SwapKeepsResult(c: Config, ms: seq<(string, seq<string>)>, env: map<string, string>, k: nat)
    requires WellFormed(ms) && k + 1 < |ms| && Disjoint(ms[k].1, ms[k + 1].1)
    ensures WellFormed(SwapAt(ms, k))
    ensures Apply(c, SwapAt(ms, k), env) == Apply(c, ms, env)
    decreases k
  {
    var sw := SwapAt(ms, k);
    assert WellFormed(sw) by {
      forall i | 0 <= i < |sw| ensures |sw[i].1| >= 1 {
        if i == k { assert sw[i] == ms[k + 1]; } else if i == k + 1 { assert sw[i] == ms[k]; }
        else { assert sw[i] == ms[i]; }
      }
    }
    if k == 0 {
      StepsCommute(c, ms[0], ms[1], env);
      assert sw[2..] == ms[2..];
      assert sw[1..][1..] == ms[2..] && ms[1..][1..] == ms[2..];
    } else {
      assert sw[0] == ms[0];
      match Step(c, ms[0], env) {
        case None =>
        case Some(c1) =>
          assert sw[1..] == SwapAt(ms[1..], k - 1);
          SwapKeepsResult(c1, ms[1..], env, k - 1);
      }
    }
  }

  /** An unset variable changes nothing; a set one, even to "", is written at its path. */
  lemma StepWrites(c: Config, m: (string, seq<string>), env: map<string, string>)
    requires |m.1| >= 1
    ensures m.0 !in env ==> Step(c, m, env) == Some(c)
    ensures m.0 in env && Step(c, m, env).Some? ==>
      Lookup(Step(c, m, env).value, m.1) == Some(Converted(m.0, env[m.0]))
  {
    if m.0 in env && Step(c, m, env).Some? {
      SetPathStores(c, m.1, Converted(m.0, env[m.0]));
    }
  }

  /** No two mappings' paths are prefixes of one another. */
  predicate PairwiseDisjoint(ms: seq<(string, seq<string>)>) {
    forall i, j :: 0 <= i < |ms| && 0 <= j < |ms| && i != j ==> Disjoint(ms[i].1, ms[j].1)
  }

  /** The path that mapping `i` writes, when its variable is set. */
  predicate Applied(ms: seq<(string, seq<string>)>, env: map<string, string>, i: int) {
    0 <= i < |ms| && ms[i].0 in env
  }

  lemma TailFacts(ms: seq<(string, seq<string>)>)
    requires |ms| >= 1 && WellFormed(ms) && PairwiseDisjoint(ms)
    ensures WellFormed(ms[1..]) && PairwiseDisjoint(ms[1..])
    ensures forall i :: 0 <= i < |ms| - 1 ==> ms[1..][i] == ms[i + 1]
  {
    var tail := ms[1..];
    assert forall i :: 0 <= i < |tail| ==> tail[i] == ms[i + 1];
  }

  /** The whole override leaves a path that parts from every applied path as it was. */
  lemma {:induction false} ApplyFrame(c: Config, ms: seq<(string, seq<string>)>, env: map<string, string>, p: seq<string>)
    requires WellFormed(ms) && PairwiseDisjoint(ms) && Apply(c, ms, env).Some? && |p| >= 1
    requires forall i :: Applied(ms, env, i) ==> Disjoint(ms[i].1, p)
    ensures Lookup(Apply(c, ms, env).value, p) == Lookup(c, p)
    decreases |ms|
  {
    if ms != [] {
      TailFacts(ms);
      var c1 := Step(c, ms[0], env).value;
      if ms[0].0 in env {
        assert Applied(ms, env, 0);
        SetPathFrame(c, ms[0].1, Converted(ms[0].0, env[ms[0].0]), p);
      }
      forall i | Applied(ms[1..], env, i) ensures Disjoint(ms[1..][i].1, p) {
        assert Applied(ms, env, i + 1);
      }
      ApplyFrame(c1, ms[1..], env, p);
    }
  }

  /** After the whole override, every set variable's value sits at its mapped path. */
  lemma {:induction false} ApplyStores(c: Config, ms: seq<(string, seq<string>)>, env: map<string, string>, i: nat)
    requires WellFormed(ms) && PairwiseDisjoint(ms) && Apply(c, ms, env).Some? && Applied(ms, env, i)
    ensures Lookup(Apply(c, ms, env).value, ms[i].1) == Some(Converted(ms[i].0, env[ms[i].0]))
    decreases |ms|
  {
    TailFacts(ms);
    var c1 := Step(c, ms[0], env).value;
    if i == 0 {
      StepWrites(c, ms[0], env);
      forall j | Applied(ms[1..], env, j) ensures Disjoint(ms[1..][j].1, ms[0].1) {
        assert ms[1..][j] == ms[j + 1];
      }
      ApplyFrame(c1, ms[1..], env, ms[0].1);
    } else {
      assert Applied(ms[1..], env, i - 1);
      ApplyStores(c1, ms[1..], env, i - 1);
    }
  }

  /**
   * The eight mappings: after an override that does not raise, each set variable's value
   * (converted) is at its path, and every path that parts from all applied paths looks up
   * as before.
   */
  lemma OverrideEffect(c: Config, env: map<string, string>)
    requires Apply(c, EnvMappings, env).Some?
    ensures forall i :: Applied(EnvMappings, env, i) ==>
      Lookup(Apply(c, EnvMappings, env).value, EnvMappings[i].1) == Some(Converted(EnvMappings[i].0, env[EnvMappings[i].0]))
    ensures forall p :: |p| >= 1 && (forall i :: Applied(EnvMappings, env, i) ==> Disjoint(EnvMappings[i].1, p)) ==>
      Lookup(Apply(c, EnvMappings, env).value, p) == Lookup(c, p)
  {
    EnvMappingsDisjoint();
    forall i | Applied(EnvMappings, env, i)
      ensures Lookup(Apply(c, EnvMappings, env).value, EnvMappings[i].1) == Some(Converted(EnvMappings[i].0, env[EnvMappings[i].0]))
    {
      ApplyStores(c, EnvMappings, env, i);
    }
    forall p | |p| >= 1 && (forall i :: Applied(EnvMappings, env, i) ==> Disjoint(EnvMappings[i].1, p))
      ensures Lookup(Apply(c, EnvMappings, env).value, p) == Lookup(c, p)
    {
      ApplyFrame(c, EnvMappings, env, p);
    }
  }

  /** `_override_with_env_vars`. `None` when a write raises; `OverrideEffect` states what it writes. */
  method OverrideWithEnvVars(config: Config, env: map<string, string>) returns (r: Option<Config>)
    ensures r == Apply(config, EnvMappings, env)
  {
    var current := config;
    for i := 0 to |EnvMappings|
      invariant Apply(config, EnvMappings, env) == Apply(current, EnvMappings[i..], env)
    {
      var (name, path) := EnvMappings[i];
      assert EnvMappings[i..][1..] == EnvMappings[i + 1..];
      if name in env {
        var written := WritePath(current, path, Converted(name, env[name]));
        if written.None? {
          return None;
        }
        current := written.value;
      }
    }
    r := Some(current);
  }

  /**
   * One write done as the source does it: walk down the sections, creating missing ones,
   * then store the value and rebuild the sections on the way back up.
   */
  method WritePath(config: Config, path: seq<string>, v: Value) returns (r: Option<Config>)
    requires |path| >= 1
    ensures r == SetPath(config, path, v)
  {
    var sections: seq<Config> := [config];
    var i := 0;
    while i < |path| - 1
      invariant 0 <= i <= |path| - 1 && |sections| == i + 1 && sections[0] == config
      invariant SetPath(config, path, v) == Rebuilt(sections, path, SetPath(sections[i], path[i..], v))
    {
      var key := path[i];
      if key in sections[i] && !sections[i][key].Section? {
        RebuiltNone(sections, path);
        return None;
      }
      var child := if key in sections[i] then sections[i][key].entries else map[];
      RebuildStep(sections, path, child, v);
      sections := sections + [child];
      i := i + 1;
    }
    var acc := sections[i][path[i] := v];
    assert SetPath(sections[i], path[i..], v) == Some(acc);
    assert sections[..i + 1] == sections;
    while i > 0
      invariant 0 <= i < |sections|
      invariant SetPath(config, path, v) == Rebuilt(sections[..i + 1], path, Some(acc))
    {
      i := i - 1;
      assert sections[..i + 2][..i + 1] == sections[..i + 1];
      acc := sections[i][path[i] := Section(acc)];
    }
    r := Some(acc);
  }

  /** Putting a rebuilt inner section back into the sections above it. */
  function Rebuilt(sections: seq<Config>, path: seq<string>, inner: Option<Config>): Option<Config>
    requires |sections| <= |path|
    decreases |sections|
  {
    if sections == [] || |sections| == 1 then inner
    else
      var n := |sections| - 1;
      match inner
      case None => None
      case Some(e) => Rebuilt(sections[..n], path, Some(sections[n - 1][path[n - 1] := Section(e)]))
  }

  lemma {:induction false} RebuiltNone(sections: seq<Config>, path: seq<string>)
    requires |sections| <= |path|
    ensures Rebuilt(sections, path, None) == None
    decreases |sections|
  {
  }

  lemma RebuildStep(sections: seq<Config>, path: seq<string>, child: Config, v: Value)
    requires 1 <= |sections| < |path|
    requires var i := |sections| - 1;
      && (path[i] !in sections[i] || sections[i][path[i]].Section?)
      && child == EntriesAt(sections[i], path[i])
    ensures var i := |sections| - 1;
      Rebuilt(sections, path, SetPath(sections[i], path[i..], v)) ==
      Rebuilt(sections + [child], path, SetPath(child, path[i + 1..], v))
  {
    var i := |sections| - 1;
    assert path[i..][1..] == path[i + 1..];
    assert (sections + [child])[..|sections|] == sections;
  }

  /** Mappings whose variables are all unset leave the configuration as it is. */
  lemma {:induction false} UnsetChangesNothing(c: Config, ms: seq<(string, seq<string>)>, env: map<string, string>)
    requires WellFormed(ms)
    requires forall i :: 0 <= i < |ms| ==> ms[i].0 !in env
    ensures Apply(c, ms, env) == Some(c)
    decreases |ms|
  {
    if ms != [] {
      assert WellFormed(ms[1..]) by {
        forall i | 0 <= i < |ms[1..]| ensures |ms[1..][i].1| >= 1 {
          assert ms[1..][i] == ms[i + 1];
        }
      }
      forall i | 0 <= i < |ms[1..]| ensures ms[1..][i].0 !in env {
        assert ms[1..][i] == ms[i + 1];
      }
      UnsetChangesNothing(c, ms[1..], env);
    }
  }

  /** With only `SCRAPING_USERNAME` set, an empty configuration gains just `auth.username`. */
  lemma UsernameOnly(user: string)
    ensures Apply(map[], EnvMappings, map["SCRAPING_USERNAME" := user])
         == Some(map["auth" := Section(map["username" := Str(user)])])
  {
    var env := map["SCRAPING_USERNAME" := user];
    var c1 := map["auth" := Section(map["username" := Str(user)])];
    assert Step(map[], EnvMappings[0], env) == Some(c1);
    UnsetChangesNothing(c1, EnvMappings[1..], env);
  }
}
