/** The feature-flag manager: a closed set of eight boolean flags resolved from
    three layers (hard-coded defaults, the `feature_flags` section of the
    configuration, `TEXTQL_FF_*` environment variables), a runtime setter that
    only works while `enable_flag_runtime_updates` is on, and the gate that
    wraps a tool so that it refuses to run while its flag is off. */
module FeatureFlags {
  import opened Wrappers
  import opened Text
  import opened Values

  // ----- the registry -----

  datatype Flag =
    | QueryGraph
    | SchemaFetch
    | NaturalLanguage
    | AdminEndpoints
    | FlagRuntimeUpdates
    | AuthChecks
    | RateLimiting
    | ExperimentalFeatures

  /** The flags in declaration order. */
  const AllFlags: seq<Flag> := [
    QueryGraph, SchemaFetch, NaturalLanguage, AdminEndpoints,
    FlagRuntimeUpdates, AuthChecks, RateLimiting, ExperimentalFeatures
  ]

  lemma AllFlagsListed(f: Flag)
    ensures f in AllFlags
  {
  }

  lemma AllFlagsComplete()
    ensures forall f: Flag :: f in AllFlags
  {
    forall f: Flag ensures f in AllFlags {
      AllFlagsListed(f);
    }
  }

  /** The string value of each enumeration member. */
  function Name(f: Flag): string {
    match f
    case QueryGraph => "enable_query_graph"
    case SchemaFetch => "enable_schema_fetch"
    case NaturalLanguage => "enable_natural_language"
    case AdminEndpoints => "enable_admin_endpoints"
    case FlagRuntimeUpdates => "enable_flag_runtime_updates"
    case AuthChecks => "enable_auth_checks"
    case RateLimiting => "enable_rate_limiting"
    case ExperimentalFeatures => "enable_experimental_features"
  }

  /** The first flag of `fs` whose name is `name`, if any. */
  function FindFlag(name: string, fs: seq<Flag>): (r: Option<Flag>)
    ensures r.Some? ==> r.value in fs && Name(r.value) == name
    ensures r.None? ==> forall f :: f in fs ==> Name(f) != name
  {
    if fs == [] then None
    else if Name(fs[0]) == name then Some(fs[0])
    else FindFlag(name, fs[1..])
  }

  /** The flag a name denotes, if any: `name in [f.value for f in FeatureFlag]`
      followed by `FeatureFlag(name)`. */
  function FlagOf(name: string): (r: Option<Flag>)
    ensures r.Some? ==> Name(r.value) == name
    ensures r.None? ==> forall f :: Name(f) != name
  {
    AllFlagsComplete();
    FindFlag(name, AllFlags)
  }

  /** No two flags share a name. */
  lemma NameInjective(f: Flag, g: Flag)
    ensures Name(f) == Name(g) ==> f == g
  {
    if Name(f) == Name(g) {
      assert |Name(f)| == |Name(g)|;
      assert Name(f)[7] == Name(g)[7];
    }
  }

  /** Names and flags are in one-to-one correspondence. */
  lemma FlagOfName(f: Flag)
    ensures FlagOf(Name(f)) == Some(f)
  {
    NameInjective(f, FlagOf(Name(f)).value);
  }

  // ----- the flag table and its layers -----

  type FlagTable = map<Flag, bool>

  /** A table that holds a value for every flag. */
  predicate Total(t: FlagTable) {
    forall f: Flag :: f in t
  }

  /** `self.flags.get(flag, False)` */
  predicate Lookup(t: FlagTable, f: Flag) {
    f in t && t[f]
  }

  /** Core features on; admin, security and experimental features off. */
  function Defaults(): (t: FlagTable)
    ensures Total(t)
  {
    var t := map[QueryGraph := true, SchemaFetch := true, NaturalLanguage := false,
                 AdminEndpoints := false, FlagRuntimeUpdates := false, AuthChecks := false,
                 RateLimiting := false, ExperimentalFeatures := false];
    assert Total(t) by {
      forall f: Flag ensures f in t {
        AllFlagsListed(f);
      }
    }
    t
  }

  lemma DefaultsAt(f: Flag)
    ensures Defaults()[f] <==> f == QueryGraph || f == SchemaFetch
  {
  }

  /** `config.get("feature_flags", {})`, when that section is a mapping. */
  function FeatureFlagSection(config: map<string, Value>): map<string, Value> {
    if "feature_flags" in config && config["feature_flags"].Dict?
    then config["feature_flags"].entries
    else map[]
  }

  /** The config layer: every key of the section that names a flag overwrites
      that flag with `bool(value)`; other keys are skipped. */
  function ConfigLayer(t: FlagTable, section: map<string, Value>): (r: FlagTable)
    ensures t.Keys <= r.Keys
  {
    AllFlagsComplete();
    map f | f in AllFlags && (f in t || Name(f) in section) ::
      if Name(f) in section then Truthy(section[Name(f)]) else t[f]
  }

  /** One entry of the config layer: a key naming a flag sets it to `bool(value)`;
      any other key is skipped. */
  function ConfigEntry(t: FlagTable, key: string, v: Value): FlagTable {
    match FlagOf(key)
    case Some(f) => t[f := Truthy(v)]
    case None => t
  }

  const EnvPrefix: string := "TEXTQL_FF_"

  /** The environment variable that controls a flag. */
  function EnvVarName(f: Flag): string {
    EnvPrefix + Upper(Name(f))
  }

  const TrueTokens: seq<string> := ["true", "1", "yes", "on"]

  /** An environment value is true iff, lower-cased, it is a true token. */
  predicate ParseEnvBool(v: string) {
    Lower(v) in TrueTokens
  }

  /** The flags whose variable is set, with the value each variable parses to. */
  function EnvSettings(env: map<string, string>): (s: map<Flag, bool>)
  {
    map f | f in AllFlags && EnvVarName(f) in env :: ParseEnvBool(env[EnvVarName(f)])
  }

  lemma EnvSettingsAt(env: map<string, string>, f: Flag)
    ensures f in EnvSettings(env) <==> EnvVarName(f) in env
    ensures f in EnvSettings(env) ==> EnvSettings(env)[f] == ParseEnvBool(env[EnvVarName(f)])
  {
    AllFlagsListed(f);
  }

  /** The settings for the flags of `fs` laid over `t`, one flag at a time in
      order: a flag with a setting is overwritten, the others are kept. */
  function Overlay(t: FlagTable, fs: seq<Flag>, settings: map<Flag, bool>): (r: FlagTable)
    ensures t.Keys <= r.Keys
  {
    if fs == [] then t
    else
      var u := Overlay(t, fs[..|fs| - 1], settings);
      var g := fs[|fs| - 1];
      if g in settings then u[g := settings[g]] else u
  }

  lemma OverlaySnoc(t: FlagTable, fs: seq<Flag>, settings: map<Flag, bool>, i: nat)
    requires i < |fs|
    ensures Overlay(t, fs[..i + 1], settings) ==
      var u := Overlay(t, fs[..i], settings);
      if fs[i] in settings then u[fs[i] := settings[fs[i]]] else u
  {
    assert fs[..i + 1][..i] == fs[..i];
  }

  /** The environment layer: a set variable overrides the flag it names. */
  function EnvLayer(t: FlagTable, env: map<string, string>): FlagTable {
    Overlay(t, AllFlags, EnvSettings(env))
  }

  /** The table `FeatureFlagManager(config)` builds: defaults, then the config
      (skipped when it is absent or empty), then the environment. */
  function Resolve(config: Option<map<string, Value>>, env: map<string, string>): (r: FlagTable)
    ensures Total(r)
  {
    var base := Defaults();
    var configured :=
      if config.Some? && config.value != map[] then ConfigLayer(base, FeatureFlagSection(config.value))
      else base;
    EnvLayer(configured, env)
  }

  /** After the overlay a flag holds its setting when it is among `fs` and has
      one, and its old value otherwise. */
  lemma {:induction false} OverlayAt(t: FlagTable, fs: seq<Flag>, settings: map<Flag, bool>, f: Flag)
    ensures f in Overlay(t, fs, settings) <==> f in t || (f in fs && f in settings)
    ensures f in Overlay(t, fs, settings) ==>
      Overlay(t, fs, settings)[f] == if f in fs && f in settings then settings[f] else t[f]
  {
    if fs != [] {
      var init := fs[..|fs| - 1];
      assert fs == init + [fs[|fs| - 1]];
      OverlayAt(t, init, settings, f);
    }
  }

  /** The three-layer precedence: environment over config over default. */
  lemma ResolveAt(config: Option<map<string, Value>>, env: map<string, string>, f: Flag)
    ensures f in Resolve(config, env)
    ensures Resolve(config, env)[f] ==
      if EnvVarName(f) in env then ParseEnvBool(env[EnvVarName(f)])
      else if config.Some? && Name(f) in FeatureFlagSection(config.value) then
        Truthy(FeatureFlagSection(config.value)[Name(f)])
      else Defaults()[f]
  {
    var base := Defaults();
    var configured :=
      if config.Some? && config.value != map[] then ConfigLayer(base, FeatureFlagSection(config.value))
      else base;
    AllFlagsListed(f);
    OverlayAt(configured, AllFlags, EnvSettings(env), f);
    EnvSettingsAt(env, f);
    if config.Some? && config.value == map[] {
      assert FeatureFlagSection(config.value) == map[];
    }
  }

  /** Whatever the inputs, the resolved table holds exactly the eight flags. */
  lemma ResolveTotal(config: Option<map<string, Value>>, env: map<string, string>)
    ensures Total(Resolve(config, env))
  {
    forall f: Flag ensures f in Resolve(config, env) {
      ResolveAt(config, env, f);
    }
  }

  /** With no configuration and no environment, the defaults stand. */
  lemma ResolveDefaults()
    ensures Resolve(None, map[]) == Defaults()
  {
    ResolveTotal(None, map[]);
    forall f ensures Resolve(None, map[])[f] == Defaults()[f] {
      ResolveAt(None, map[], f);
    }
  }

  /** Upper-casing the literal name of the graph query flag; kept apart
      because the solver settles it far more cheaply on its own. */
  lemma UpperQueryGraph()
    ensures Upper("enable_query_graph") == "ENABLE_QUERY_GRAPH"
  {
  }

  lemma EnvVarNameQueryGraph()
    ensures EnvVarName(QueryGraph) == "TEXTQL_FF_ENABLE_QUERY_GRAPH"
  {
    UpperQueryGraph();
  }

  /** A configuration that switches the graph query tool on, and an
      environment whose variable switches it off again. */
  const QueryGraphOnConfig: Option<map<string, Value>> :=
    Some(map["feature_flags" := Dict(map["enable_query_graph" := Bool(true)])])
  const QueryGraphOffEnv: map<string, string> := map["TEXTQL_FF_ENABLE_QUERY_GRAPH" := "false"]

  /** An environment value of "false" beats a config value of true. */
  lemma EnvOverridesConfigScenario()
    ensures !Resolve(QueryGraphOnConfig, QueryGraphOffEnv)[QueryGraph]
  {
    QueryGraphOffEnvSetting();
    ResolveAt(QueryGraphOnConfig, QueryGraphOffEnv, QueryGraph);
  }

  lemma QueryGraphOffEnvSetting()
    ensures EnvVarName(QueryGraph) in QueryGraphOffEnv
    ensures !ParseEnvBool(QueryGraphOffEnv[EnvVarName(QueryGraph)])
  {
    EnvVarNameQueryGraph();
    assert Lower("false") == "false";
  }

  // ----- runtime updates -----

  /** What `set_flag(name, enabled)` returns and leaves behind. */
  function SetFlagOutcome(t: FlagTable, name: string, enabled: bool): (bool, FlagTable) {
    if !Lookup(t, FlagRuntimeUpdates) then (false, t)
    else match FlagOf(name)
      case None => (false, t)
      case Some(f) => (true, t[f := enabled])
  }

  /** `set_flag` succeeds exactly when updates are on and the name is known; it
      then changes that flag alone, and otherwise changes nothing. */
  lemma SetFlagChangesOne(t: FlagTable, name: string, enabled: bool)
    ensures SetFlagOutcome(t, name, enabled).0 <==> Lookup(t, FlagRuntimeUpdates) && FlagOf(name).Some?
    ensures !SetFlagOutcome(t, name, enabled).0 ==> SetFlagOutcome(t, name, enabled).1 == t
    ensures SetFlagOutcome(t, name, enabled).0 ==>
      var u := SetFlagOutcome(t, name, enabled).1;
      u.Keys == t.Keys + {FlagOf(name).value} && u[FlagOf(name).value] == enabled
      && forall g :: g in t && Name(g) != name ==> u[g] == t[g]
  {
  }

  /** Repeating a `set_flag` call changes nothing more, even the call that
      switches runtime updates off (whose repetition is refused). */
  lemma SetFlagIdempotent(t: FlagTable, name: string, enabled: bool)
    ensures
      var u := SetFlagOutcome(t, name, enabled).1;
      SetFlagOutcome(u, name, enabled).1 == u
  {
    var u := SetFlagOutcome(t, name, enabled).1;
    if Lookup(t, FlagRuntimeUpdates) && FlagOf(name).Some? && Lookup(u, FlagRuntimeUpdates) {
      assert u[FlagOf(name).value] == enabled;
    }
  }

  /** A run of `set_flag` calls: the final table and each call's return value. */
  function SetFlags(t: FlagTable, calls: seq<(string, bool)>): (r: (FlagTable, seq<bool>))
    ensures |r.1| == |calls|
    decreases |calls|
  {
    if calls == [] then (t, [])
    else
      var step := SetFlagOutcome(t, calls[0].0, calls[0].1);
      var rest := SetFlags(step.1, calls[1..]);
      (rest.0, [step.0] + rest.1)
  }

  /** While runtime updates are off, every call fails and the table stays as it is. */
  lemma {:induction false} LockedTableStaysLocked(t: FlagTable, calls: seq<(string, bool)>)
    requires !Lookup(t, FlagRuntimeUpdates)
    ensures SetFlags(t, calls).0 == t
    ensures |SetFlags(t, calls).1| == |calls|
    ensures forall k :: 0 <= k < |calls| ==> !SetFlags(t, calls).1[k]
  {
    if calls != [] {
      LockedTableStaysLocked(t, calls[1..]);
    }
  }

  /** Switching runtime updates off succeeds once, and every later call fails. */
  lemma LockingIsFinal(t: FlagTable, later: seq<(string, bool)>)
    requires Lookup(t, FlagRuntimeUpdates)
    ensures
      var locked := SetFlagOutcome(t, Name(FlagRuntimeUpdates), false);
      locked.0 && SetFlags(locked.1, later).0 == locked.1
      && forall k :: 0 <= k < |later| ==> !SetFlags(locked.1, later).1[k]
  {
    var locked := SetFlagOutcome(t, Name(FlagRuntimeUpdates), false);
    FlagOfName(FlagRuntimeUpdates);
    LockedTableStaysLocked(locked.1, later);
  }

  // ----- reading the table -----

  /** `get_enabled_features` over the flags of `fs`, in order. */
  function EnabledIn(t: FlagTable, fs: seq<Flag>): (r: seq<string>)
    ensures forall f :: f in fs ==> (Name(f) in r <==> Lookup(t, f))
    ensures forall s :: s in r ==> FlagOf(s).Some? && FlagOf(s).value in fs
    ensures (forall i, j :: 0 <= i < j < |fs| ==> fs[i] != fs[j]) ==>
      forall i, j :: 0 <= i < j < |r| ==> r[i] != r[j]
  {
    if fs == [] then []
    else
      var rest := EnabledIn(t, fs[1..]);
      FlagOfName(fs[0]);
      forall f ensures Name(fs[0]) == Name(f) ==> fs[0] == f {
        NameInjective(fs[0], f);
      }
      if Lookup(t, fs[0]) then [Name(fs[0])] + rest else rest
  }

  /** `x` occurs in `r` before `y` does. */
  predicate Precedes(r: seq<string>, x: string, y: string) {
    exists a, b :: 0 <= a < b < |r| && r[a] == x && r[b] == y
  }

  /** One step of a filter: `r` is `rest`, with `h` in front when `on`. */
  lemma PrecedesStep(on: bool, h: string, rest: seq<string>, r: seq<string>, x: string, y: string, first: bool)
    requires r == if on then [h] + rest else rest
    requires first ==> on && x == h && y in rest
    requires !first ==> Precedes(rest, x, y)
    ensures Precedes(r, x, y)
  {
    if first {
      var b :| 0 <= b < |rest| && rest[b] == y;
      assert r[0] == x && r[b + 1] == y;
    } else if on {
      var a, b :| 0 <= a < b < |rest| && rest[a] == x && rest[b] == y;
      assert r[a + 1] == x && r[b + 1] == y;
    }
  }

  lemma EnabledInCons(t: FlagTable, fs: seq<Flag>)
    requires fs != []
    ensures EnabledIn(t, fs) == if Lookup(t, fs[0]) then [Name(fs[0])] + EnabledIn(t, fs[1..]) else EnabledIn(t, fs[1..])
  {
  }

  lemma EnabledInHas(t: FlagTable, fs: seq<Flag>, j: nat)
    requires j < |fs| && Lookup(t, fs[j])
    ensures Name(fs[j]) in EnabledIn(t, fs)
  {
    assert fs[j] in fs;
  }

  /** Two flags that are on appear in the result in the order of `fs`. */
  lemma {:induction false} EnabledInOrder(t: FlagTable, fs: seq<Flag>, i: nat, j: nat)
    requires i < j < |fs| && Lookup(t, fs[i]) && Lookup(t, fs[j])
    ensures Precedes(EnabledIn(t, fs), Name(fs[i]), Name(fs[j]))
  {
    var tail := fs[1..];
    assert fs[j] == tail[j - 1];
    if i == 0 {
      EnabledInHas(t, tail, j - 1);
    } else {
      assert fs[i] == tail[i - 1];
      EnabledInOrder(t, tail, i - 1, j - 1);
    }
    EnabledInCons(t, fs);
    PrecedesStep(Lookup(t, fs[0]), Name(fs[0]), EnabledIn(t, tail), EnabledIn(t, fs), Name(fs[i]), Name(fs[j]), i == 0);
  }

  /** The object held in the server's context. */
  class FeatureFlagManager {
    var flags: FlagTable

    ghost predicate Valid()
      reads this
    {
      Total(flags)
    }

    constructor (config: Option<map<string, Value>>, env: map<string, string>)
      ensures Valid()
      ensures flags == Resolve(config, env)
    {
      flags := map[];
      new;
      LoadDefaults();
      if config.Some? && config.value != map[] {
        LoadFromConfig(config.value);
      }
      LoadFromEnv(env);
      ResolveTotal(config, env);
    }

    method LoadDefaults()
      modifies this
      ensures flags == Defaults()
    {
      flags := Defaults();
    }

    /** Applies the config's `feature_flags` entries, in any order. */
    method LoadFromConfig(config: map<string, Value>)
      modifies this
      ensures flags == ConfigLayer(old(flags), FeatureFlagSection(config))
    {
      var section := FeatureFlagSection(config);
      var pending := section.Keys;
      ghost var done: map<string, Value> := map[];
      ConfigLayerEmpty(flags);
      while pending != {}
        invariant pending !! done.Keys && pending + done.Keys == section.Keys
        invariant forall k :: k in done ==> done[k] == section[k]
        invariant flags == ConfigLayer(old(flags), done)
        decreases pending
      {
        var key :| key in pending;
        ApplyConfigEntry(key, section[key]);
        ConfigLayerUpdate(old(flags), done, key, section[key]);
        done := done[key := section[key]];
        pending := pending - {key};
      }
      assert done == section;
    }

    /** One entry of the section: a key naming a flag sets it to `bool(value)`. */
    method ApplyConfigEntry(key: string, value: Value)
      modifies this
      ensures flags == ConfigEntry(old(flags), key, value)
    {
      var f := FlagOf(key);
      if f.Some? {
        flags := flags[f.value := Truthy(value)];
      }
    }

    /** Applies `TEXTQL_FF_<NAME>` variables, flag by flag. */
    method LoadFromEnv(env: map<string, string>)
      modifies this
      ensures flags == EnvLayer(old(flags), env)
    {
      var i := 0;
      while i < |AllFlags|
        invariant 0 <= i <= |AllFlags|
        invariant flags == Overlay(old(flags), AllFlags[..i], EnvSettings(env))
      {
        var f := AllFlags[i];
        var envVar := EnvVarName(f);
        EnvSettingsAt(env, f);
        OverlaySnoc(old(flags), AllFlags, EnvSettings(env), i);
        if envVar in env {
          flags := flags[f := ParseEnvBool(env[envVar])];
        }
        i := i + 1;
      }
      assert AllFlags[..i] == AllFlags;
    }

    /** `is_enabled`: false for any name outside the registry. */
    function IsEnabled(name: string): (r: bool)
      reads this
      ensures r <==> exists f :: f in flags && flags[f] && Name(f) == name
      ensures FlagOf(name).None? ==> !r
    {
      match FlagOf(name)
      case None => false
      case Some(f) =>
        NameInjectiveAll(f);
        Lookup(flags, f)
    }

    /** `set_flag` */
    method SetFlag(name: string, enabled: bool) returns (ok: bool)
      requires Valid()
      modifies this
      ensures Valid()
      ensures ok <==> Lookup(old(flags), FlagRuntimeUpdates) && FlagOf(name).Some?
      ensures flags == if ok then old(flags)[FlagOf(name).value := enabled] else old(flags)
      ensures (ok, flags) == SetFlagOutcome(old(flags), name, enabled)
    {
      FlagOfName(FlagRuntimeUpdates);
      if !IsEnabled(Name(FlagRuntimeUpdates)) {
        return false;
      }
      var f := FlagOf(name);
      if f.None? {
        return false;
      }
      flags := flags[f.value := enabled];
      return true;
    }

    /** `get_all_flags`: a copy keyed by flag name. */
    function GetAllFlags(): (r: map<string, bool>)
      reads this
      ensures forall f :: f in flags ==> Name(f) in r && r[Name(f)] == flags[f]
      ensures forall k :: k in r ==> FlagOf(k).Some? && FlagOf(k).value in flags
    {
      NameInjectiveEverywhere();
      map f | f in flags :: Name(f) := flags[f]
    }

    /** `get_enabled_features`: the names of the flags that are on, in
        declaration order (the order in which the table was first filled). */
    function GetEnabledFeatures(): (r: seq<string>)
      reads this
      ensures forall f :: Name(f) in r <==> Lookup(flags, f)
      ensures forall s :: s in r ==> FlagOf(s).Some?
      ensures forall i, j :: 0 <= i < j < |r| ==> r[i] != r[j]
      ensures forall i, j :: 0 <= i < j < |AllFlags| && Lookup(flags, AllFlags[i]) && Lookup(flags, AllFlags[j]) ==>
        Precedes(r, Name(AllFlags[i]), Name(AllFlags[j]))
    {
      forall f ensures f in AllFlags { AllFlagsListed(f); }
      forall i, j | 0 <= i < j < |AllFlags| && Lookup(flags, AllFlags[i]) && Lookup(flags, AllFlags[j])
        ensures Precedes(EnabledIn(flags, AllFlags), Name(AllFlags[i]), Name(AllFlags[j]))
      {
        EnabledInOrder(flags, AllFlags, i, j);
      }
      EnabledIn(flags, AllFlags)
    }
  }

  lemma NameInjectiveAll(f: Flag)
    ensures forall g :: Name(g) == Name(f) ==> g == f
  {
    forall g ensures Name(g) == Name(f) ==> g == f {
      NameInjective(g, f);
    }
  }

  lemma NameInjectiveEverywhere()
    ensures forall f, g :: Name(f) == Name(g) ==> f == g
  {
    forall f, g ensures Name(f) == Name(g) ==> f == g {
      NameInjective(f, g);
    }
  }

  lemma ConfigLayerEmpty(t: FlagTable)
    ensures ConfigLayer(t, map[]) == t
  {
    forall f | f in t ensures f in AllFlags {
      AllFlagsListed(f);
    }
  }

  /** Adding an entry to the section is applying that entry last. */
  lemma ConfigLayerUpdate(t: FlagTable, m: map<string, Value>, key: string, v: Value)
    ensures ConfigLayer(t, m[key := v]) == ConfigEntry(ConfigLayer(t, m), key, v)
  {
    var lhs := ConfigLayer(t, m[key := v]);
    var rhs := ConfigEntry(ConfigLayer(t, m), key, v);
    forall g ensures (g in lhs <==> g in rhs) && (g in lhs ==> lhs[g] == rhs[g]) {
      ConfigLayerUpdateAt(t, m, key, v, g);
    }
    assert lhs == rhs;
  }

  lemma ConfigLayerUpdateAt(t: FlagTable, m: map<string, Value>, key: string, v: Value, g: Flag)
    ensures g in ConfigLayer(t, m[key := v]) <==> g in ConfigEntry(ConfigLayer(t, m), key, v)
    ensures g in ConfigLayer(t, m[key := v]) ==>
      ConfigLayer(t, m[key := v])[g] == ConfigEntry(ConfigLayer(t, m), key, v)[g]
  {
    if Name(g) == key {
      ConfigUpdateHit(t, m, key, v, g);
    } else {
      ConfigUpdateMiss(t, m, key, v, g);
    }
  }

  /** The updated key names `g`: both sides set `g` to `bool(v)`. */
  lemma ConfigUpdateHit(t: FlagTable, m: map<string, Value>, key: string, v: Value, g: Flag)
    requires Name(g) == key
    ensures g in ConfigLayer(t, m[key := v]) && ConfigLayer(t, m[key := v])[g] == Truthy(v)
    ensures g in ConfigEntry(ConfigLayer(t, m), key, v) && ConfigEntry(ConfigLayer(t, m), key, v)[g] == Truthy(v)
  {
    ConfigLayerAt(t, m[key := v], g);
    FlagOfName(g);
  }

  /** The updated key does not name `g`: both sides keep what the layer had. */
  lemma ConfigUpdateMiss(t: FlagTable, m: map<string, Value>, key: string, v: Value, g: Flag)
    requires Name(g) != key
    ensures g in ConfigLayer(t, m[key := v]) <==> g in ConfigLayer(t, m)
    ensures g in ConfigEntry(ConfigLayer(t, m), key, v) <==> g in ConfigLayer(t, m)
    ensures g in ConfigLayer(t, m) ==>
      ConfigLayer(t, m[key := v])[g] == ConfigLayer(t, m)[g]
      && ConfigEntry(ConfigLayer(t, m), key, v)[g] == ConfigLayer(t, m)[g]
  {
    ConfigLayerAt(t, m[key := v], g);
    ConfigLayerAt(t, m, g);
    var layer := ConfigLayer(t, m);
    match FlagOf(key)
    case Some(f) =>
      assert f != g;
      assert ConfigEntry(layer, key, v) == layer[f := Truthy(v)];
    case None =>
  }


  lemma ConfigLayerAt(t: FlagTable, section: map<string, Value>, g: Flag)
    ensures g in ConfigLayer(t, section) <==> g in t || Name(g) in section
    ensures g in ConfigLayer(t, section) ==>
      ConfigLayer(t, section)[g] == if Name(g) in section then Truthy(section[Name(g)]) else t[g]
  {
    AllFlagsListed(g);
  }

  // ----- the gate -----

  /** What the gate finds in the call's context: nothing, a context without a
      flag manager, or a manager (given by its table). */
  datatype GateContext = NoContext | NoManager | Manager(table: FlagTable)

  /** The record returned instead of running a gated operation. */
  datatype Refusal = Refusal(error: string, featureRequired: string, enabled: bool)

  /** The result of a gated call: the refusal, or the operation's own result. */
  datatype Gated<R> = Refused(refusal: Refusal) | Ran(result: R)

  function DefaultRefusalMessage(f: Flag): string {
    "Feature '" + Name(f) + "' is not enabled"
  }

  /** `{"error": error_message or default_msg, "feature_required": flag.value,
      "enabled": False}`: an empty custom message counts as none. */
  function RefusalFor(f: Flag, message: Option<string>): (r: Refusal)
    ensures !r.enabled && r.featureRequired == Name(f)
    ensures r.error == if message.Some? && message.value != [] then message.value else DefaultRefusalMessage(f)
  {
    Refusal(if message.Some? && message.value != [] then message.value else DefaultRefusalMessage(f), Name(f), false)
  }

  /** The gate's check: refuse only when a manager is present and the flag is off. */
  function Check(ctx: GateContext, f: Flag, message: Option<string>): Option<Refusal> {
    match ctx
    case Manager(t) => if !Lookup(t, f) then Some(RefusalFor(f, message)) else None
    case _ => None
  }

  /** `feature_flag_required(flag, message)(op)(arg)`. */
  function Gate<A, R>(f: Flag, message: Option<string>, op: A -> R, ctx: GateContext, arg: A): (g: Gated<R>)
    ensures g.Refused? <==> ctx.Manager? && !Lookup(ctx.table, f)
    ensures g.Refused? ==> g.refusal == RefusalFor(f, message)
    ensures g.Ran? ==> g.result == op(arg)
  {
    match Check(ctx, f, message)
    case Some(refusal) => Refused(refusal)
    case None => Ran(op(arg))
  }

  /** `check_feature_flag`: false when there is no context or no manager. */
  function CheckFeatureFlag(ctx: GateContext, f: Flag): (r: bool)
    ensures !ctx.Manager? ==> !r
    ensures ctx.Manager? ==> (r <==> Lookup(ctx.table, f))
  {
    match ctx
    case Manager(t) => Lookup(t, f)
    case _ => false
  }

  /** When a manager is present, the gate refuses exactly when
      `check_feature_flag` says no; without one it always lets the call through. */
  lemma GateAgreesWithCheck<A, R>(f: Flag, message: Option<string>, op: A -> R, ctx: GateContext, arg: A)
    ensures ctx.Manager? ==> (Gate(f, message, op, ctx, arg).Ran? <==> CheckFeatureFlag(ctx, f))
    ensures !ctx.Manager? ==> Gate(f, message, op, ctx, arg) == Ran(op(arg))
  {
  }

  /** A configuration that switches the graph query tool off. */
  const QueryGraphOffConfig: Option<map<string, Value>> :=
    Some(map["feature_flags" := Dict(map["enable_query_graph" := Bool(false)])])

  lemma QueryGraphOffResolved()
    ensures !Lookup(Resolve(QueryGraphOffConfig, map[]), QueryGraph)
  {
    ResolveAt(QueryGraphOffConfig, map[], QueryGraph);
  }

  /** The test scenario: a manager configured with `enable_query_graph` false
      refuses with the default message. */
  lemma GateRefusesDisabledScenario(op: string -> string, arg: string)
    ensures Gate(QueryGraph, None, op, Manager(Resolve(QueryGraphOffConfig, map[])), arg)
        == Refused(Refusal("Feature 'enable_query_graph' is not enabled", "enable_query_graph", false))
  {
    QueryGraphOffResolved();
    DefaultRefusalMessageQueryGraph();
  }

  /** The literal pieces of the default message join into one text; kept
      apart because the solver settles it far more cheaply on its own. */
  lemma RefusalText()
    ensures "Feature '" + "enable_query_graph" + "' is not enabled" == "Feature 'enable_query_graph' is not enabled"
  {
  }

  lemma DefaultRefusalMessageQueryGraph()
    ensures DefaultRefusalMessage(QueryGraph) == "Feature 'enable_query_graph' is not enabled"
  {
    RefusalText();
  }
}

/** The size of the table `get_all_flags` returns. */
module FlagCounts {
  import opened FeatureFlags
  import opened Sequences

  /** The names of the flags in declaration order. */
  function FlagNames(): (names: seq<string>)
    ensures |names| == |AllFlags|
    ensures forall i :: 0 <= i < |AllFlags| ==> names[i] == Name(AllFlags[i])
  {
    seq(|AllFlags|, i requires 0 <= i < |AllFlags| => Name(AllFlags[i]))
  }

  lemma FlagNamesDistinct()
    ensures Distinct(FlagNames())
  {
    var names := FlagNames();
    forall i, j | 0 <= i < j < |names| ensures names[i] != names[j] {
      NameInjective(AllFlags[i], AllFlags[j]);
    }
  }

  /** The copy returned by `get_all_flags` has one entry per flag. */
  lemma GetAllFlagsSize(m: FeatureFlagManager)
    requires m.Valid()
    ensures |m.GetAllFlags()| == |AllFlags|
  {
    var names := FlagNames();
    FlagNamesDistinct();
    DistinctCardinality(names);
    var r := m.GetAllFlags();
    assert r.Keys == set x | x in names by {
      forall k | k in r.Keys ensures k in names {
        var f := FlagOf(k).value;
        AllFlagsListed(f);
        var i :| 0 <= i < |AllFlags| && AllFlags[i] == f;
        assert names[i] == k;
      }
      forall i | 0 <= i < |names| ensures names[i] in r.Keys {
        assert AllFlags[i] in m.flags;
      }
    }
  }
}
