/** The standard transforms: environment-scoped file discovery, the YAML loader, environment
    mapping with JSON decoding, `required`, `defaults` and `freeze` (`assign` is `Object.assign`). */
module Transforms {
  import opened Values
  import opened ConfigObject
  import opened Utils

  /** `items.join(sep)`. */
  function Join(items: seq<string>, sep: string): string
    decreases |items|
  {
    if items == [] then ""
    else if |items| == 1 then items[0]
    else items[0] + sep + Join(items[1..], sep)
  }

  /** `path.join(dir, file)`, without normalisation. */
  function JoinPath(dir: string, file: string): (p: string)
    ensures |p| > 0
  {
    dir + "/" + file
  }

  // ---------------------------------------------------------------------------------------------
  // loadEnvConfigFile

  /** The settings `loadEnvConfigFile` reads: an unset instance is the empty string, which is
      exactly as falsy as `undefined` wherever the instance is used. */
  datatype EnvSettings = EnvSettings(basedir: string, instance: string, appenv: string, hostname: string)

  function ReadSettings(env: map<string, string>, cwd: string, osHostname: string): EnvSettings {
    EnvSettings(
      GetEnv(env, "NODE_CONFIG_DIR", JoinPath(cwd, "config")),
      GetEnv(env, "NODE_APP_INSTANCE", ""),
      GetEnv(env, "NODE_ENV", "development"),
      GetEnv(env, "HOST", GetEnv(env, "HOSTNAME", osHostname)))
  }

  /** The defaults: the base directory is `cwd/config`, the environment `development` (so it is
      never empty), and the hostname falls back from `HOST` to `HOSTNAME` to the OS's name. */
  lemma SettingsDefaults(env: map<string, string>, cwd: string, osHostname: string)
    ensures var st := ReadSettings(env, cwd, osHostname);
      && st.appenv != ""
      && ("NODE_ENV" !in env || env["NODE_ENV"] == "" ==> st.appenv == "development")
      && ("NODE_CONFIG_DIR" !in env || env["NODE_CONFIG_DIR"] == "" ==> st.basedir == cwd + "/config")
      && ("HOST" in env && env["HOST"] != "" ==> st.hostname == env["HOST"])
      && ("HOST" !in env || env["HOST"] == "" ==>
            st.hostname == if "HOSTNAME" in env && env["HOSTNAME"] != "" then env["HOSTNAME"] else osHostname)
  {
  }

  /** The candidate base names, most specific first. */
  function BaseNames(hostname: string, appenv: string, instance: string): seq<string> {
    (if hostname != "" && instance != ""
     then [Join([hostname, appenv, instance], "-"), Join([hostname, instance], "-")] else [])
    + (if hostname != "" then [Join([hostname, appenv], "-"), hostname] else [])
    + (if instance != "" then [Join([appenv, instance], "-")] else [])
    + [appenv, "default"]
  }

  /** The order of the base names: the host-and-instance pair only when both are set, the host
      pair when the host is set, the environment-and-instance name when the instance is set, and
      always the environment followed by `default` last. */
  lemma BaseNamesOrder(h: string, e: string, i: string)
    ensures var names := BaseNames(h, e, i);
      var hi := if h != "" && i != "" then 2 else 0;
      var ho := if h != "" then 2 else 0;
      var io := if i != "" then 1 else 0;
      && |names| == hi + ho + io + 2
      && names[|names| - 2..] == [e, "default"]
      && (hi == 2 ==> names[0] == h + "-" + e + "-" + i && names[1] == h + "-" + i)
      && (ho == 2 ==> names[hi] == h + "-" + e && names[hi + 1] == h)
      && (io == 1 ==> names[hi + ho] == e + "-" + i)
  {
    assert Join([h, e, i], "-") == h + "-" + Join([e, i], "-");
    assert Join([e, i], "-") == e + "-" + Join([i], "-");
    assert Join([h, i], "-") == h + "-" + Join([i], "-");
    assert Join([h, e], "-") == h + "-" + Join([e], "-");
  }

  /** One `.json` path per base name, in order. */
  function JsonCandidates(dir: string, names: seq<string>): (files: seq<string>)
    ensures |files| == |names|
    decreases |names|
  {
    if names == [] then []
    else JsonCandidates(dir, names[..|names| - 1]) + [JoinPath(dir, names[|names| - 1] + ".json")]
  }

  /** Two YAML paths per base name, `.yaml` before `.yml`, in order. */
  function YamlCandidates(dir: string, names: seq<string>): (files: seq<string>)
    ensures |files| == 2 * |names|
    decreases |names|
  {
    if names == [] then []
    else
      var last := names[|names| - 1];
      YamlCandidates(dir, names[..|names| - 1]) + [JoinPath(dir, last + ".yaml"), JoinPath(dir, last + ".yml")]
  }

  /** Each base name contributes exactly one JSON path, at its own position, and two YAML paths,
      `.yaml` before `.yml`, at twice its position. */
  lemma {:induction false} CandidatesLayout(dir: string, names: seq<string>, k: nat)
    requires k < |names|
    ensures JsonCandidates(dir, names)[k] == JoinPath(dir, names[k] + ".json")
    ensures YamlCandidates(dir, names)[2 * k] == JoinPath(dir, names[k] + ".yaml")
    ensures YamlCandidates(dir, names)[2 * k + 1] == JoinPath(dir, names[k] + ".yml")
    decreases |names|
  {
    var n := |names| - 1;
    if k < n {
      CandidatesLayout(dir, names[..n], k);
      assert names[..n][k] == names[k];
    }
  }

  datatype Format = Json | Yaml

  /** The loader `loadEnvConfigFile` delegates to: a format and its candidate list. */
  datatype FileLoader = FileLoader(format: Format, files: seq<string>)

  /** Whether some candidate exists (`_.some(files, fileExists)`). */
  predicate AnyExists(fs: FileSystem, files: seq<string>) {
    exists k :: 0 <= k < |files| && FileExists(fs, files[k])
  }

  /** The JSON loader over the JSON candidates when one of them exists, else the YAML loader
      over the YAML candidates. */
  function EnvConfigLoader(env: map<string, string>, cwd: string, osHostname: string, fs: FileSystem): FileLoader {
    var st := ReadSettings(env, cwd, osHostname);
    var names := BaseNames(st.hostname, st.appenv, st.instance);
    var json := JsonCandidates(st.basedir, names);
    if AnyExists(fs, json) then FileLoader(Json, json)
    else FileLoader(Yaml, YamlCandidates(st.basedir, names))
  }

  /** The conditional pushes onto `baseNames` in `loadEnvConfigFile`. */
  method PushBaseNames(hostname: string, appenv: string, appinstance: string) returns (baseNames: seq<string>)
    ensures baseNames == BaseNames(hostname, appenv, appinstance)
  {
    baseNames := [];
    if hostname != "" && appinstance != "" {
      baseNames := baseNames + [Join([hostname, appenv, appinstance], "-")];
      baseNames := baseNames + [Join([hostname, appinstance], "-")];
    }
    if hostname != "" {
      baseNames := baseNames + [Join([hostname, appenv], "-")];
      baseNames := baseNames + [hostname];
    }
    if appinstance != "" {
      baseNames := baseNames + [Join([appenv, appinstance], "-")];
    }
    baseNames := baseNames + [appenv];
    baseNames := baseNames + ["default"];
  }

  /** The `forEach` over `baseNames` in `loadEnvConfigFile`, pushing one JSON and two YAML paths
      per base name. */
  method PushCandidates(basedir: string, baseNames: seq<string>) returns (jsonFiles: seq<string>, yamlFiles: seq<string>)
    ensures jsonFiles == JsonCandidates(basedir, baseNames)
    ensures yamlFiles == YamlCandidates(basedir, baseNames)
  {
    jsonFiles, yamlFiles := [], [];
    var i := 0;
    while i < |baseNames|
      invariant 0 <= i <= |baseNames|
      invariant jsonFiles == JsonCandidates(basedir, baseNames[..i])
      invariant yamlFiles == YamlCandidates(basedir, baseNames[..i])
    {
      assert baseNames[..i + 1][..i] == baseNames[..i];
      jsonFiles := jsonFiles + [JoinPath(basedir, baseNames[i] + ".json")];
      yamlFiles := yamlFiles + [JoinPath(basedir, baseNames[i] + ".yaml")];
      yamlFiles := yamlFiles + [JoinPath(basedir, baseNames[i] + ".yml")];
      i := i + 1;
    }
    assert baseNames[..i] == baseNames;
  }

  /** `loadEnvConfigFile()`: builds the base names and the two candidate lists, then picks the format. */
  method LoadEnvConfigFile(env: map<string, string>, cwd: string, osHostname: string, fs: FileSystem)
    returns (l: FileLoader)
    ensures l == EnvConfigLoader(env, cwd, osHostname, fs)
  {
    var st := ReadSettings(env, cwd, osHostname);
    var basedir, appinstance, appenv, hostname := st.basedir, st.instance, st.appenv, st.hostname;
    var baseNames := PushBaseNames(hostname, appenv, appinstance);
    var jsonFiles, yamlFiles := PushCandidates(basedir, baseNames);
    if AnyExists(fs, jsonFiles) {
      l := FileLoader(Json, jsonFiles);
    } else {
      l := FileLoader(Yaml, yamlFiles);
    }
  }

  /** The choice is consistent with loading: when JSON is chosen its loader finds a file, and
      YAML is chosen only when no JSON candidate exists. */
  lemma EnvConfigLoaderChoice(env: map<string, string>, cwd: string, osHostname: string, fs: FileSystem)
    ensures var l := EnvConfigLoader(env, cwd, osHostname, fs);
      var st := ReadSettings(env, cwd, osHostname);
      var names := BaseNames(st.hostname, st.appenv, st.instance);
      && (l.format == Json <==> AnyExists(fs, JsonCandidates(st.basedir, names)))
      && (l.format == Json ==> l.files == JsonCandidates(st.basedir, names) && ScanFrom("", l.files, fs).chosen != "")
      && (l.format == Yaml ==> l.files == YamlCandidates(st.basedir, names))
  {
    var l := EnvConfigLoader(env, cwd, osHostname, fs);
    if l.format == Json {
      var k :| 0 <= k < |l.files| && FileExists(fs, l.files[k]);
      var st := ReadSettings(env, cwd, osHostname);
      CandidatesLayout(st.basedir, BaseNames(st.hostname, st.appenv, st.instance), k);
      assert IsHit(fs, l.files[k]);
      ScanChoosesIffHit(l.files, fs);
    }
  }

  // ---------------------------------------------------------------------------------------------
  // loadYaml

  /** `loadYaml(files)`: the loader with the YAML parser when js-yaml is available; otherwise a
      transform that returns `undefined` (`_.noop(config)`), whatever it is given. */
  function YamlResult(yaml: Option<Parser>, files: seq<string>, fs: FileSystem, s: State): Result<State> {
    match yaml
    case None => Ok(Undefined)
    case Some(parser) => LoadResult(files, parser, fs, s)
  }

  method LoadYaml(yaml: Option<Parser>, files: seq<string>, fs: FileSystem, c: Config?) returns (r: Result<Config?>)
    modifies c
    ensures SnapResult(r) == YamlResult(yaml, files, fs, old(Snap(c)))
    ensures r.Ok? ==> r.value == if yaml.Some? then c else null
    ensures r.Err? ==> Snap(c) == old(Snap(c))
  {
    if yaml.None? {
      return Ok(null);
    }
    r := Load(files, yaml.value, fs, c);
  }

  // ---------------------------------------------------------------------------------------------
  // translate: JSON decoding of an environment value, with the raw string as the fallback

  predicate IsJsonWs(c: char) {
    c == ' ' || c == '\t' || c == '\n' || c == '\r'
  }

  function TrimStart(s: string): string
    decreases |s|
  {
    if s != [] && IsJsonWs(s[0]) then TrimStart(s[1..]) else s
  }

  function TrimEnd(s: string): string
    decreases |s|
  {
    if s != [] && IsJsonWs(s[|s| - 1]) then TrimEnd(s[..|s| - 1]) else s
  }

  /** `JSON.parse` ignores whitespace around the value. */
  function TrimJson(s: string): string {
    TrimEnd(TrimStart(s))
  }

  /** A JSON natural number literal: `0`, or digits without a leading zero. */
  predicate IsNatLiteral(t: string) {
    t == "0" || (|t| >= 1 && '1' <= t[0] <= '9' && AllDigits(t))
  }

  /** A JSON integer literal: a natural literal with an optional minus sign. */
  predicate IsJsonInt(t: string) {
    IsNatLiteral(t) || (|t| >= 2 && t[0] == '-' && IsNatLiteral(t[1..]))
  }

  function JsonIntValue(t: string): int
    requires IsJsonInt(t)
  {
    if t[0] == '-' then -(DigitsValue(t[1..]) as int) else DigitsValue(t)
  }

  /** A character a JSON string may hold without an escape. */
  predicate PlainChar(c: char) {
    c != '"' && c != '\\' && c >= ' '
  }

  predicate IsPlainText(s: string) {
    forall k :: 0 <= k < |s| ==> PlainChar(s[k])
  }

  /** A JSON string literal without escape sequences. */
  predicate IsPlainJsonString(t: string) {
    |t| >= 2 && t[0] == '"' && t[|t| - 1] == '"' && IsPlainText(t[1..|t| - 1])
  }

  /** The scalar JSON texts this model decodes: `true`, `false`, `null`, integers and strings
      without escapes. */
  function JsonScalar(s: string): Option<Value> {
    var t := TrimJson(s);
    if t == "true" then Some(Bool(true))
    else if t == "false" then Some(Bool(false))
    else if t == "null" then Some(Null)
    else if IsJsonInt(t) then Some(Int(JsonIntValue(t)))
    else if IsPlainJsonString(t) then Some(Str(t[1..|t| - 1]))
    else None
  }

  /** `translate(val)`: the JSON decoding of `val` when it is valid JSON, the raw string otherwise. */
  function Translate(val: string): Value {
    match JsonScalar(val)
    case Some(v) => v
    case None => Str(val)
  }

  /** The scalars whose JSON text this model can decode. */
  predicate IsScalar(v: Value) {
    v.Bool? || v.Null? || v.Int? || (v.Str? && IsPlainText(v.s))
  }

  /** `JSON.stringify` of a scalar. */
  function EncodeScalar(v: Value): (t: string)
    requires IsScalar(v)
    ensures |t| > 0
  {
    match v
    case Bool(b) => if b then "true" else "false"
    case Null => "null"
    case Int(i) => if i < 0 then "-" + NatToString(-i) else NatToString(i)
    case Str(s) => "\"" + s + "\""
  }

  lemma TrimJsonNoop(t: string)
    requires |t| > 0 && !IsJsonWs(t[0]) && !IsJsonWs(t[|t| - 1])
    ensures TrimJson(t) == t
  {
  }

  /** The decimal notation of a natural number is a JSON natural literal denoting it. */
  lemma NatLiteralRoundTrip(n: nat)
    ensures IsNatLiteral(NatToString(n)) && DigitsValue(NatToString(n)) == n
  {
    DigitsValueOfNatToString(n);
    var d := NatToString(n);
    assert IsDigit(d[0]);
  }

  /** Decoding an integer's JSON text gives the integer back. */
  lemma IntRoundTrip(i: int)
    ensures var t := if i < 0 then "-" + NatToString(-i) else NatToString(i);
      IsJsonInt(t) && JsonIntValue(t) == i
  {
    if i < 0 {
      var d := NatToString(-i);
      NatLiteralRoundTrip(-i);
      var t := "-" + d;
      assert t[1..] == d && t[0] == '-';
      assert JsonIntValue(t) == -(DigitsValue(d) as int);
    } else {
      var d := NatToString(i);
      NatLiteralRoundTrip(i);
      assert IsDigit(d[0]);
      assert JsonIntValue(d) == DigitsValue(d);
    }
  }

  /** The integer case of the round trip: the text starts with a sign or a digit, so it is none
      of the literals and has no whitespace to trim. */
  lemma TranslateIntRoundTrip(i: int)
    ensures Translate(EncodeScalar(Int(i))) == Int(i)
  {
    var t := EncodeScalar(Int(i));
    IntRoundTrip(i);
    assert t[0] == '-' || IsDigit(t[0]);
    TrimJsonNoop(t);
    assert t != "true" && t != "false" && t != "null" by {
      assert t[0] != 't' && t[0] != 'f' && t[0] != 'n';
    }
  }

  /** The string case of the round trip: the quotes come off and the text inside is returned. */
  lemma TranslateStrRoundTrip(s: string)
    requires IsPlainText(s)
    ensures Translate(EncodeScalar(Str(s))) == Str(s)
  {
    var t := EncodeScalar(Str(s));
    assert t[1..|t| - 1] == s;
    assert t[0] == '"';
    TrimJsonNoop(t);
    assert t != "true" && t != "false" && t != "null" by {
      assert t[0] != 't' && t[0] != 'f' && t[0] != 'n';
    }
    assert !IsJsonInt(t) by {
      assert t[0] != '-' && !IsDigit(t[0]);
    }
  }

  /** `translate` inverts `JSON.stringify` on every scalar this model decodes. */
  lemma TranslateEncodeRoundTrip(v: Value)
    requires IsScalar(v)
    ensures Translate(EncodeScalar(v)) == v
  {
    match v
    case Bool(_) =>
    case Null =>
    case Int(i) => TranslateIntRoundTrip(i);
    case Str(s) => TranslateStrRoundTrip(s);
  }

  /** Text that is not JSON stays the raw string: here, any word of lower-case letters other than
      the three JSON literals (the empty string included, which `JSON.parse` rejects). */
  lemma TranslateKeepsWords(val: string)
    requires forall k :: 0 <= k < |val| ==> 'a' <= val[k] <= 'z'
    requires val != "true" && val != "false" && val != "null"
    ensures Translate(val) == Str(val)
  {
    if val != [] {
      TrimJsonNoop(val);
    }
  }

  /** The two decodings the transform's behaviour hinges on: `"true"` becomes the boolean, and
      `"yes"`, which is not JSON, stays a string. */
  lemma TranslateExamples()
    ensures Translate("true") == Bool(true)
    ensures Translate("yes") == Str("yes")
    ensures Translate(" 42 ") == Int(42)
  {
    assert TrimJson(" 42 ") == "42";
    assert DigitsValue("42") == 42 by {
      assert "42"[..1] == "4";
    }
  }

  // ---------------------------------------------------------------------------------------------
  // loadEnvironment

  /** The map argument of `loadEnvironment`: (variable, config key) pairs in `Object.keys` order. */
  type EnvMapping = seq<(string, string)>

  /** `map || {}`. */
  function EnvEntries(mapping: Option<EnvMapping>): EnvMapping {
    match mapping
    case None => []
    case Some(es) => es
  }

  /** Whether some mapped variable is an own key of the environment, so that a write happens. */
  predicate SetsSome(entries: EnvMapping, env: map<string, string>) {
    exists k :: 0 <= k < |entries| && entries[k].0 in env
  }

  /** The config keys the mapping writes: those whose variable is set (even to the empty string). */
  function EnvTargets(entries: EnvMapping, env: map<string, string>): set<string> {
    set k | 0 <= k < |entries| && entries[k].0 in env :: entries[k].1
  }

  /** The `forEach`: every entry whose variable is set writes the translated value under its key. */
  function ApplyEnv(m: map<string, Value>, entries: EnvMapping, env: map<string, string>): map<string, Value>
    decreases |entries|
  {
    if entries == [] then m
    else
      var prev := ApplyEnv(m, entries[..|entries| - 1], env);
      var (name, key) := entries[|entries| - 1];
      if name in env then prev[key := Translate(env[name])] else prev
  }

  /** `process.env.hasOwnProperty(key)` when a variable of that name shadows the inherited method. */
  const ShadowedEnvCall: Error := TypeError("process.env.hasOwnProperty is not a function")

  /** The transform `loadEnvironment(map)` builds. Writing into `undefined` or into a frozen object
      is a `TypeError` (the module is strict); with nothing to write it returns its input. A
      variable named `hasOwnProperty` makes the first check throw, whatever the configuration. */
  function LoadEnvironmentResult(entries: EnvMapping, env: map<string, string>, s: State): Result<State> {
    if entries != [] && "hasOwnProperty" in env then Err(ShadowedEnvCall)
    else
      match s
      case Undefined =>
        if SetsSome(entries, env) then Err(TypeError("Cannot set properties of undefined")) else Ok(Undefined)
      case Object(m, frozen) =>
        if frozen then
          (if SetsSome(entries, env) then Err(TypeError("Cannot assign to read only property")) else Ok(s))
        else Ok(Object(ApplyEnv(m, entries, env), false))
  }

  method LoadEnvironment(entries: EnvMapping, env: map<string, string>, c: Config?) returns (r: Result<Config?>)
    modifies c
    ensures SnapResult(r) == LoadEnvironmentResult(entries, env, old(Snap(c)))
    ensures r.Ok? ==> r.value == c
    ensures r.Err? ==> Snap(c) == old(Snap(c))
  {
    var i := 0;
    while i < |entries|
      invariant 0 <= i <= |entries|
      invariant c != null ==> c.frozen == old(c.frozen) && c.data == ApplyEnv(old(c.data), entries[..i], env)
      invariant c != null && c.frozen ==> c.data == old(c.data)
      invariant (c == null || c.frozen) ==> !SetsSome(entries[..i], env)
      invariant i > 0 ==> "hasOwnProperty" !in env
    {
      assert entries[..i + 1][..i] == entries[..i];
      var (name, key) := entries[i];
      if "hasOwnProperty" in env {
        return Err(ShadowedEnvCall);
      }
      if name in env {
        if c == null {
          return Err(TypeError("Cannot set properties of undefined"));
        }
        var ok := c.Put(key, Translate(env[name]));
        if !ok {
          return Err(TypeError("Cannot assign to read only property"));
        }
      }
      assert forall k :: 0 <= k < i ==> entries[..i + 1][k] == entries[..i][k];
      i := i + 1;
    }
    assert entries[..i] == entries;
    r := Ok(c);
  }

  /** The keys after the mapping are the old ones plus the targets of set variables; a key no set
      variable targets keeps its value, so unset variables add nothing. */
  lemma {:induction false} ApplyEnvFrame(m: map<string, Value>, entries: EnvMapping, env: map<string, string>, k: string)
    ensures k in ApplyEnv(m, entries, env) <==> k in m || k in EnvTargets(entries, env)
    ensures k !in EnvTargets(entries, env) && k in m ==> ApplyEnv(m, entries, env)[k] == m[k]
    decreases |entries|
  {
    if entries != [] {
      var n := |entries| - 1;
      var init := entries[..n];
      ApplyEnvFrame(m, init, env, k);
      assert forall j :: 0 <= j < n ==> init[j] == entries[j];
      assert EnvTargets(entries, env) == EnvTargets(init, env) + (if entries[n].0 in env then {entries[n].1} else {}) by {
        forall x | x in EnvTargets(entries, env)
          ensures x in EnvTargets(init, env) + (if entries[n].0 in env then {entries[n].1} else {})
        {
          var j :| 0 <= j < |entries| && entries[j].0 in env && entries[j].1 == x;
          if j < n {
            assert init[j] == entries[j];
          }
        }
      }
    }
  }

  /** A key receives the translated value of the last entry that targets it with a set variable. */
  lemma {:induction false} ApplyEnvLastWins(m: map<string, Value>, entries: EnvMapping, env: map<string, string>, i: nat)
    requires i < |entries| && entries[i].0 in env
    requires forall j :: i < j < |entries| && entries[j].0 in env ==> entries[j].1 != entries[i].1
    ensures var key := entries[i].1;
      key in ApplyEnv(m, entries, env) && ApplyEnv(m, entries, env)[key] == Translate(env[entries[i].0])
    decreases |entries|
  {
    var n := |entries| - 1;
    if i < n {
      var init := entries[..n];
      assert init[i] == entries[i];
      forall j | i < j < n && init[j].0 in env ensures init[j].1 != init[i].1 {
        assert init[j] == entries[j];
      }
      ApplyEnvLastWins(m, init, env, i);
    }
  }

  /** An absent map writes nothing: the transform passes any configuration through. */
  lemma LoadEnvironmentAbsentMap(env: map<string, string>, s: State)
    ensures LoadEnvironmentResult(EnvEntries(None), env, s) == Ok(s)
  {
  }

  /** The author's name is not JSON, so it stays the raw string. */
  lemma TranslateAuthor()
    ensures Translate("Ernest Hemingway") == Str("Ernest Hemingway")
  {
    assert TrimJson("Ernest Hemingway") == "Ernest Hemingway";
    assert JsonScalar("Ernest Hemingway") == None;
  }

  /** The environment example: the set author is copied as a raw string, the set boolean is decoded,
      and the unset variable adds no key. */
  lemma LoadEnvironmentExample()
    ensures var entries := [("SOME_UNDEFINED_KEY", "undefinedField"), ("SOME_AUTHOR", "author"),
                            ("SOME_BOOLEAN_KEY", "booleanKey")];
      var env := map["SOME_AUTHOR" := "Ernest Hemingway", "SOME_BOOLEAN_KEY" := "true"];
      LoadEnvironmentResult(entries, env, Object(map[], false))
        == Ok(Object(map["author" := Str("Ernest Hemingway"), "booleanKey" := Bool(true)], false))
  {
    var e0, e1, e2 := ("SOME_UNDEFINED_KEY", "undefinedField"), ("SOME_AUTHOR", "author"),
                      ("SOME_BOOLEAN_KEY", "booleanKey");
    var env := map["SOME_AUTHOR" := "Ernest Hemingway", "SOME_BOOLEAN_KEY" := "true"];
    var none: map<string, Value> := map[];
    TranslateAuthor();
    TranslateExamples();
    assert "hasOwnProperty" !in env && "SOME_UNDEFINED_KEY" !in env;
    assert Translate(env["SOME_AUTHOR"]) == Str("Ernest Hemingway");
    assert Translate(env["SOME_BOOLEAN_KEY"]) == Bool(true);
    assert ApplyEnv(none, [e0], env) == none by {
      assert [e0][..0] == [];
    }
    assert ApplyEnv(none, [e0, e1], env) == none["author" := Str("Ernest Hemingway")] by {
      assert [e0, e1][..1] == [e0];
    }
    assert ApplyEnv(none, [e0, e1, e2], env)
        == none["author" := Str("Ernest Hemingway")]["booleanKey" := Bool(true)] by {
      assert [e0, e1, e2][..2] == [e0, e1];
    }
    assert LoadEnvironmentResult([e0, e1, e2], env, Object(none, false))
        == Ok(Object(ApplyEnv(none, [e0, e1, e2], env), false));
  }

  // ---------------------------------------------------------------------------------------------
  // assign: `Object.assign(config, ...objects)` (ConfigObject.AssignResult, ConfigObject.ObjectAssign)

  /** With no objects, `assign()` returns the configuration it is given. */
  lemma AssignWithoutObjects(m: map<string, Value>, frozen: bool)
    ensures AssignResult(Object(m, frozen), []) == Ok(Object(m, frozen))
  {
    assert m + Merged([]) == m;
  }

  // ---------------------------------------------------------------------------------------------
  // required

  /** The listed fields whose `config[key]` is falsy, in input order (`fields.filter`). */
  function Missing(fields: seq<string>, m: map<string, Value>): (missing: seq<string>)
    ensures forall x :: x in missing <==> x in fields && !TruthyProp(m, x)
    decreases |fields|
  {
    if fields == [] then []
    else (if TruthyProp(m, fields[0]) then [] else [fields[0]]) + Missing(fields[1..], m)
  }

  /** `a` is `b` with some elements left out, the rest in their order. */
  predicate IsSubsequence(a: seq<string>, b: seq<string>)
    decreases |b|
  {
    if a == [] then true
    else if b == [] then false
    else if a[0] == b[0] then IsSubsequence(a[1..], b[1..])
    else IsSubsequence(a, b[1..])
  }

  /** Putting an element in front keeps a subsequence a subsequence. */
  lemma {:induction false} IsSubsequenceSkip(a: seq<string>, b: seq<string>, x: string)
    requires IsSubsequence(a, b)
    ensures IsSubsequence(a, [x] + b)
    decreases |b|, 1
  {
    assert ([x] + b)[1..] == b;
    if a != [] && a[0] == x {
      IsSubsequenceDropHead(a, b);
    }
  }

  lemma {:induction false} IsSubsequenceDropHead(a: seq<string>, b: seq<string>)
    requires a != [] && IsSubsequence(a, b)
    ensures IsSubsequence(a[1..], b)
    decreases |b|, 0
  {
    assert [b[0]] + b[1..] == b;
    if a[0] != b[0] {
      IsSubsequenceDropHead(a, b[1..]);
    }
    IsSubsequenceSkip(a[1..], b[1..], b[0]);
  }

  /** A falsy field is reported once for every time it is listed, a truthy one never. */
  lemma {:induction false} MissingCounts(fields: seq<string>, m: map<string, Value>, x: string)
    ensures multiset(Missing(fields, m))[x] == if TruthyProp(m, x) then 0 else multiset(fields)[x]
    decreases |fields|
  {
    if fields != [] {
      MissingCounts(fields[1..], m, x);
      var head := if TruthyProp(m, fields[0]) then [] else [fields[0]];
      assert Missing(fields, m) == head + Missing(fields[1..], m);
      assert multiset(Missing(fields, m)) == multiset(head) + multiset(Missing(fields[1..], m));
      assert fields == [fields[0]] + fields[1..];
      assert multiset(fields) == multiset([fields[0]]) + multiset(fields[1..]);
    }
  }

  /** The missing fields are reported in the order they were listed. */
  lemma {:induction false} MissingInOrder(fields: seq<string>, m: map<string, Value>)
    ensures IsSubsequence(Missing(fields, m), fields)
    decreases |fields|
  {
    if fields != [] {
      MissingInOrder(fields[1..], m);
      var rest := Missing(fields[1..], m);
      assert [fields[0]] + fields[1..] == fields;
      if TruthyProp(m, fields[0]) {
        assert Missing(fields, m) == rest;
        IsSubsequenceSkip(rest, fields[1..], fields[0]);
      } else {
        assert Missing(fields, m) == [fields[0]] + rest;
        assert ([fields[0]] + rest)[1..] == rest;
      }
    }
  }

  /** The transform `required(fields)` builds, on `fields || []`. Reading a field of `undefined` is a
      `TypeError`, so only an empty list lets `undefined` through. */
  function RequiredResult(fields: seq<string>, s: State): Result<State> {
    match s
    case Undefined =>
      if fields == [] then Ok(Undefined) else Err(TypeError("Cannot read properties of undefined"))
    case Object(m, _) =>
      var missing := Missing(fields, m);
      if missing != [] then Err(ReferenceError("Missing required fields: " + Join(missing, ", ")))
      else Ok(s)
  }

  method Required(fields: seq<string>, c: Config?) returns (r: Result<Config?>)
    ensures SnapResult(r) == RequiredResult(fields, Snap(c))
    ensures r.Ok? ==> r.value == c
  {
    if c == null {
      if fields == [] {
        return Ok(null);
      }
      return Err(TypeError("Cannot read properties of undefined"));
    }
    var missing := Missing(fields, c.data);
    if |missing| > 0 {
      return Err(ReferenceError("Missing required fields: " + Join(missing, ", ")));
    }
    r := Ok(c);
  }

  /** `required` throws exactly when some listed field is falsy or absent, naming those fields in
      input order; otherwise it returns the configuration unchanged. */
  lemma RequiredThrowsIff(fields: seq<string>, m: map<string, Value>, frozen: bool)
    ensures var r := RequiredResult(fields, Object(m, frozen));
      && (r.Err? <==> exists k :: 0 <= k < |fields| && !TruthyProp(m, fields[k]))
      && (r.Err? ==> r.error == ReferenceError("Missing required fields: " + Join(Missing(fields, m), ", "))
                     && IsSubsequence(Missing(fields, m), fields))
      && (r.Ok? ==> r.value == Object(m, frozen))
  {
    MissingInOrder(fields, m);
    if exists k :: 0 <= k < |fields| && !TruthyProp(m, fields[k]) {
      var k :| 0 <= k < |fields| && !TruthyProp(m, fields[k]);
      assert fields[k] in Missing(fields, m);
    }
    if Missing(fields, m) != [] {
      var x := Missing(fields, m)[0];
      assert x in Missing(fields, m);
      var k :| 0 <= k < |fields| && fields[k] == x;
    }
  }

  /** The required-field examples: a present truthy field passes, a missing one is reported by name. */
  lemma RequiredExamples(m: map<string, Value>)
    requires "author" in m && m["author"] == Str("Lewis Carroll") && "foo" !in m
    ensures RequiredResult(["author"], Object(m, false)) == Ok(Object(m, false))
    ensures RequiredResult(["foo"], Object(m, false)) == Err(ReferenceError("Missing required fields: foo"))
  {
    assert !TruthyProp(m, "foo");
    assert ["foo"][1..] == [];
    assert Missing(["foo"], m) == ["foo"];
    assert Join(["foo"], ", ") == "foo";
    assert "Missing required fields: " + "foo" == "Missing required fields: foo";
  }

  // ---------------------------------------------------------------------------------------------
  // defaults

  /** The argument of `defaults`: (key, value) pairs in `Object.keys` order. */
  type DefaultEntries = seq<(string, Value)>

  /** `defaults || {}`. */
  function DefaultEntriesOf(d: Option<DefaultEntries>): DefaultEntries {
    match d
    case None => []
    case Some(es) => es
  }

  /** Where the `forEach` over the defaults stops: the properties it leaves behind, and the error
      it met, if any. */
  datatype Walk = Walk(data: map<string, Value>, error: Option<Error>)

  /** `config.hasOwnProperty(key)` when an own property of that name shadows the inherited method:
      calling a non-function throws. */
  const ShadowedCall: Error := TypeError("config.hasOwnProperty is not a function")

  const NotExtensible: Error := TypeError("Cannot add property, object is not extensible")

  /** The loop of `defaults(d)` over an object: each key is checked with `config.hasOwnProperty`;
      an absent key is written, which a frozen object rejects. Existing properties never change,
      every error is a `TypeError`, and a frozen object is left as it was. */
  function DefaultsWalk(m: map<string, Value>, frozen: bool, entries: DefaultEntries): (w: Walk)
    ensures m.Keys <= w.data.Keys && forall k :: k in m ==> w.data[k] == m[k]
    ensures frozen ==> w.data == m
    ensures w.error.Some? ==> w.error.value.TypeError?
    decreases |entries|
  {
    if entries == [] then Walk(m, None)
    else
      var prev := DefaultsWalk(m, frozen, entries[..|entries| - 1]);
      var (key, v) := entries[|entries| - 1];
      if prev.error.Some? then prev
      else if "hasOwnProperty" in prev.data then Walk(prev.data, Some(ShadowedCall))
      else if key in prev.data then prev
      else if frozen then Walk(prev.data, Some(NotExtensible))
      else Walk(prev.data[key := v], None)
  }

  /** The transform `defaults(d)` builds, on `d || {}`. `undefined.hasOwnProperty` is a `TypeError`,
      so only empty defaults let `undefined` through. */
  function DefaultsResult(entries: DefaultEntries, s: State): Result<State> {
    match s
    case Undefined =>
      if entries == [] then Ok(Undefined) else Err(TypeError("Cannot read properties of undefined"))
    case Object(m, frozen) =>
      var w := DefaultsWalk(m, frozen, entries);
      if w.error.Some? then Err(w.error.value) else Ok(Object(w.data, frozen))
  }

  /** Once the loop has thrown, later entries play no part. */
  lemma {:induction false} DefaultsWalkStops(m: map<string, Value>, frozen: bool, entries: DefaultEntries, i: nat)
    requires i <= |entries| && DefaultsWalk(m, frozen, entries[..i]).error.Some?
    ensures DefaultsWalk(m, frozen, entries) == DefaultsWalk(m, frozen, entries[..i])
    decreases |entries|
  {
    if i < |entries| {
      var n := |entries| - 1;
      assert entries[..n][..i] == entries[..i];
      DefaultsWalkStops(m, frozen, entries[..n], i);
    } else {
      assert entries[..i] == entries;
    }
  }

  method Defaults(entries: DefaultEntries, c: Config?) returns (r: Result<Config?>)
    modifies c
    ensures SnapResult(r) == DefaultsResult(entries, old(Snap(c)))
    ensures r.Ok? ==> r.value == c
    ensures c != null ==> c.frozen == old(c.frozen) && c.data == DefaultsWalk(old(c.data), old(c.frozen), entries).data
  {
    if c == null {
      if entries == [] {
        return Ok(null);
      }
      return Err(TypeError("Cannot read properties of undefined"));
    }
    var i := 0;
    while i < |entries|
      invariant 0 <= i <= |entries|
      invariant c.frozen == old(c.frozen)
      invariant DefaultsWalk(old(c.data), c.frozen, entries[..i]) == Walk(c.data, None)
    {
      assert entries[..i + 1][..i] == entries[..i];
      var (key, v) := entries[i];
      if "hasOwnProperty" in c.data {
        DefaultsWalkStops(old(c.data), c.frozen, entries, i + 1);
        return Err(ShadowedCall);
      }
      if key !in c.data {
        var ok := c.Put(key, v);
        if !ok {
          DefaultsWalkStops(old(c.data), c.frozen, entries, i + 1);
          return Err(NotExtensible);
        }
      }
      i := i + 1;
    }
    assert entries[..i] == entries;
    r := Ok(c);
  }

  /** The object the entries denote, the first entry for a key giving its value. */
  function EntriesMap(entries: DefaultEntries): map<string, Value>
    decreases |entries|
  {
    if entries == [] then map[]
    else
      var prev := EntriesMap(entries[..|entries| - 1]);
      var (key, v) := entries[|entries| - 1];
      if key in prev then prev else prev[key := v]
  }

  /** Entry `j` is the first to name its key. */
  predicate FirstEntryFor(entries: DefaultEntries, j: int) {
    0 <= j < |entries| && forall j' :: 0 <= j' < j ==> entries[j'].0 != entries[j].0
  }

  /** A key is in the entries' object exactly when some entry names it, with the value of the
      first entry that does. */
  lemma {:induction false} EntriesMapLookup(entries: DefaultEntries, j: nat)
    requires FirstEntryFor(entries, j)
    ensures entries[j].0 in EntriesMap(entries) && EntriesMap(entries)[entries[j].0] == entries[j].1
    decreases |entries|
  {
    var n := |entries| - 1;
    if j < n {
      forall j' | 0 <= j' < j ensures entries[..n][j'].0 != entries[..n][j].0 {
        assert entries[..n][j'] == entries[j'];
      }
      EntriesMapLookup(entries[..n], j);
    } else {
      forall j' | 0 <= j' < n ensures entries[..n][j'].0 != entries[j].0 {
        assert entries[..n][j'] == entries[j'];
      }
      EntriesMapKeys(entries[..n], entries[j].0);
    }
  }

  lemma {:induction false} EntriesMapKeys(entries: DefaultEntries, k: string)
    ensures k in EntriesMap(entries) <==> exists j :: 0 <= j < |entries| && entries[j].0 == k
    decreases |entries|
  {
    if entries != [] {
      var n := |entries| - 1;
      EntriesMapKeys(entries[..n], k);
      if k in EntriesMap(entries[..n]) {
        var j :| 0 <= j < n && entries[..n][j].0 == k;
        assert entries[j] == entries[..n][j];
      }
      if exists j :: 0 <= j < |entries| && entries[j].0 == k {
        var j :| 0 <= j < |entries| && entries[j].0 == k;
        if j < n {
          assert entries[..n][j] == entries[j];
        }
      }
    }
  }

  /** Neither the object nor the defaults have a property named `hasOwnProperty`. */
  predicate NoShadowing(m: map<string, Value>, entries: DefaultEntries) {
    "hasOwnProperty" !in m && forall j :: 0 <= j < |entries| ==> entries[j].0 != "hasOwnProperty"
  }

  /** Without shadowing, the loop over a writable object adds the entries' object under the
      existing properties. */
  lemma {:induction false} DefaultsWalkFills(m: map<string, Value>, entries: DefaultEntries)
    requires NoShadowing(m, entries)
    ensures DefaultsWalk(m, false, entries) == Walk(EntriesMap(entries) + m, None)
    decreases |entries|
  {
    if entries != [] {
      var n := |entries| - 1;
      var init := entries[..n];
      var (key, v) := entries[n];
      assert forall j :: 0 <= j < n ==> init[j] == entries[j];
      DefaultsWalkFills(m, init);
      var before := EntriesMap(init);
      EntriesMapKeys(init, "hasOwnProperty");
      assert "hasOwnProperty" !in before + m;
      if key in before {
        assert EntriesMap(entries) == before;
      } else if key in m {
        assert EntriesMap(entries) + m == before + m;
      } else {
        assert EntriesMap(entries) + m == (before + m)[key := v];
      }
    }
  }

  /** Keys already present are kept (falsy ones too), absent keys take the value of the first
      entry naming them, and no other key appears. */
  lemma DefaultsFills(entries: DefaultEntries, m: map<string, Value>)
    requires NoShadowing(m, entries)
    ensures var r := DefaultsResult(entries, Object(m, false));
      && r.Ok? && r.value.Object? && !r.value.frozen
      && r.value.data.Keys == m.Keys + EntriesMap(entries).Keys
      && (forall k :: k in m ==> r.value.data[k] == m[k])
      && (forall j :: FirstEntryFor(entries, j) && entries[j].0 !in m ==>
            entries[j].0 in r.value.data && r.value.data[entries[j].0] == entries[j].1)
  {
    DefaultsWalkFills(m, entries);
    var r := DefaultsResult(entries, Object(m, false));
    assert r == Ok(Object(EntriesMap(entries) + m, false));
    forall j | FirstEntryFor(entries, j) && entries[j].0 !in m
      ensures entries[j].0 in r.value.data && r.value.data[entries[j].0] == entries[j].1
    {
      EntriesMapLookup(entries, j);
    }
  }

  /** An own `hasOwnProperty` property makes the first check throw, before anything is written. */
  lemma DefaultsThrowsWhenShadowed(entries: DefaultEntries, m: map<string, Value>, frozen: bool)
    requires "hasOwnProperty" in m && entries != []
    ensures DefaultsResult(entries, Object(m, frozen)) == Err(ShadowedCall)
  {
    assert entries[..1][..0] == [];
    DefaultsWalkStops(m, frozen, entries, 1);
  }

  /** Applying the same defaults twice is applying them once, as long as none of them is named
      `hasOwnProperty`. */
  lemma DefaultsIdempotent(entries: DefaultEntries, s: State)
    requires DefaultsResult(entries, s).Ok?
    requires forall j :: 0 <= j < |entries| ==> entries[j].0 != "hasOwnProperty"
    ensures DefaultsResult(entries, DefaultsResult(entries, s).value) == DefaultsResult(entries, s)
  {
    match s
    case Undefined =>
    case Object(m, frozen) =>
      if !frozen && entries != [] {
        if "hasOwnProperty" in m {
          DefaultsThrowsWhenShadowed(entries, m, frozen);
        }
        DefaultsWalkFills(m, entries);
        DefaultsWalkFills(EntriesMap(entries) + m, entries);
        assert EntriesMap(entries) + (EntriesMap(entries) + m) == EntriesMap(entries) + m;
      }
  }

  /** A default named `hasOwnProperty` shadows the method for the next run: the first run succeeds
      and the second throws. */
  lemma DefaultsShadowingExample()
    ensures var entries := [("a", Int(1)), ("hasOwnProperty", Int(2))];
      var once := Object(map["a" := Int(1), "hasOwnProperty" := Int(2)], false);
      && DefaultsResult(entries, Object(map[], false)) == Ok(once)
      && DefaultsResult(entries, once) == Err(ShadowedCall)
  {
    var entries := [("a", Int(1)), ("hasOwnProperty", Int(2))];
    var none: map<string, Value> := map[];
    assert DefaultsWalk(none, false, entries[..1]) == Walk(none["a" := Int(1)], None) by {
      assert entries[..1][..0] == [];
    }
    assert entries[..2] == entries;
    DefaultsThrowsWhenShadowed(entries, map["a" := Int(1), "hasOwnProperty" := Int(2)], false);
  }

  /** The defaults example: a missing key is filled and an existing falsy value is not clobbered. */
  lemma DefaultsExample()
    ensures DefaultsResult([("foo", Str("bar")), ("untrue", Bool(true))], Object(map["untrue" := Bool(false)], false))
      == Ok(Object(map["foo" := Str("bar"), "untrue" := Bool(false)], false))
  {
    var entries := [("foo", Str("bar")), ("untrue", Bool(true))];
    var m := map["untrue" := Bool(false)];
    DefaultsWalkFills(m, entries);
    assert EntriesMap(entries[..1]) == map["foo" := Str("bar")] by {
      assert entries[..1][..0] == [];
    }
    assert entries[..2][..1] == entries[..1];
    assert EntriesMap(entries) + m == map["foo" := Str("bar"), "untrue" := Bool(false)];
  }

  // ---------------------------------------------------------------------------------------------
  // freeze

  /** The transform `freeze()` builds: `Object.freeze(config)`, which returns its argument
      (`undefined` included) and leaves its properties as they are. */
  function FreezeResult(s: State): Result<State> {
    match s
    case Undefined => Ok(Undefined)
    case Object(m, _) => Ok(Object(m, true))
  }

  method Freeze(c: Config?) returns (r: Result<Config?>)
    modifies c
    ensures SnapResult(r) == FreezeResult(old(Snap(c)))
    ensures r == Ok(c)
  {
    if c != null {
      c.Freeze();
    }
    r := Ok(c);
  }

  /** On a frozen object the loop over the defaults throws once it reaches a key the object lacks. */
  lemma {:induction false} FrozenWalkFails(m: map<string, Value>, entries: DefaultEntries, j: nat)
    requires j < |entries| && entries[j].0 !in m
    ensures DefaultsWalk(m, true, entries).error.Some?
    decreases |entries|
  {
    var n := |entries| - 1;
    if j < n {
      assert entries[..n][j] == entries[j];
      FrozenWalkFails(m, entries[..n], j);
    }
  }

  /** A frozen configuration keeps its values for reading and every write is a `TypeError`:
      `Object.assign` of a non-empty object, a default for an absent key, a set variable. */
  lemma FrozenRejectsWrites(m: map<string, Value>, sources: seq<Value>, d: DefaultEntries,
                            entries: EnvMapping, env: map<string, string>)
    ensures FreezeResult(Object(m, false)) == Ok(Object(m, true))
    ensures WritesAny(sources) ==> AssignResult(Object(m, true), sources).error.TypeError?
    ensures (exists j :: 0 <= j < |d| && d[j].0 !in m) ==>
      DefaultsResult(d, Object(m, true)).Err? && DefaultsResult(d, Object(m, true)).error.TypeError?
    ensures SetsSome(entries, env) ==> LoadEnvironmentResult(entries, env, Object(m, true)).error.TypeError?
  {
    if exists j :: 0 <= j < |d| && d[j].0 !in m {
      var j :| 0 <= j < |d| && d[j].0 !in m;
      FrozenWalkFails(m, d, j);
    }
  }
}
