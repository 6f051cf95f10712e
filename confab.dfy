/** The `confab(transforms)` pipeline: seed an empty object and hand each transform's result to the
    next, left to right. */
module Confab {
  import opened Values
  import opened ConfigObject
  import opened Utils
  import Transforms
  import Filters

  /** Everything the transforms read from outside: the process environment, the filesystem, the
      working directory, the host name the operating system reports, the JSON parser and the YAML
      parser when js-yaml is installed. */
  datatype World = World(
    env: map<string, string>,
    fs: FileSystem,
    cwd: string,
    osHostname: string,
    parseJson: Parser,
    yaml: Option<Parser>)

  /** The transforms a pipeline can hold: the library's own, the legacy filters, and the two kinds of
      hand-written function the pipeline is exercised with (one that returns a fixed object, one that
      doubles every number in place). An absent argument is `None`. */
  datatype Transform =
    | LoadJson(files: Files)
    | LoadYaml(files: Files)
    | EnvConfigFile
    | LoadEnvironment(mapping: Option<Transforms.EnvMapping>)
    | Assign(objects: seq<Value>)
    | Required(fields: Option<seq<string>>)
    | Defaults(defaults: Option<Transforms.DefaultEntries>)
    | Freeze
    | LegacyRequired(legacyFields: Option<seq<string>>)
    | LegacyDefaults(legacyDefaults: Option<map<string, Value>>)
    | LegacyFreeze
    | Populate(value: map<string, Value>)
    | TimesTwo

  /** `fields || []`. */
  function FieldsOf(fields: Option<seq<string>>): seq<string> {
    match fields
    case None => []
    case Some(fs) => fs
  }

  /** A value with its number doubled, if it is one. */
  function Doubled(v: Value): Value {
    if v.Int? then Int(2 * v.i) else v
  }

  /** Whether some own property holds a number. */
  predicate HasNumber(m: map<string, Value>) {
    exists k :: k in m && m[k].Int?
  }

  /** The doubling function: `Object.keys(undefined)` is a `TypeError`; on a frozen object the first
      number it rewrites is a `TypeError` (strict mode); otherwise every number is doubled and every
      other value kept. */
  function TimesTwoResult(s: State): Result<State> {
    match s
    case Undefined => Err(TypeError("Cannot convert undefined or null to object"))
    case Object(m, frozen) =>
      if frozen then
        (if HasNumber(m) then Err(TypeError("Cannot assign to read only property")) else Ok(s))
      else Ok(Object(map k | k in m :: Doubled(m[k]), false))
  }

  method ApplyTimesTwo(c: Config?) returns (r: Result<Config?>)
    modifies c
    ensures SnapResult(r) == TimesTwoResult(old(Snap(c)))
    ensures r.Ok? ==> r.value == c
    ensures r.Err? ==> Snap(c) == old(Snap(c))
  {
    if c == null {
      return Err(TypeError("Cannot convert undefined or null to object"));
    }
    ghost var m := c.data;
    var todo := c.data.Keys;
    while todo != {}
      invariant todo <= m.Keys
      invariant c.frozen == old(c.frozen)
      invariant c.frozen ==> c.data == m
      invariant c.frozen ==> forall k :: k in m && k !in todo ==> !m[k].Int?
      invariant !c.frozen ==> c.data == map k | k in m :: if k in todo then m[k] else Doubled(m[k])
      decreases todo
    {
      var key :| key in todo;
      if c.data[key].Int? {
        var ok := c.Put(key, Int(2 * c.data[key].i));
        if !ok {
          return Err(TypeError("Cannot assign to read only property"));
        }
      }
      todo := todo - {key};
    }
    assert !c.frozen ==> c.data == map k | k in m :: Doubled(m[k]);
    r := Ok(c);
  }

  /** What one transform makes of the incoming configuration. */
  function Step(t: Transform, w: World, s: State): Result<State> {
    match t
    case LoadJson(files) => LoadResult(Normalize(files), w.parseJson, w.fs, s)
    case LoadYaml(files) => Transforms.YamlResult(w.yaml, Normalize(files), w.fs, s)
    case EnvConfigFile =>
      var l := Transforms.EnvConfigLoader(w.env, w.cwd, w.osHostname, w.fs);
      if l.format == Transforms.Json then LoadResult(l.files, w.parseJson, w.fs, s)
      else Transforms.YamlResult(w.yaml, l.files, w.fs, s)
    case LoadEnvironment(mapping) =>
      Transforms.LoadEnvironmentResult(Transforms.EnvEntries(mapping), w.env, s)
    case Assign(objects) => AssignResult(s, objects)
    case Required(fields) => Transforms.RequiredResult(FieldsOf(fields), s)
    case Defaults(d) => Transforms.DefaultsResult(Transforms.DefaultEntriesOf(d), s)
    case Freeze => Transforms.FreezeResult(s)
    case LegacyRequired(fields) => Filters.LegacyRequiredResult(fields, s)
    case LegacyDefaults(d) => Filters.LegacyDefaultsResult(d, s)
    case LegacyFreeze => Transforms.FreezeResult(s)
    case Populate(m) => Ok(Object(m, false))
    case TimesTwo => TimesTwoResult(s)
  }

  /** Runs one transform on a configuration reference. A transform that fails leaves the object as
      it found it, except `defaults`, which may have written some keys before it throws; one that
      succeeds returns the object it was given, except the fixed-object one, which returns its own. */
  method Apply(t: Transform, w: World, c: Config?) returns (r: Result<Config?>)
    modifies c
    ensures SnapResult(r) == Step(t, w, old(Snap(c)))
    ensures r.Err? && !t.Defaults? && c != null ==> c.data == old(c.data) && c.frozen == old(c.frozen)
    ensures r.Ok? && r.value != c ==> r.value == null || fresh(r.value)
  {
    match t
    case LoadJson(files) =>
      r := Load(Normalize(files), w.parseJson, w.fs, c);
    case LoadYaml(files) =>
      r := Transforms.LoadYaml(w.yaml, Normalize(files), w.fs, c);
    case EnvConfigFile =>
      var l := Transforms.LoadEnvConfigFile(w.env, w.cwd, w.osHostname, w.fs);
      if l.format == Transforms.Json {
        r := Load(l.files, w.parseJson, w.fs, c);
      } else {
        r := Transforms.LoadYaml(w.yaml, l.files, w.fs, c);
      }
    case LoadEnvironment(mapping) =>
      r := Transforms.LoadEnvironment(Transforms.EnvEntries(mapping), w.env, c);
    case Assign(objects) =>
      r := ObjectAssign(c, objects);
    case Required(fields) =>
      r := Transforms.Required(FieldsOf(fields), c);
    case Defaults(d) =>
      r := Transforms.Defaults(Transforms.DefaultEntriesOf(d), c);
    case Freeze =>
      r := Transforms.Freeze(c);
    case LegacyRequired(fields) =>
      r := Filters.LegacyRequired(fields, c);
    case LegacyDefaults(d) =>
      r := Filters.LegacyDefaults(d, c);
    case LegacyFreeze =>
      r := Filters.LegacyFreeze(c);
    case Populate(m) =>
      var fixed := new Config(m);
      r := Ok(fixed);
    case TimesTwo =>
      r := ApplyTimesTwo(c);
  }

  /** The reduce: each transform receives what the previous one returned; a thrown error stops the
      pipeline and is what the caller sees. */
  function Fold(s: State, ts: seq<Transform>, w: World): Result<State>
    decreases |ts|
  {
    if ts == [] then Ok(s)
    else
      match Step(ts[0], w, s)
      case Err(e) => Err(e)
      case Ok(next) => Fold(next, ts[1..], w)
  }

  /** The empty object the pipeline starts from. */
  const Seed: State := Object(map[], false)

  /** `confab(transforms)`: `transforms || []`, folded from an empty object. */
  function RunResult(ts: Option<seq<Transform>>, w: World): Result<State> {
    match ts
    case None => Ok(Seed)
    case Some(list) => Fold(Seed, list, w)
  }

  method Run(ts: Option<seq<Transform>>, w: World) returns (r: Result<Config?>)
    ensures SnapResult(r) == RunResult(ts, w)
    ensures r.Ok? && r.value != null ==> fresh(r.value)
  {
    var list := if ts.Some? then ts.value else [];
    var memo: Config? := new Config(map[]);
    var i := 0;
    while i < |list|
      invariant 0 <= i <= |list|
      invariant Fold(Snap(memo), list[i..], w) == RunResult(ts, w)
      invariant memo == null || fresh(memo)
    {
      assert list[i..][1..] == list[i + 1..];
      var next := Apply(list[i], w, memo);
      if next.Err? {
        return Err(next.error);
      }
      memo := next.value;
      i := i + 1;
    }
    r := Ok(memo);
  }

  /** With no transforms, or an absent list, the result is a fresh empty object. */
  lemma RunEmpty(w: World)
    ensures RunResult(None, w) == Ok(Object(map[], false))
    ensures RunResult(Some([]), w) == Ok(Object(map[], false))
  {
  }

  /** The first transform receives the empty object, and a one-transform pipeline is that transform. */
  lemma RunSingle(t: Transform, w: World)
    ensures RunResult(Some([t]), w) == Step(t, w, Object(map[], false))
  {
    FoldSingle(Seed, t, w);
  }

  /** Folding a single transform is applying it. */
  lemma FoldSingle(s: State, t: Transform, w: World)
    ensures Fold(s, [t], w) == Step(t, w, s)
  {
    assert [t][1..] == [];
    match Step(t, w, s)
    case Err(e) =>
    case Ok(next) => assert Fold(next, [], w) == Ok(next);
  }

  /** The outcome of running `ts` after an earlier outcome: an error stays, a state is folded on. */
  function Then(r: Result<State>, ts: seq<Transform>, w: World): Result<State> {
    match r
    case Err(e) => Err(e)
    case Ok(s) => Fold(s, ts, w)
  }

  /** Running two lists one after the other is running their concatenation. */
  lemma {:induction false} FoldAppend(s: State, a: seq<Transform>, b: seq<Transform>, w: World)
    ensures Fold(s, a + b, w) == Then(Fold(s, a, w), b, w)
    decreases |a|
  {
    if a == [] {
      assert a + b == b;
    } else {
      assert (a + b)[0] == a[0];
      assert (a + b)[1..] == a[1..] + b;
      match Step(a[0], w, s)
      case Err(e) =>
      case Ok(next) => FoldAppend(next, a[1..], b, w);
    }
  }

  /** Strictly left to right: the last transform receives what the ones before it produced. */
  lemma RunSnoc(ts: seq<Transform>, t: Transform, w: World)
    ensures RunResult(Some(ts + [t]), w) ==
      match RunResult(Some(ts), w)
      case Err(e) => Err(e)
      case Ok(s) => Step(t, w, s)
  {
    FoldAppend(Seed, ts, [t], w);
    match Fold(Seed, ts, w)
    case Err(e) =>
    case Ok(s) => FoldSingle(s, t, w);
  }

  /** Once a transform throws, no later transform runs and its error is the pipeline's error. */
  lemma ErrorStopsPipeline(ts: seq<Transform>, i: nat, w: World)
    requires i <= |ts| && RunResult(Some(ts[..i]), w).Err?
    ensures RunResult(Some(ts), w) == RunResult(Some(ts[..i]), w)
  {
    assert ts == ts[..i] + ts[i..];
    FoldAppend(Seed, ts[..i], ts[i..], w);
  }

  /** A transform that ignores its input discards all earlier state: only an earlier error survives it. */
  lemma PopulateDiscards(before: seq<Transform>, m: map<string, Value>, after: seq<Transform>, w: World)
    ensures RunResult(Some(before + [Populate(m)] + after), w) ==
      if RunResult(Some(before), w).Err? then RunResult(Some(before), w)
      else Fold(Object(m, false), after, w)
  {
    assert before + [Populate(m)] + after == before + ([Populate(m)] + after);
    FoldAppend(Seed, before, [Populate(m)] + after, w);
    assert ([Populate(m)] + after)[1..] == after;
  }

  /** Outcomes that leave a frozen configuration behind as it was, or hand on `undefined`. */
  predicate KeepsFrozen(r: Result<State>, m: map<string, Value>) {
    r.Err? || r == Ok(Object(m, true)) || r == Ok(Undefined)
  }

  /** Every transform other than the fixed-object one either throws, returns the frozen object as
      it was, or (the inoperative YAML loader) returns `undefined`; and from `undefined` nothing but
      `undefined` or an error follows. */
  lemma StepOnFrozen(t: Transform, w: World, m: map<string, Value>)
    requires !t.Populate?
    ensures KeepsFrozen(Step(t, w, Object(m, true)), m)
    ensures KeepsFrozen(Step(t, w, Undefined), m)
  {
    if t.LoadJson? || t.LoadYaml? || t.EnvConfigFile? {
      LoaderOnFrozen(t, w, m, Object(m, true));
      LoaderOnFrozen(t, w, m, Undefined);
    } else {
      TransformOnFrozen(t, w, m, Object(m, true));
      TransformOnFrozen(t, w, m, Undefined);
    }
  }

  /** The loaders' part of `StepOnFrozen`. */
  lemma LoaderOnFrozen(t: Transform, w: World, m: map<string, Value>, s: State)
    requires t.LoadJson? || t.LoadYaml? || t.EnvConfigFile?
    requires s == Object(m, true) || s == Undefined
    ensures KeepsFrozen(Step(t, w, s), m)
  {
    match t
    case LoadJson(files) =>
    case LoadYaml(files) =>
    case EnvConfigFile =>
  }

  /** The other transforms' part of `StepOnFrozen`. */
  lemma TransformOnFrozen(t: Transform, w: World, m: map<string, Value>, s: State)
    requires !t.Populate? && !t.LoadJson? && !t.LoadYaml? && !t.EnvConfigFile?
    requires s == Object(m, true) || s == Undefined
    ensures KeepsFrozen(Step(t, w, s), m)
  {
    match t
    case LoadEnvironment(mapping) =>
    case Assign(objects) =>
    case Required(fields) =>
    case Defaults(d) =>
    case Freeze =>
    case LegacyRequired(fields) =>
    case LegacyDefaults(d) =>
    case LegacyFreeze =>
    case TimesTwo =>
  }

  /** After a freeze, a pipeline without a fixed-object transform can no longer change the
      configuration: it ends in an error, the same frozen object, or `undefined`. */
  lemma {:induction false} FrozenIsFinal(m: map<string, Value>, s: State, ts: seq<Transform>, w: World)
    requires s == Object(m, true) || s == Undefined
    requires forall k :: 0 <= k < |ts| ==> !ts[k].Populate?
    ensures KeepsFrozen(Fold(s, ts, w), m)
    decreases |ts|
  {
    if ts != [] {
      StepOnFrozen(ts[0], w, m);
      match Step(ts[0], w, s)
      case Err(e) =>
      case Ok(next) =>
        assert forall k :: 0 <= k < |ts[1..]| ==> ts[1..][k] == ts[k + 1];
        FrozenIsFinal(m, next, ts[1..], w);
    }
  }

  /** That `config.a = "14"` on the frozen result is rejected with a `TypeError`, its value
      staying 8. */
  lemma FreezeExample(w: World)
    ensures RunResult(Some([Populate(map["a" := Int(4)]), TimesTwo, Freeze]), w)
      == Ok(Object(map["a" := Int(8)], true))
  {
    var m := map["a" := Int(4)];
    assert (map k | k in m :: Doubled(m[k])) == map["a" := Int(8)];
  }

  /** The frozen result of that pipeline rejects the assignment `config.a = '14'` (which a
      strict-mode caller sees as a `TypeError`) and keeps `a == 8`. */
  method FreezeThenWrite(w: World) returns (ok: bool, a: Value)
    ensures !ok && a == Int(8)
  {
    FreezeExample(w);
    var r := Run(Some([Populate(map["a" := Int(4)]), TimesTwo, Freeze]), w);
    var c := r.value;
    ok := c.Put("a", Str("14"));
    a := c.data["a"];
  }

  /** A fixed object `{a: 4}` followed by the doubling function yields `a == 8`. */
  lemma TimesTwoExample(w: World)
    ensures RunResult(Some([Populate(map["a" := Int(4)]), TimesTwo]), w) == Ok(Object(map["a" := Int(8)], false))
  {
    var m := map["a" := Int(4)];
    assert (map k | k in m :: Doubled(m[k])) == map["a" := Int(8)];
  }

  /** `assign` of two objects over `{a: 4, isClobbered: false}`: the objects' keys are added, the
      duplicate key is clobbered and the existing key retained. */
  lemma AssignExample(w: World)
    ensures RunResult(Some([
        Populate(map["a" := Int(4), "isClobbered" := Bool(false)]),
        Assign([Obj(map["assigned" := Str("value"), "isClobbered" := Bool(true)]),
                Obj(map["secondObject" := Bool(true)])])]), w)
      == Ok(Object(map["a" := Int(4), "assigned" := Str("value"), "isClobbered" := Bool(true),
                       "secondObject" := Bool(true)], false))
  {
    var m := map["a" := Int(4), "isClobbered" := Bool(false)];
    var a := Assign([Obj(map["assigned" := Str("value"), "isClobbered" := Bool(true)]),
                     Obj(map["secondObject" := Bool(true)])]);
    AssignTwoObjects(m);
    assert [Populate(m), a][1..] == [a];
    FoldSingle(Object(m, false), a, w);
  }

  /** The `Object.assign` step of `AssignExample` on its own. */
  lemma AssignTwoObjects(m: map<string, Value>)
    requires m == map["a" := Int(4), "isClobbered" := Bool(false)]
    ensures AssignResult(Object(m, false), [Obj(map["assigned" := Str("value"), "isClobbered" := Bool(true)]),
                                            Obj(map["secondObject" := Bool(true)])])
      == Ok(Object(map["a" := Int(4), "assigned" := Str("value"), "isClobbered" := Bool(true),
                       "secondObject" := Bool(true)], false))
  {
    var o1 := Obj(map["assigned" := Str("value"), "isClobbered" := Bool(true)]);
    var o2 := Obj(map["secondObject" := Bool(true)]);
    assert [o1, o2][..1] == [o1];
    assert [o1][..0] == [];
    assert Merged([o1]) == OwnProps(o1);
    assert Merged([o1, o2]) == OwnProps(o1) + OwnProps(o2);
    assert m + (OwnProps(o1) + OwnProps(o2)) == map["a" := Int(4), "assigned" := Str("value"),
      "isClobbered" := Bool(true), "secondObject" := Bool(true)];
  }

  /** `loadYaml()` with no files: the empty object when js-yaml is installed, `undefined` when it
      is not. */
  lemma YamlWithoutFilesExample(w: World)
    ensures RunResult(Some([LoadYaml(NoFiles)]), w) == if w.yaml.Some? then Ok(Seed) else Ok(Undefined)
  {
    FoldSingle(Seed, LoadYaml(NoFiles), w);
    if w.yaml.Some? {
      NormalizeSingleAndAbsent("", w.yaml.value, w.fs, Seed);
    }
  }
}
