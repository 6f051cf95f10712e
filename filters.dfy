/** The legacy variants of `required`, `defaults` and `freeze`. Their module is not in strict
    mode, so a write to a frozen object is silently dropped instead of throwing. */
module Filters {
  import opened Values
  import opened ConfigObject
  import Transforms

  /** Legacy `required(fields)`: no `|| []`, so an omitted list fails with a `TypeError` when the
      transform runs; a given list behaves as in the standard `required`. */
  function LegacyRequiredResult(fields: Option<seq<string>>, s: State): Result<State> {
    match fields
    case None => Err(TypeError("Cannot read properties of undefined (reading 'filter')"))
    case Some(fs) =>
      match s
      case Undefined =>
        if fs == [] then Ok(Undefined) else Err(TypeError("Cannot read properties of undefined"))
      case Object(m, _) =>
        var missing := Transforms.Missing(fs, m);
        if missing != [] then Err(ReferenceError("Missing required fields: " + Transforms.Join(missing, ", ")))
        else Ok(s)
  }

  method LegacyRequired(fields: Option<seq<string>>, c: Config?) returns (r: Result<Config?>)
    ensures SnapResult(r) == LegacyRequiredResult(fields, Snap(c))
    ensures r.Ok? ==> r.value == c
  {
    if fields.None? {
      return Err(TypeError("Cannot read properties of undefined (reading 'filter')"));
    }
    if c == null {
      if fields.value == [] {
        return Ok(null);
      }
      return Err(TypeError("Cannot read properties of undefined"));
    }
    var missing := Transforms.Missing(fields.value, c.data);
    if |missing| > 0 {
      return Err(ReferenceError("Missing required fields: " + Transforms.Join(missing, ", ")));
    }
    r := Ok(c);
  }

  /** With a list, legacy `required` is the standard one; without, it throws where the standard
      one passes through. */
  lemma LegacyRequiredAgainstStandard(fields: seq<string>, s: State)
    ensures LegacyRequiredResult(Some(fields), s) == Transforms.RequiredResult(fields, s)
    ensures LegacyRequiredResult(None, s).Err? && Transforms.RequiredResult([], s) == Ok(s)
  {
  }

  /** What the legacy `defaults` loop leaves on a writable object: every key of `d` whose
      `config[key]` was falsy or absent takes its default; every other key keeps its value. */
  function FillFalsy(m: map<string, Value>, d: map<string, Value>): map<string, Value> {
    m + (map k | k in d && !TruthyProp(m, k) :: d[k])
  }

  /** Legacy `defaults(d)`: an omitted `d` is a `TypeError` (`Object.keys(undefined)`); reading
      keys of `undefined` is one too; on a frozen object every write is dropped. */
  function LegacyDefaultsResult(d: Option<map<string, Value>>, s: State): Result<State> {
    match d
    case None => Err(TypeError("Cannot convert undefined or null to object"))
    case Some(dm) =>
      match s
      case Undefined =>
        if dm == map[] then Ok(Undefined) else Err(TypeError("Cannot read properties of undefined"))
      case Object(m, frozen) =>
        if frozen then Ok(s) else Ok(Object(FillFalsy(m, dm), false))
  }

  method LegacyDefaults(d: Option<map<string, Value>>, c: Config?) returns (r: Result<Config?>)
    modifies c
    ensures SnapResult(r) == LegacyDefaultsResult(d, old(Snap(c)))
    ensures r.Ok? ==> r.value == c
    ensures r.Err? ==> Snap(c) == old(Snap(c))
  {
    if d.None? {
      return Err(TypeError("Cannot convert undefined or null to object"));
    }
    var dm := d.value;
    if c == null {
      if dm == map[] {
        return Ok(null);
      }
      return Err(TypeError("Cannot read properties of undefined"));
    }
    var todo := dm.Keys;
    while todo != {}
      invariant todo <= dm.Keys
      invariant c.frozen == old(c.frozen)
      invariant c.frozen ==> c.data == old(c.data)
      invariant !c.frozen ==> c.data == old(c.data) + (map k | k in dm && k !in todo && !TruthyProp(old(c.data), k) :: dm[k])
      decreases todo
    {
      var key :| key in todo;
      if !TruthyProp(c.data, key) {
        var _ := c.Put(key, dm[key]);
      }
      todo := todo - {key};
    }
    assert (map k | k in dm && k !in todo && !TruthyProp(old(c.data), k) :: dm[k])
        == (map k | k in dm && !TruthyProp(old(c.data), k) :: dm[k]);
    r := Ok(c);
  }

  /** Legacy `defaults` overwrites keys that are absent or falsy (`false`, `0`, `""`, `null`) and
      leaves truthy values and keys outside `d` alone. */
  lemma FillFalsyEffect(m: map<string, Value>, d: map<string, Value>, k: string)
    ensures var r := FillFalsy(m, d);
      && (k in d && !TruthyProp(m, k) ==> k in r && r[k] == d[k])
      && (k in m && (k !in d || TruthyProp(m, k)) ==> k in r && r[k] == m[k])
      && (k !in m && (k !in d || TruthyProp(m, k)) ==> k !in r)
  {
  }

  /** Applying the legacy defaults twice is applying them once: a key they filled either became
      truthy or was filled with the same value again. */
  lemma FillFalsyIdempotent(m: map<string, Value>, d: map<string, Value>)
    ensures FillFalsy(FillFalsy(m, d), d) == FillFalsy(m, d)
  {
    var once := FillFalsy(m, d);
    forall k | k in d && !TruthyProp(once, k)
      ensures !TruthyProp(m, k)
    {
      FillFalsyEffect(m, d, k);
    }
  }

  lemma LegacyDefaultsIdempotent(d: map<string, Value>, s: State)
    requires LegacyDefaultsResult(Some(d), s).Ok?
    ensures LegacyDefaultsResult(Some(d), LegacyDefaultsResult(Some(d), s).value) == LegacyDefaultsResult(Some(d), s)
  {
    if s.Object? && !s.frozen {
      FillFalsyIdempotent(s.data, d);
    }
  }

  /** The two variants part on an existing falsy value: the standard `defaults` keeps
      `untrue: false`, the legacy one replaces it. */
  lemma DefaultsVariantsDiffer()
    ensures var d := map["foo" := Str("bar"), "untrue" := Bool(true)];
      var s := Object(map["untrue" := Bool(false)], false);
      && Transforms.DefaultsResult([("foo", Str("bar")), ("untrue", Bool(true))], s)
           == Ok(Object(map["foo" := Str("bar"), "untrue" := Bool(false)], false))
      && LegacyDefaultsResult(Some(d), s) == Ok(Object(map["foo" := Str("bar"), "untrue" := Bool(true)], false))
  {
    var d := map["foo" := Str("bar"), "untrue" := Bool(true)];
    var m := map["untrue" := Bool(false)];
    Transforms.DefaultsExample();
    assert !TruthyProp(m, "foo") && !TruthyProp(m, "untrue");
    assert (map k | k in d && !TruthyProp(m, k) :: d[k]) == d;
    assert m + d == map["foo" := Str("bar"), "untrue" := Bool(true)];
  }

  /** Legacy `freeze()`: freezes in place and returns the same object; the same as the standard one. */
  method LegacyFreeze(c: Config?) returns (r: Result<Config?>)
    modifies c
    ensures SnapResult(r) == Transforms.FreezeResult(old(Snap(c)))
    ensures r == Ok(c)
  {
    if c != null {
      c.Freeze();
    }
    r := Ok(c);
  }
}
