/** The configuration object that the transforms mutate in place, and `Object.assign` over it. */
module ConfigObject {
  import opened Values

  /** What a transform sees: `undefined`, or a plain object with its own properties and whether
      `Object.freeze` has been applied to it. */
  datatype State = Undefined | Object(data: map<string, Value>, frozen: bool)

  /** A plain JavaScript object used as the configuration. */
  class Config {
    var data: map<string, Value>
    var frozen: bool

    constructor (initial: map<string, Value>)
      ensures data == initial && !frozen
    {
      data := initial;
      frozen := false;
    }

    /** The assignment `config[key] = v`. On a frozen object nothing changes and the write
        reports failure; strict-mode callers turn that into a `TypeError`. */
    method Put(key: string, v: Value) returns (ok: bool)
      modifies this
      ensures ok == !old(frozen) && frozen == old(frozen)
      ensures data == if ok then old(data)[key := v] else old(data)
    {
      ok := !frozen;
      if ok {
        data := data[key := v];
      }
    }

    /** `Object.freeze(config)`: the object keeps its properties and rejects every later write. */
    method Freeze()
      modifies this
      ensures frozen && data == old(data)
    {
      frozen := true;
    }
  }

  /** The state of a (possibly undefined) configuration reference. */
  function Snap(c: Config?): State
    reads c
  {
    if c == null then Undefined else Object(c.data, c.frozen)
  }

  /** The state reached by a transform outcome: its error, or the state of the object it returns. */
  function SnapResult(r: Result<Config?>): Result<State>
    reads if r.Ok? && r.value != null then {r.value} else {}
  {
    match r
    case Err(e) => Err(e)
    case Ok(c) => Ok(Snap(c))
  }

  /** An array's elements keyed by their decimal indices, as its own enumerable properties. */
  function IndexedProps(items: seq<Value>): map<string, Value>
    decreases |items|
  {
    if items == [] then map[]
    else IndexedProps(items[..|items| - 1])[NatToString(|items| - 1) := items[|items| - 1]]
  }

  /** The own enumerable properties `Object.assign` copies from a source: an object's properties,
      an array's or a string's elements under their decimal indices, and nothing for
      `null`, booleans and numbers. */
  function OwnProps(v: Value): map<string, Value> {
    match v
    case Obj(m) => m
    case Arr(items) => IndexedProps(items)
    case Str(s) => IndexedProps(seq(|s|, k requires 0 <= k < |s| => Str([s[k]])))
    case _ => map[]
  }

  /** The properties several sources contribute, a later source overriding an earlier one. */
  function Merged(sources: seq<Value>): map<string, Value>
    decreases |sources|
  {
    if sources == [] then map[]
    else Merged(sources[..|sources| - 1]) + OwnProps(sources[|sources| - 1])
  }

  /** A key is in the merge exactly when some source has it. */
  lemma {:induction false} MergedKeys(sources: seq<Value>, k: string)
    ensures k in Merged(sources) <==> exists j :: 0 <= j < |sources| && k in OwnProps(sources[j])
    decreases |sources|
  {
    if sources != [] {
      var n := |sources| - 1;
      MergedKeys(sources[..n], k);
      if k in Merged(sources[..n]) {
        var j :| 0 <= j < n && k in OwnProps(sources[..n][j]);
        assert sources[j] == sources[..n][j];
      }
      if exists j :: 0 <= j < |sources| && k in OwnProps(sources[j]) {
        var j :| 0 <= j < |sources| && k in OwnProps(sources[j]);
        if j < n {
          assert sources[..n][j] == sources[j];
        }
      }
    }
  }

  /** The value of a key in the merge is the one of the last source that has it. */
  lemma {:induction false} MergedLastWins(sources: seq<Value>, j: nat, k: string)
    requires j < |sources| && k in OwnProps(sources[j])
    requires forall j' :: j < j' < |sources| ==> k !in OwnProps(sources[j'])
    ensures k in Merged(sources) && Merged(sources)[k] == OwnProps(sources[j])[k]
    decreases |sources|
  {
    var n := |sources| - 1;
    if j < n {
      assert k !in OwnProps(sources[n]);
      forall j' | j < j' < n ensures k !in OwnProps(sources[..n][j']) {
        assert sources[..n][j'] == sources[j'];
      }
      MergedLastWins(sources[..n], j, k);
    }
  }

  /** Whether some source would make `Object.assign` write a property. */
  predicate WritesAny(sources: seq<Value>) {
    exists j :: 0 <= j < |sources| && OwnProps(sources[j]) != map[]
  }

  /** `Object.assign(config, ...sources)`: an undefined target is a `TypeError`; a frozen target
      rejects the first property written; otherwise every source's properties are copied in order. */
  function AssignResult(s: State, sources: seq<Value>): Result<State> {
    match s
    case Undefined => Err(TypeError("Cannot convert undefined or null to object"))
    case Object(m, frozen) =>
      if frozen then
        (if WritesAny(sources) then Err(TypeError("Cannot assign to read only object")) else Ok(s))
      else Ok(Object(m + Merged(sources), false))
  }

  /** `Object.assign` over a configuration reference; it returns the target itself. */
  method ObjectAssign(c: Config?, sources: seq<Value>) returns (r: Result<Config?>)
    modifies c
    ensures SnapResult(r) == AssignResult(old(Snap(c)), sources)
    ensures r.Ok? ==> r.value == c
    ensures r.Err? ==> Snap(c) == old(Snap(c))
  {
    if c == null {
      r := Err(TypeError("Cannot convert undefined or null to object"));
    } else if c.frozen {
      if WritesAny(sources) {
        r := Err(TypeError("Cannot assign to read only object"));
      } else {
        r := Ok(c);
      }
    } else {
      c.data := c.data + Merged(sources);
      r := Ok(c);
    }
  }

  /** For a writable object, `Object.assign` overwrites every key some source has with the last
      such source's value, and keeps every other key. */
  lemma AssignOverwritesAndRetains(m: map<string, Value>, sources: seq<Value>, k: string)
    ensures AssignResult(Object(m, false), sources).Ok?
    ensures var m' := AssignResult(Object(m, false), sources).value.data;
      && (k in m' <==> k in m || exists j :: 0 <= j < |sources| && k in OwnProps(sources[j]))
      && ((forall j :: 0 <= j < |sources| ==> k !in OwnProps(sources[j])) && k in m ==> m'[k] == m[k])
      && (forall j :: (0 <= j < |sources| && k in OwnProps(sources[j]) &&
                       (forall j' :: j < j' < |sources| ==> k !in OwnProps(sources[j']))) ==>
            m'[k] == OwnProps(sources[j])[k])
  {
    MergedKeys(sources, k);
    forall j | 0 <= j < |sources| && k in OwnProps(sources[j]) &&
        (forall j' :: j < j' < |sources| ==> k !in OwnProps(sources[j']))
      ensures (m + Merged(sources))[k] == OwnProps(sources[j])[k]
    {
      MergedLastWins(sources, j, k);
    }
  }
}
