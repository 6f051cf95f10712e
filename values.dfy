/** Configuration values, JavaScript truthiness and the errors a transform can raise. */
module Values {

  datatype Option<+T> = None | Some(value: T)

  /** A JSON-like configuration value. Numbers are integers in this model. */
  datatype Value =
    | Str(s: string)
    | Int(i: int)
    | Bool(b: bool)
    | Null
    | Obj(props: map<string, Value>)
    | Arr(items: seq<Value>)

  /** JavaScript truthiness: `false`, `0`, `""` and `null` are falsy; every object and array is truthy. */
  predicate Truthy(v: Value) {
    match v
    case Str(s) => s != ""
    case Int(i) => i != 0
    case Bool(b) => b
    case Null => false
    case Obj(_) => true
    case Arr(_) => true
  }

  /** Members every plain object inherits from `Object.prototype`. Reading one that is not an
      own property yields a function, which is truthy. */
  const InheritedMembers: set<string> := {
    "constructor", "hasOwnProperty", "isPrototypeOf", "propertyIsEnumerable",
    "toLocaleString", "toString", "valueOf", "__proto__",
    "__defineGetter__", "__defineSetter__", "__lookupGetter__", "__lookupSetter__"
  }

  /** Whether `config[key]` is truthy for a plain object whose own properties are `m`. */
  predicate TruthyProp(m: map<string, Value>, key: string) {
    if key in m then Truthy(m[key]) else key in InheritedMembers
  }

  /** The exceptions of the modelled code. `ParseError` is whatever an injected parser raises. */
  datatype Error =
    | TypeError(reason: string)
    | ReferenceError(message: string)
    | ReadError(path: string)
    | ParseError(detail: string)

  datatype Result<+T> = Ok(value: T) | Err(error: Error)

  function DigitChar(d: nat): (c: char)
    requires d < 10
    ensures '0' <= c <= '9'
  {
    ('0' as int + d) as char
  }

  predicate IsDigit(c: char) {
    '0' <= c <= '9'
  }

  predicate AllDigits(s: string) {
    forall k :: 0 <= k < |s| ==> IsDigit(s[k])
  }

  /** Decimal notation, as JavaScript's `String(n)` writes a non-negative integer. */
  function NatToString(n: nat): (s: string)
    ensures |s| >= 1 && AllDigits(s)
    ensures s[0] == '0' ==> n == 0 && s == "0"
    decreases n
  {
    if n < 10 then [DigitChar(n)] else NatToString(n / 10) + [DigitChar(n % 10)]
  }

  /** The number a string of decimal digits denotes. */
  function DigitsValue(s: string): nat
    requires AllDigits(s)
    decreases |s|
  {
    if s == [] then 0 else DigitsValue(s[..|s| - 1]) * 10 + (s[|s| - 1] as int - '0' as int)
  }

  /** Reading back the decimal notation of `n` gives `n`. */
  lemma {:induction false} DigitsValueOfNatToString(n: nat)
    ensures DigitsValue(NatToString(n)) == n
    decreases n
  {
    if n >= 10 {
      DigitsValueOfNatToString(n / 10);
      var s := NatToString(n);
      assert s[..|s| - 1] == NatToString(n / 10);
    }
  }
}
