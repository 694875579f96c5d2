/** The JavaScript values the modules read from bid requests, payloads and
    configuration, with the coercions the source relies on: truthiness,
    property reads, `String(v)` and strict equality. Numbers are integers. */
module JsValues {
  import opened Options
  import opened JsStrings

  datatype Value =
    | Undefined
    | Null
    | Bool(b: bool)
    | Num(n: int)
    | Str(s: string)
    | Arr(items: seq<Value>)
    | Obj(fields: map<string, Value>)

  /** `!!v` */
  predicate Truthy(v: Value) {
    match v
    case Undefined => false
    case Null => false
    case Bool(b) => b
    case Num(n) => n != 0
    case Str(s) => s != ""
    case Arr(_) => true
    case Obj(_) => true
  }

  /** `v == undefined` (loose equality: `undefined` or `null`). */
  predicate IsNullish(v: Value) {
    v.Undefined? || v.Null?
  }

  /** `v[key]` for a named property: an own field of a record, the `length`
      of a string or an array, and `undefined` otherwise. Reading a property
      of `null` or `undefined`, which throws, gives `undefined` here. */
  function Get(v: Value, key: string): Value
  {
    match v
    case Obj(fields) => if key in fields then fields[key] else Undefined
    case Str(s) => if key == "length" then Num(|s|) else Undefined
    case Arr(items) => if key == "length" then Num(|items|) else Undefined
    case _ => Undefined
  }

  /** `v.hasOwnProperty(key)` for a record. */
  predicate HasOwn(v: Value, key: string) {
    v.Obj? && key in v.fields
  }

  /** `deepAccess(v, 'a.b.c')`: successive property reads, `undefined` once a step is missing. */
  function Path(v: Value, keys: seq<string>): Value
    decreases |keys|
  {
    if keys == [] then v else Path(Get(v, keys[0]), keys[1..])
  }

  /** `v[i]`: an array element, a one-character string, the record field named
      by the index, or `undefined`. */
  function Index(v: Value, i: nat): Value
  {
    match v
    case Arr(items) => if i < |items| then items[i] else Undefined
    case Str(s) => if i < |s| then Str([s[i]]) else Undefined
    case Obj(_) => Get(v, NatToString(i))
    case _ => Undefined
  }

  /** `v.length` for arrays and strings. */
  function Length(v: Value): Option<nat>
  {
    match v
    case Arr(items) => Some(|items|)
    case Str(s) => Some(|s|)
    case _ => None
  }

  /** `String(v)`; arrays print as their elements joined by commas, with
      `null` and `undefined` elements printed empty. */
  function ToString(v: Value): string
  {
    match v
    case Undefined => "undefined"
    case Null => "null"
    case Bool(b) => if b then "true" else "false"
    case Num(n) => IntToString(n)
    case Str(s) => s
    case Arr(items) =>
      Join(seq(|items|, i requires 0 <= i < |items| =>
        if IsNullish(items[i]) then "" else ToString(items[i])), ",")
    case Obj(_) => "[object Object]"
  }

  /** `parseInt(v)`: the argument is first converted with `String`. */
  function ParseIntValue(v: Value): Option<int>
  {
    ParseInt(ToString(v))
  }

  /** `a === b`. Two records or arrays are identical only when they are the
      same object; distinct values built here are never the same object. */
  predicate StrictEquals(a: Value, b: Value) {
    !a.Arr? && !a.Obj? && a == b
  }

  /** `parseInt` of a number gives the number back. */
  lemma ParseIntOfNum(n: int)
    ensures ParseIntValue(Num(n)) == Some(n)
  {
    ParseIntOfIntToString(n);
  }
}
