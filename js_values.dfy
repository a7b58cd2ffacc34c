/** JavaScript values as the shims and the build script see them: prop
    objects, parsed JSON, and the few built-in conversions they rely on
    (truthiness, `String(v)`, object spread, property lookup with
    `undefined` for a missing key). */
module JsValues {

  datatype Option<+T> = None | Some(value: T)

  datatype Result<+T, +E> = Success(value: T) | Failure(error: E)

  /** A JavaScript value. Numbers are integers here; `Func` is a callback,
      identified by `id`, whose `String()` conversion is its `source`. */
  datatype Value =
    | Undefined
    | Null
    | Bool(b: bool)
    | Num(n: int)
    | Str(s: string)
    | Arr(items: seq<Value>)
    | Obj(fields: map<string, Value>)
    | Func(id: nat, source: string)

  /** JavaScript truthiness: `undefined`, `null`, `false`, `0` and `""` are falsy. */
  predicate Truthy(v: Value)
  {
    match v
    case Undefined => false
    case Null => false
    case Bool(b) => b
    case Num(n) => n != 0
    case Str(s) => s != ""
    case _ => true
  }

  /** A primitive (not an object): assigning a property to one throws in strict mode. */
  predicate IsPrimitive(v: Value)
  {
    v.Undefined? || v.Null? || v.Bool? || v.Num? || v.Str?
  }

  /** `obj[key]` on a record: `undefined` when the key is missing. */
  function Get(m: map<string, Value>, key: string): (v: Value)
    ensures key !in m ==> v == Undefined
    ensures key in m ==> v == m[key]
  {
    if key in m then m[key] else Undefined
  }

  /** The object-rest pattern `{a, b, ...rest} = props`: every own key except the named ones. */
  function Omit(m: map<string, Value>, keys: set<string>): (rest: map<string, Value>)
    ensures rest.Keys == m.Keys - keys
    ensures forall k :: k in rest ==> rest[k] == m[k]
  {
    map k | k in m && k !in keys :: m[k]
  }

  /** Decimal digits of a natural number, as `String(n)` writes them. */
  function Decimal(n: nat): (s: string)
    ensures |s| >= 1
  {
    var d := ['0' + (n % 10) as char];
    if n < 10 then d else Decimal(n / 10) + d
  }

  /** The own enumerable properties that `{...v}` copies: an object's fields,
      the elements of an array and the characters of a string under their
      index keys, and nothing for other primitives and functions. */
  function Spread(v: Value): (r: map<string, Value>)
    ensures v.Obj? ==> r == v.fields
    ensures !Truthy(v) ==> r == map[]
  {
    match v
    case Obj(f) => f
    case Arr(items) => Indexed(items, |items|)
    case Str(s) => Indexed(seq(|s|, i requires 0 <= i < |s| => Str([s[i]])), |s|)
    case _ => map[]
  }

  /** The first `n` elements of `items` under the keys "0", "1", ... */
  function Indexed(items: seq<Value>, n: nat): map<string, Value>
    requires n <= |items|
  {
    if n == 0 then map[] else Indexed(items, n - 1)[Decimal(n - 1) := items[n - 1]]
  }

  /** `String(v)`. */
  function ToText(v: Value): (s: string)
    ensures v.Str? ==> s == v.s
    decreases v, 1, 0
  {
    match v
    case Undefined => "undefined"
    case Null => "null"
    case Bool(b) => if b then "true" else "false"
    case Num(n) => if n < 0 then "-" + Decimal(-n) else Decimal(n)
    case Str(s) => s
    case Arr(items) => Join(items, 0)
    case Obj(_) => "[object Object]"
    case Func(_, source) => source
  }

  /** `items.slice(from).join(",")`, where `undefined` and `null` elements become "". */
  function Join(items: seq<Value>, from: nat): string
    requires from <= |items|
    decreases Arr(items), 0, |items| - from
  {
    if from == |items| then ""
    else
      var v := items[from];
      var first := if v.Undefined? || v.Null? then "" else ToText(v);
      if from + 1 == |items| then first else first + "," + Join(items, from + 1)
  }
}
