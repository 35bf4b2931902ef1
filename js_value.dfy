/** The few JavaScript value semantics the server relies on: truthiness,
    `a || b`, property access on request bodies, and template-string
    conversion. Numbers are integers; NaN and fractions are not modelled. */
module JsValue {

  import opened Wrappers
  import opened JsText

  datatype Value =
    | Undefined
    | Null
    | Bool(b: bool)
    | Num(n: int)
    | Str(s: string)
    | Arr(items: seq<Value>)
    | Obj(fields: map<string, Value>)

  predicate Truthy(v: Value) {
    match v
    case Undefined => false
    case Null => false
    case Bool(b) => b
    case Num(n) => n != 0
    case Str(s) => s != ""
    case Arr(_) => true
    case Obj(_) => true
  }

  /** `a || b`. */
  function Or(a: Value, b: Value): (r: Value)
    ensures Truthy(a) ==> r == a
    ensures !Truthy(a) ==> r == b
  {
    if Truthy(a) then a else b
  }

  /** `v.key`: a TypeError on null and undefined, `undefined` for a missing
      field or a primitive without that property. */
  function Get(v: Value, key: string): (r: Result<Value, string>)
    ensures r.Failure? <==> v.Undefined? || v.Null?
  {
    match v
    case Undefined => Failure("Cannot read properties of undefined (reading '" + key + "')")
    case Null => Failure("Cannot read properties of null (reading '" + key + "')")
    case Obj(fields) => Success(if key in fields then fields[key] else Undefined)
    case Arr(items) => Success(if key == "length" then Num(|items|) else Undefined)
    case Str(s) => Success(if key == "length" then Num(|s|) else Undefined)
    case _ => Success(Undefined)
  }

  /** Strings, numbers, booleans, null and undefined. */
  predicate IsPrimitive(v: Value) {
    !v.Arr? && !v.Obj?
  }

  /** `a === b`. Primitives compare by value. Arrays and objects compare by
      identity, and every array or object compared here is a distinct one
      (parsed from JSON or built from a request), so they never match. */
  predicate StrictEquals(a: Value, b: Value) {
    IsPrimitive(a) && a == b
  }

  /** `Array.isArray(v)`. */
  predicate IsArray(v: Value) {
    v.Arr?
  }

  /** The string `${v}` produces. */
  function ToStr(v: Value): string
    decreases v, 1
  {
    match v
    case Undefined => "undefined"
    case Null => "null"
    case Bool(b) => if b then "true" else "false"
    case Num(n) => IntToString(n)
    case Str(s) => s
    case Arr(items) => JoinItems(ItemStrs(items))
    case Obj(_) => "[object Object]"
  }

  /** An array element inside `Array.prototype.join`: null and undefined
      become "". */
  function ItemStr(v: Value): string
    decreases v, 2
  {
    if v.Undefined? || v.Null? then "" else ToStr(v)
  }

  /** The elements of an array, each as `join` converts it. */
  function ItemStrs(items: seq<Value>): seq<string>
    decreases items, 0
  {
    if items == [] then [] else ItemStrs(items[..|items| - 1]) + [ItemStr(items[|items| - 1])]
  }

  function JoinItems(parts: seq<string>): string {
    if parts == [] then ""
    else if |parts| == 1 then parts[0]
    else JoinItems(parts[..|parts| - 1]) + "," + parts[|parts| - 1]
  }

  /** A string value converts to itself. */
  lemma ToStrOfString(s: string)
    ensures ToStr(Str(s)) == s
  {
  }
}
