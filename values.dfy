/** The JavaScript values that flow through the core: JSON payloads from the
    remote API, SQLite rows, and tool arguments. Numbers are integers. */
module Values {

  import opened Wrappers
  import opened Text

  datatype Value =
    | Undefined
    | Null
    | Bool(b: bool)
    | Num(n: int)
    | Str(s: string)
    | Arr(items: seq<Value>)
    | Obj(fields: map<string, Value>)

  /** JavaScript truthiness: undefined, null, false, 0 and "" are falsy. */
  predicate Truthy(v: Value) {
    match v
    case Undefined => false
    case Null => false
    case Bool(b) => b
    case Num(n) => n != 0
    case Str(s) => s != ""
    case _ => true
  }

  /** `a || b`: the first operand when it is truthy, otherwise the second. */
  function Or(a: Value, b: Value): (r: Value)
    ensures Truthy(a) ==> r == a
    ensures !Truthy(a) ==> r == b
  {
    if Truthy(a) then a else b
  }

  /** String(v), as template literals render a value. */
  function ToText(v: Value): string
    decreases v, 0
  {
    match v
    case Undefined => "undefined"
    case Null => "null"
    case Bool(b) => if b then "true" else "false"
    case Num(n) => IntToString(n)
    case Str(s) => s
    case Arr(items) => Join(seq(|items|, i requires 0 <= i < |items| => ElementText(items[i])), ",")
    case Obj(_) => "[object Object]"
  }

  /** How Array.prototype.join renders one element: null and undefined as "". */
  function ElementText(v: Value): string
    decreases v, 1
  {
    if v.Undefined? || v.Null? then "" else ToText(v)
  }

  /** Property read `v?.key`: undefined unless v is an object holding key. */
  function Get(v: Value, key: string): (r: Value)
    ensures r != Undefined ==> v.Obj? && key in v.fields && r == v.fields[key]
  {
    match v
    case Obj(f) => if key in f then f[key] else Undefined
    case _ => Undefined
  }

  /** Element read `v?.[i]`: undefined unless v is an array long enough. */
  function At(v: Value, i: int): Value
  {
    match v
    case Arr(items) => if 0 <= i < |items| then items[i] else Undefined
    case _ => Undefined
  }

  /** The elements of an array value; any other value is read as an empty list
      (its `length` is undefined, so every length test in the source fails). */
  function AsList(v: Value): seq<Value>
  {
    match v
    case Arr(items) => items
    case _ => []
  }

  /** `${v.length}` for the values the core measures. */
  function LengthText(v: Value): string
  {
    match v
    case Arr(items) => NatToString(|items|)
    case Str(s) => NatToString(|s|)
    case _ => "undefined"
  }

  /** A string argument read as an optional string (absent and null both None). */
  function TextOf(o: Option<string>): string
  {
    match o
    case None => "undefined"
    case Some(s) => s
  }

  /** Truthiness of an optional string argument. */
  predicate Present(o: Option<string>) {
    o.Some? && o.value != ""
  }
}
