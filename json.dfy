/**
 * JSON values as stored in the database document and sent in request bodies,
 * with the two JavaScript conversions the server relies on: truthiness (the
 * `x || default` idiom) and `String(x)` (template literals, property keys).
 */
module Json {
  import opened Wrappers
  import opened Digits

  /** JSON numbers are modelled as integers. */
  datatype Value =
    | Null
    | Bool(b: bool)
    | Num(n: int)
    | Str(s: string)
    | Arr(items: seq<Value>)
    | Obj(fields: map<string, Value>)

  /** A JSON object: a project, a test case, a test file, or a request body. */
  type Doc = map<string, Value>

  /** Property access `d[key]`; `None` stands for `undefined`. */
  function Get(d: Doc, key: string): (r: Option<Value>)
    ensures r.Some? <==> key in d
  {
    if key in d then Some(d[key]) else None
  }

  /** The document holds the string `text` under `key`. */
  predicate HasText(d: Doc, key: string, text: string) {
    key in d && d[key] == Str(text)
  }

  /** JavaScript truthiness of a property value. */
  predicate Truthy(v: Option<Value>) {
    match v
    case None => false
    case Some(Null) => false
    case Some(Bool(b)) => b
    case Some(Num(n)) => n != 0
    case Some(Str(s)) => |s| > 0
    case Some(Arr(_)) => true
    case Some(Obj(_)) => true
  }

  /** A request field that is absent or a string, tested for truthiness: present and non-empty. */
  predicate Given(v: Option<string>) {
    v.Some? && |v.value| > 0
  }

  /** `v || fallback` for a request field that is absent or a string. */
  function TextOr(v: Option<string>, fallback: string): (r: string)
    ensures Given(v) ==> r == v.value
    ensures !Given(v) ==> r == fallback
  {
    if Given(v) then v.value else fallback
  }

  /** `String(v)` of a present value. */
  function Text(v: Value): string
    decreases v
  {
    match v
    case Null => "null"
    case Bool(b) => if b then "true" else "false"
    case Num(n) => if n < 0 then "-" + Decimal(-n) else Decimal(n)
    case Str(s) => s
    case Arr(items) => JoinItems(items)
    case Obj(_) => "[object Object]"
  }

  /** `items.join(",")`, where a `null` element contributes the empty string. */
  function JoinItems(items: seq<Value>): string
    decreases items
  {
    if |items| == 0 then ""
    else
      var head := if items[0] == Null then "" else Text(items[0]);
      if |items| == 1 then head else head + "," + JoinItems(items[1..])
  }

  /** `String(v)`, `undefined` included: what a template literal `${v}` inserts. */
  function Show(v: Option<Value>): (r: string)
    ensures v == None ==> r == "undefined"
    ensures forall s :: v == Some(Str(s)) ==> r == s
  {
    match v
    case None => "undefined"
    case Some(x) => Text(x)
  }
}
