/**
 * JSON values as the services see them after `json.loads`, with Python's
 * truthiness and the `dict.get` / `list[0]` accesses the AI service makes
 * on a decoded reply. The text-to-value decoder itself is not modelled: it
 * is a parameter `parse: string -> Result<Json, string>` wherever it is used,
 * giving the decoded value or the text of the `JSONDecodeError`.
 */
module PyJson {
  import opened Wrappers

  /** A decoded JSON value. Numbers are kept as integers; objects as maps from key to value. */
  datatype Json =
    | JNull
    | JBool(b: bool)
    | JNum(n: int)
    | JStr(s: string)
    | JArr(items: seq<Json>)
    | JObj(fields: map<string, Json>)

  /** Python's `bool(x)` for a decoded value: `None`, `False`, `0`, `""`, `[]` and `{}` are false. */
  predicate Truthy(j: Json) {
    match j
    case JNull => false
    case JBool(b) => b
    case JNum(n) => n != 0
    case JStr(s) => s != []
    case JArr(items) => items != []
    case JObj(fields) => fields != map[]
  }

  /** Python's `type(x).__name__` for a decoded value. */
  function TypeName(x: Json): (r: string)
    ensures r == "dict" <==> x.JObj?
    ensures r == "list" <==> x.JArr?
    ensures r == "str" <==> x.JStr?
    ensures r == "NoneType" <==> x.JNull?
  {
    match x
    case JNull => "NoneType"
    case JBool(_) => "bool"
    case JNum(_) => "int"
    case JStr(_) => "str"
    case JArr(_) => "list"
    case JObj(_) => "dict"
  }

  /** A Python runtime error raised while walking a decoded value, with what its message names:
      the type and the missing attribute, the kind of sequence indexed, the unsubscriptable type, or the missing key. */
  datatype AccessError =
    | AttributeError(owner: string, attr: string)
    | IndexError(kind: string)
    | TypeError(owner: string)
    | KeyError(key: string)

  /** `x.get(key, default)`: only a `dict` has `get`. */
  function Get(x: Json, key: string, default: Json): (r: Result<Json, AccessError>)
    ensures r.Ok? <==> x.JObj?
    ensures x.JObj? && key in x.fields ==> r == Ok(x.fields[key])
    ensures x.JObj? && key !in x.fields ==> r == Ok(default)
    ensures !x.JObj? ==> r == Err(AttributeError(TypeName(x), "get"))
  {
    if x.JObj? then Ok(if key in x.fields then x.fields[key] else default) else Err(AttributeError(TypeName(x), "get"))
  }

  /** `x[0]` followed by `.get`: a non-empty list gives its head. An empty list or string is out of range, a dict has
      no key `0`, a non-empty string gives a one-character string on which the next `.get` fails, and `None`, a bool
      or a number cannot be subscripted. */
  function First(x: Json): (r: Result<Json, AccessError>)
    ensures r.Ok? <==> x.JArr? && x.items != []
    ensures r.Ok? ==> r.value == x.items[0]
    ensures x.JArr? && x.items == [] ==> r == Err(IndexError("list"))
    ensures x.JObj? ==> r == Err(KeyError("0"))
    ensures (x.JNull? || x.JBool? || x.JNum?) ==> r == Err(TypeError(TypeName(x)))
  {
    match x
    case JArr(items) => if items != [] then Ok(items[0]) else Err(IndexError("list"))
    case JObj(_) => Err(KeyError("0"))
    case JStr(s) => if s != [] then Err(AttributeError("str", "get")) else Err(IndexError("string"))
    case _ => Err(TypeError(TypeName(x)))
  }
}
