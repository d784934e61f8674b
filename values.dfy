/**
 * The dynamically typed values that `yaml.safe_load`, `json.load` and the
 * task backend hand to the program, and the three Python operations the
 * program applies to them: subscripting, truthiness and the `in` test.
 */
module Values {
  import opened Wrappers
  import opened Text

  datatype Value =
    | Null
    | Bool(b: bool)
    | Int(i: int)
    | Str(s: string)
    | List(items: seq<Value>)
    | Dict(entries: map<string, Value>)

  /** `v[key]` for a string key, or the text of the error Python raises. */
  function Subscript(v: Value, key: string): (r: Result<Value, string>)
    ensures r.Ok? <==> v.Dict? && key in v.entries
    ensures r.Ok? ==> r.value == v.entries[key]
  {
    match v
    case Dict(entries) => if key in entries then Ok(entries[key]) else Err("'" + key + "'")
    case List(_) => Err("list indices must be integers or slices, not str")
    case Str(_) => Err("string indices must be integers, not 'str'")
    case _ => Err("'" + TypeName(v) + "' object is not subscriptable")
  }

  /** `v.get(key, default)`: only a dict has `get`. */
  function GetOr(v: Value, key: string, default: Value): (r: Result<Value, string>)
    ensures r.Ok? <==> v.Dict?
    ensures v.Dict? ==> r.value == if key in v.entries then v.entries[key] else default
  {
    if v.Dict? then Ok(if key in v.entries then v.entries[key] else default)
    else Err("'" + TypeName(v) + "' object has no attribute 'get'")
  }

  /** `bool(v)`: empty containers, zero, the empty string, False and None are false. */
  predicate Truthy(v: Value) {
    match v
    case Null => false
    case Bool(b) => b
    case Int(i) => i != 0
    case Str(s) => s != []
    case List(items) => items != []
    case Dict(entries) => entries != map[]
  }

  /** `key in v`: dict keys, list elements, substrings; None where Python raises TypeError. */
  function HasMember(v: Value, key: string): (r: Option<bool>)
    ensures r.None? <==> v.Null? || v.Bool? || v.Int?
    ensures v.Dict? ==> r == Some(key in v.entries)
    ensures v.List? ==> r == Some(Str(key) in v.items)
  {
    match v
    case Dict(entries) => Some(key in entries)
    case List(items) => Some(Str(key) in items)
    case Str(s) => Some(Contains(s, key))
    case _ => None
  }

  /** `type(v).__name__`, as Python's error messages print it. */
  function TypeName(v: Value): string {
    match v
    case Null => "NoneType"
    case Bool(_) => "bool"
    case Int(_) => "int"
    case Str(_) => "str"
    case List(_) => "list"
    case Dict(_) => "dict"
  }
}
