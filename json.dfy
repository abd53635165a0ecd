/** The JSON values a catalogue API sends back, as Python's `json` module
    decodes them, with the few Python operations the parser applies to them. */
module Json {

  /** A decoded JSON value. Numbers are kept as reals, so that `1` and `1.0`
      are the same number, as they compare equal in Python. */
  datatype Value =
    | Null
    | Bool(b: bool)
    | Number(n: real)
    | Str(s: string)
    | Array(items: seq<Value>)
    | Object(fields: map<string, Value>)

  /** Python's `bool(v)` for a decoded value. */
  predicate Truthy(v: Value) {
    match v
    case Null => false
    case Bool(b) => b
    case Number(n) => n != 0.0
    case Str(s) => s != ""
    case Array(items) => items != []
    case Object(fields) => fields != map[]
  }

  /** Python's `d.get(key, default)` on a dict. */
  function Get(fields: map<string, Value>, key: string, default: Value): Value
  {
    if key in fields then fields[key] else default
  }

  /** Python's `v == 1`: a number equal to one, or `True`, which Python's
      `bool` makes equal to the integer 1. */
  predicate EqualsOne(v: Value) {
    match v
    case Number(n) => n == 1.0
    case Bool(b) => b
    case _ => false
  }
}
