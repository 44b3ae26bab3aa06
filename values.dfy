/** The dynamically typed values that reach the core from TOML/YAML
    configuration files and from query result rows. */
module Values {

  /** A Python value as parsed from a configuration file or read from a row
      (floating point is not modelled). */
  datatype Value =
    | Null
    | Bool(b: bool)
    | Int(i: int)
    | Str(s: string)
    | List(items: seq<Value>)
    | Dict(entries: map<string, Value>)

  /** Python's `bool(v)`: `None`, `False`, `0`, and empty strings, lists and
      dicts are false; everything else is true. */
  predicate Truthy(v: Value) {
    match v
    case Null => false
    case Bool(b) => b
    case Int(i) => i != 0
    case Str(s) => s != []
    case List(items) => items != []
    case Dict(entries) => entries != map[]
  }
}
