/** The fragment of `serde_json::Value` the core reads and builds. Numbers are integers:
    no member of the model reads or writes a floating-point number. */
module Json {
  import opened Wrappers

  datatype Value =
    | Null
    | Bool(b: bool)
    | Number(n: int)
    | Str(s: string)
    | Array(items: seq<Value>)
    | Object(fields: map<string, Value>)

  /** `value[key]` (serde's `Index`): the field's value, or `Null` when the field is
      missing or the value is not an object. */
  function Get(v: Value, key: string): Value {
    if v.Object? && key in v.fields then v.fields[key] else Null
  }

  /** `Value::as_str` */
  function AsStr(v: Value): Option<string> {
    if v.Str? then Some(v.s) else None
  }

  /** `Value::as_bool` */
  function AsBool(v: Value): Option<bool> {
    if v.Bool? then Some(v.b) else None
  }

  /** The JSON rendering of an `Option<String>`: `null` for `None`. */
  function OptStr(o: Option<string>): Value {
    match o
    case Some(s) => Str(s)
    case None => Null
  }
}
