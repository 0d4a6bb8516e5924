/**
 * JSON values as the `serde_json::Value` they stand for. Objects are
 * maps from key to value: the default `serde_json::Map` is keyed, so the
 * order of keys in a `json!` literal carries no meaning.
 */
module JsonValue {
  import opened Wrappers

  datatype Json =
    | JNull
    | JBool(b: bool)
    | JNum(n: int)
    | JStr(s: string)
    | JArr(items: seq<Json>)
    | JObj(fields: map<string, Json>)

  /** `Value::get(key)`: the member named `key` of an object, and `None`
      for a missing key or for a value that is not an object. */
  function Get(v: Json, key: string): (r: Option<Json>)
    ensures r.Some? <==> v.JObj? && key in v.fields
    ensures r.Some? ==> r.value == v.fields[key]
  {
    match v
    case JObj(fields) => if key in fields then Some(fields[key]) else None
    case _ => None
  }

  /** `Value::get(key)` followed by `as_str()`: the string member named
      `key`, and `None` when it is missing or is not a string. */
  function GetStr(v: Json, key: string): (r: Option<string>)
    ensures r.Some? <==> Get(v, key).Some? && Get(v, key).value.JStr?
    ensures r.Some? ==> Get(v, key) == Some(JStr(r.value))
  {
    match Get(v, key)
    case Some(JStr(s)) => Some(s)
    case _ => None
  }
}
