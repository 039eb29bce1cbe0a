/** Decoded JSON values, as Python's json module hands them to the three
    components: null, booleans, integers, strings, lists and dicts. */
module JsonValues {

  datatype Option<+T> = None | Some(value: T)

  datatype Result<+T, +E> = Ok(value: T) | Err(error: E)

  /** A decoded JSON value. Objects are dicts: key order is not kept here;
      the relay bodies that do depend on key order are sequences of pairs. */
  datatype Json =
    | JNull
    | JBool(b: bool)
    | JInt(n: int)
    | JStr(s: string)
    | JArr(items: seq<Json>)
    | JObj(fields: map<string, Json>)

  /** Python truthiness of a decoded value (`if x:`). */
  predicate Truthy(j: Json) {
    match j
    case JNull => false
    case JBool(b) => b
    case JInt(n) => n != 0
    case JStr(s) => s != ""
    case JArr(items) => items != []
    case JObj(fields) => fields != map[]
  }

  /** `d.get(k)`: the value under `k`, or null when the key is absent. */
  function Get(d: map<string, Json>, k: string): Json
  {
    GetOr(d, k, JNull)
  }

  /** `d.get(k, default)`. A key that is present with a null value gives null,
      not the default. */
  function GetOr(d: map<string, Json>, k: string, default: Json): Json
  {
    if k in d then d[k] else default
  }

  const EmptyObject: Json := JObj(map[])
}
