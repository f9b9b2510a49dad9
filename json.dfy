/** JSON values as the Python code holds them after `json.loads`, and Python truthiness. */
module Json {
  import opened Optional

  datatype JValue =
    | JNull
    | JBool(b: bool)
    | JNum(n: int)
    | JStr(s: string)
    | JList(items: seq<JValue>)
    | JObject(fields: map<string, JValue>)

  /** A Python dict with string keys. */
  type Dict = map<string, JValue>

  /** `bool(v)`: None, False, 0 and empty strings, lists and dicts are false. */
  predicate Truthy(v: JValue) {
    match v
    case JNull => false
    case JBool(b) => b
    case JNum(n) => n != 0
    case JStr(s) => s != ""
    case JList(items) => items != []
    case JObject(fields) => fields != map[]
  }

  /** A Python `Optional[str]` as a JSON value. */
  function OptStr(o: Option<string>): (v: JValue)
    ensures o.None? <==> v == JNull
    ensures o.Some? ==> v == JStr(o.value)
  {
    match o
    case Some(s) => JStr(s)
    case None => JNull
  }
}
