/** The values that Python's JSON decoder produces: the untrusted data the bridge works on. */
module JsonValue {
  import opened Wrappers

  datatype Json =
    | JNull
    | JBool(b: bool)
    | JNum(n: real)
    | JStr(s: string)
    | JArr(items: seq<Json>)
    | JObj(fields: map<string, Json>)

  const EmptyObject: Json := JObj(map[])

  /** `obj.get(key, default)`: only a mapping has `get`; anything else raises. */
  function Get(obj: Json, key: string, default: Json): (r: Result<Json, Fault>)
    ensures r.Success? <==> obj.JObj?
    ensures r.Success? && key in obj.fields ==> r.value == obj.fields[key]
    ensures r.Success? && key !in obj.fields ==> r.value == default
  {
    match obj
    case JObj(m) => Success(if key in m then m[key] else default)
    case _ => Failure(BadShape)
  }
}
