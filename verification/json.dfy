/** Parsed JSON request bodies, as Express hands them to the handlers. */
module Json {
  import opened Results

  datatype Json =
    | JNull
    | JBool(b: bool)
    | JNumber(n: real)
    | JString(s: string)
    | JArray(items: seq<Json>)
    | JObject(fields: map<string, Json>)

  /** `body[key]` for an object body; absent (`undefined`) for a missing key
      or for any body that is not an object. */
  function Field(j: Json, key: string): (r: Option<Json>)
    ensures r.Some? <==> j.JObject? && key in j.fields
    ensures r.Some? ==> r.value == j.fields[key]
  {
    match j
    case JObject(fields) => if key in fields then Some(fields[key]) else None
    case _ => None
  }
}
