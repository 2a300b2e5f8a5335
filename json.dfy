/** Decoded JSON bodies, as PHP's `json_decode(..., true)` hands them to the
    client, and the small Option/Result wrappers the rest of the model uses. */
module JsonValues {

  datatype Option<+T> = None | Some(value: T)

  datatype Result<+T, +E> = Ok(value: T) | Err(error: E)

  /** A decoded JSON value. Objects are keyed maps; numbers are integers. */
  datatype Json =
    | JNull
    | JBool(b: bool)
    | JInt(i: int)
    | JStr(s: string)
    | JList(items: seq<Json>)
    | JObject(fields: map<string, Json>)

  /** `$value[$key] ?? null`: the member of an object, or nothing when the
      value is not an object, lacks the key, or holds `null` there. */
  function Member(v: Json, key: string): (r: Option<Json>)
    ensures r.Some? <==> v.JObject? && key in v.fields && v.fields[key] != JNull
    ensures r.Some? ==> r.value == v.fields[key]
  {
    if v.JObject? && key in v.fields && v.fields[key] != JNull then Some(v.fields[key]) else None
  }
}
