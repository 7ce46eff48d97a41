/**
  The decoded JSON values a request may carry. A request body (or the dictionary
  a handler builds from path and query parameters) is a map from keys to values.
*/
module Json {

  datatype JsonValue =
    | JStr(s: string)
    | JInt(i: int)
    | JFloat(approx: real)   // a JSON number written with a fraction or an exponent
    | JBool(b: bool)
    | JNull
    | JArray(items: seq<JsonValue>)
    | JObject(fields: map<string, JsonValue>)

  /** A top-level JSON object: the payload every schema loads. */
  type Body = map<string, JsonValue>
}
