/** Parsed JSON values, as `JSON.parse` produces them, and the few JavaScript
    operations the browser scripts apply to them. */
module Json {
  import opened Common

  /** A parsed JSON value. Numbers are modelled as integers; an object maps
      each of its keys to its value (`JSON.parse` keeps the last duplicate). */
  datatype Json =
    | JNull
    | JBool(b: bool)
    | JNumber(n: int)
    | JString(s: string)
    | JArray(items: seq<Json>)
    | JObject(fields: map<string, Json>)

  /** JavaScript truthiness of a parsed value. */
  predicate Truthy(v: Json)
  {
    match v
    case JNull => false
    case JBool(b) => b
    case JNumber(n) => n != 0
    case JString(s) => s != ""
    case JArray(_) => true
    case JObject(_) => true
  }

  /** `typeof v === "object"`: true of arrays and objects, and of `null`. */
  predicate TypeofObject(v: Json)
  {
    v.JNull? || v.JArray? || v.JObject?
  }

  /** Property access `v.key` for a key that is not an array index and not
      `length`; `None` is `undefined`. */
  function Get(v: Json, key: string): (r: Option<Json>)
    ensures r.Some? <==> v.JObject? && key in v.fields
    ensures r.Some? ==> r.value == v.fields[key]
  {
    if v.JObject? && key in v.fields then Some(v.fields[key]) else None
  }

  /** A property value that `JSON.stringify` writes: `null` for an absent
      optional string. */
  function OptionalString(s: Option<string>): Json
  {
    match s
    case None => JNull
    case Some(t) => JString(t)
  }
}
