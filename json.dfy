/**
 * JSON values as `JSON.parse` produces them, and the two pieces of
 * JavaScript semantics the itinerary check relies on: reading a property of
 * a value, and truthiness.
 */
module Json {

  /** A parsed JSON value. An object is its key/value map: `JSON.parse` keeps
      the last occurrence of a repeated key. Numbers are taken as reals
      (JSON has no NaN). */
  datatype Json =
    | JNull
    | JBool(b: bool)
    | JNumber(n: real)
    | JString(s: string)
    | JArray(items: seq<Json>)
    | JObject(fields: map<string, Json>)

  /** Outcome of reading a property of a value in JavaScript. */
  datatype Read = Undefined | Defined(value: Json) | ThrowsTypeError

  /** Reading property `key` of `v`: a field of an object; `undefined` on booleans, numbers,
      strings, arrays and on an object without that key; a TypeError on
      `null`. */
  function ReadProperty(v: Json, key: string): (r: Read)
    ensures r == ThrowsTypeError <==> v.JNull?
    ensures r.Defined? <==> v.JObject? && key in v.fields
    ensures r.Defined? ==> r.value == v.fields[key]
  {
    match v
    case JNull => ThrowsTypeError
    case JObject(fields) => if key in fields then Defined(fields[key]) else Undefined
    case _ => Undefined
  }

  /** JavaScript truthiness of a JSON value: arrays and objects are truthy,
      even when empty. */
  predicate Truthy(v: Json): (b: bool)
    ensures v.JArray? || v.JObject? ==> b
    ensures v.JNull? ==> !b
  {
    match v
    case JNull => false
    case JBool(b) => b
    case JNumber(n) => n != 0.0
    case JString(s) => s != ""
    case JArray(_) => true
    case JObject(_) => true
  }

  /** JavaScript's array test. */
  predicate IsArray(v: Json)
  {
    v.JArray?
  }
}
