/**
 * JSON values (RFC 8259) as the canvas editor sees them after `JSON.parse`,
 * with the two JavaScript operations the editor applies to them: reading a
 * property (and testing it for truthiness) and spreading an object into
 * another. Parsing and serialising text are the function-valued fields of a
 * `JsonCodec`.
 */
module Json {
  import opened Wrappers

  datatype Json =
    | JNull
    | JBool(b: bool)
    | JNumber(n: real)
    | JString(s: string)
    | JArray(items: seq<Json>)
    | JObject(fields: map<string, Json>)

  /** `JSON.parse` (`None` when it throws) and `JSON.stringify`. */
  datatype JsonCodec = JsonCodec(parse: string -> Option<Json>, stringify: Json -> string)

  /** JavaScript truthiness: `null`, `false`, `0` and `""` are falsy; arrays and objects are truthy. */
  predicate Truthy(v: Json) {
    match v
    case JNull => false
    case JBool(b) => b
    case JNumber(n) => n != 0.0
    case JString(s) => s != ""
    case JArray(_) => true
    case JObject(_) => true
  }

  /** Reading `v.key` on a non-null value: the field of an object, `undefined` otherwise. */
  function Property(v: Json, key: string): Option<Json> {
    if v.JObject? && key in v.fields then Some(v.fields[key]) else None
  }

  /** `if (v.key)`: the property exists and is truthy. */
  predicate HasTruthy(v: Json, key: string) {
    Property(v, key).Some? && Truthy(Property(v, key).value)
  }

  /** The keys `{...v}` copies: an object's own fields. */
  function Spread(v: Json): map<string, Json> {
    if v.JObject? then v.fields else map[]
  }
}
