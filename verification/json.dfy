/**
  JSON values as a JavaScript program sees them after `JSON.parse`.
  Encoding and decoding themselves are not modelled: callers receive them as
  function parameters.
 */
module Json {
  import opened Wrappers

  /** A parsed JSON document. A parsed object keeps the last value of a
      repeated key, so a map describes it exactly. Numbers are kept as
      integers: no part of the model inspects them. */
  datatype Json =
    | JNull
    | JBool(b: bool)
    | JNumber(n: int)
    | JString(s: string)
    | JArray(items: seq<Json>)
    | JObject(fields: map<string, Json>)

  /** `typeof v === 'object' && v !== null`: arrays are objects too. */
  predicate IsObjectLike(v: Json) {
    v.JObject? || v.JArray?
  }

  /** The property read `v[key]` for the named (non-index) keys this model
      reads; `None` stands for `undefined`. Arrays carry no such property. */
  function Property(v: Json, key: string): (r: Option<Json>)
    ensures r.Some? ==> v.JObject? && key in v.fields && r.value == v.fields[key]
    ensures v.JObject? && key in v.fields ==> r.Some?
  {
    if v.JObject? && key in v.fields then Some(v.fields[key]) else None
  }
}
