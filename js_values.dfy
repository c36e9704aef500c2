/** The JavaScript values that `JSON.parse` can produce, and the three pieces
    of JavaScript semantics the normaliser relies on: truthiness, the `a || b`
    operator and reading a named property (`v.key`). */
module JsValues {
  import opened Wrappers

  /** A value produced by `JSON.parse`. `JSON.parse` rounds numbers to
      doubles (`1e400` gives `Infinity`, `1e-400` gives `0`); the parser
      parameter absorbs the rounding, an infinity is stood for by some
      non-zero real, which keeps its truthiness but not its value, and NaN
      cannot arise. An object keeps the last value of a repeated key, as
      `JSON.parse` does, so it is a map. */
  datatype Json =
    | JNull
    | JBool(b: bool)
    | JNumber(n: real)
    | JString(s: string)
    | JArray(elems: seq<Json>)
    | JObject(members: map<string, Json>)

  /** The object literal `{}`. */
  const EmptyObject: Json := JObject(map[])

  /** JavaScript truthiness: `null`, `false`, `0`, `-0` and `""` are falsy;
      every array and object (even an empty one) is truthy. */
  predicate Truthy(v: Json) {
    match v
    case JNull => false
    case JBool(b) => b
    case JNumber(n) => n != 0.0
    case JString(s) => s != ""
    case JArray(_) => true
    case JObject(_) => true
  }

  /** Truthiness of a property read, where `None` stands for `undefined`. */
  predicate TruthyOpt(o: Option<Json>) {
    o.Some? && Truthy(o.value)
  }

  /** `o || fallback`: the left operand when it is truthy, otherwise the right. */
  function Or(o: Option<Json>, fallback: Json): (r: Json)
    ensures TruthyOpt(o) ==> r == o.value
    ensures !TruthyOpt(o) ==> r == fallback
    ensures Truthy(fallback) ==> Truthy(r)
  {
    if TruthyOpt(o) then o.value else fallback
  }

  /** `v.key` for one of the twelve property names the normaliser reads
      (`market`, `essentials` and the ten field names). Properties of
      non-objects (`length` and the indices of strings and arrays) and
      prototype-inherited properties are not modelled; none of those twelve
      names is such a property. Reading a property of `null` throws in
      JavaScript, so that case is the caller's to handle. */
  function Member(v: Json, key: string): (r: Option<Json>)
    requires !v.JNull?
    ensures r.Some? <==> v.JObject? && key in v.members
    ensures r.Some? ==> r.value == v.members[key]
  {
    match v
    case JObject(m) => if key in m then Some(m[key]) else None
    case _ => None
  }
}
