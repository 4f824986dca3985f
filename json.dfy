/** JSON values as `JSON.parse` produces them (sections 3 to 5 of RFC 8259),
    and the JavaScript tests the validators apply to them. */
module JsonValue {
  import opened Wrappers

  /** A decoded JSON value. Numbers are opaque: the code only asks whether a
      value is a number, so an integer payload stands for any JSON number.
      An object maps each member name to its value; with duplicate names
      `JSON.parse` keeps the last one, which a map represents directly. */
  datatype Json =
    | JNull
    | JBool(b: bool)
    | JNumber(n: int)
    | JString(str: string)
    | JArray(items: seq<Json>)
    | JObject(fields: map<string, Json>)

  /** `typeof v === 'object' && v !== null`: true of objects AND of arrays. */
  predicate IsNonNullObject(v: Json)
  {
    v.JObject? || v.JArray?
  }

  /** The property access `v.key` for the member names the guards read:
      `None` stands for `undefined`. Arrays and scalars carry none of those
      names (they do carry others, such as `length` or the inherited
      `constructor`, which no guard reads), so every such lookup on them
      fails. */
  function Field(v: Json, key: string): (r: Option<Json>)
    ensures r.Some? <==> v.JObject? && key in v.fields
    ensures r.Some? ==> r.value == v.fields[key]
  {
    match v
    case JObject(fields) => if key in fields then Some(fields[key]) else None
    case _ => None
  }

  /** `b` is `a` with extra object members added anywhere inside it: every
      member of `a` is present in `b` with an extended value, arrays have the
      same length and extended elements, and scalars are equal. */
  predicate Extends(a: Json, b: Json)
  {
    match a
    case JArray(xs) =>
      b.JArray? && |b.items| == |xs| &&
      forall i :: 0 <= i < |xs| ==> Extends(xs[i], b.items[i])
    case JObject(f) =>
      b.JObject? && forall k :: k in f ==> k in b.fields && Extends(f[k], b.fields[k])
    case _ => a == b
  }
}
