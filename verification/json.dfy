/** The JSON documents GraphSON travels in, and the tagged record
    `{"@type": "<prefix>:<Name>", "@value": <payload>}` that wraps every
    typed value on the wire. */
module Json {
  import opened Results

  /** A parsed JSON value. Floating-point numbers are not part of this model. */
  datatype Json =
    | JNull
    | JBool(b: bool)
    | JInt(i: int)
    | JStr(s: string)
    | JArr(items: seq<Json>)
    | JObj(fields: map<string, Json>)

  const TypeKey := "@type"
  const ValueKey := "@value"

  /** The `@type` string of a tagged record. */
  function TagOf(j: Json): Option<string>
  {
    if j.JObj? && TypeKey in j.fields && j.fields[TypeKey].JStr? then Some(j.fields[TypeKey].s) else None
  }

  /** The `@value` payload of a tagged record. */
  function PayloadOf(j: Json): Option<Json>
  {
    if j.JObj? && ValueKey in j.fields then Some(j.fields[ValueKey]) else None
  }

  /** `GraphSONUtil.typedValue(name, value, prefix)`: the tagged record whose
      tag is the namespaced type name; the prefix defaults to `g`. */
  function TypedValue(name: string, value: Json, prefix: string := "g"): (r: Json)
    ensures TagOf(r) == Some(prefix + ":" + name)
    ensures PayloadOf(r) == Some(value)
    ensures r.JObj? && r.fields.Keys == {TypeKey, ValueKey}
  {
    JObj(map[TypeKey := JStr(prefix + ":" + name), ValueKey := value])
  }
}
