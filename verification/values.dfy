/** The native values the codec produces: the Python objects `json.loads`
    builds for a payload, the scalar types the handlers decode to, and the
    graph-structure records of the DSE driver (vertex, edge, vertex
    property, path). */
module Values {
  import opened Json
  import opened Calendar
  import opened Base64

  datatype Value =
    | VNone
    | VBool(b: bool)
    | VInt(i: int)
    | VStr(s: string)
    | VList(items: seq<Value>)
    | VDict(entries: map<string, Value>)
    | VSet(elems: set<Value>)
    | VBytes(bytes: seq<byte>)          // bytearray
    | VUuid(uuid: nat)                  // uuid.UUID, by its 128-bit integer
    | VDateTime(dateTime: DateTime)     // naive datetime.datetime
    | VVertex(vertex: Vertex)
    | VVertexProperty(vertexProperty: VertexProperty)
    | VEdge(edge: Edge)
    | VPath(path: Path)

  /** `dse.graph.Vertex(id, label, type, properties)`; `kind` is the `type`
      argument, always `"vertex"` here. */
  datatype Vertex = Vertex(id: Value, lbl: Value, kind: string, properties: Value)

  /** `dse.graph.VertexProperty(label, value, properties)`. */
  datatype VertexProperty = VertexProperty(lbl: Value, value: Value, properties: Value)

  /** `dse.graph.Edge(id, label, type, properties, inV, inVLabel, outV, outVLabel)`. */
  datatype Edge = Edge(id: Value, lbl: Value, kind: string, properties: Value,
                       inV: Vertex, inVLabel: Value, outV: Vertex, outVLabel: Value)

  /** `dse.graph.Path`: one label set per step and the step objects, in order. */
  datatype Path = Path(labels: seq<set<Value>>, objects: seq<Value>)

  /** The Python object `json.loads` builds for a JSON value: handlers that
      read a field without passing it through the reader see this. */
  function Raw(j: Json): (v: Value)
    ensures j.JStr? <==> v.VStr?
    ensures j.JArr? ==> v.VList? && |v.items| == |j.items|
    ensures j.JObj? ==> v.VDict? && v.entries.Keys == j.fields.Keys
  {
    match j
    case JNull => VNone
    case JBool(b) => VBool(b)
    case JInt(i) => VInt(i)
    case JStr(s) => VStr(s)
    case JArr(xs) => VList(seq(|xs|, k requires 0 <= k < |xs| => Raw(xs[k])))
    case JObj(m) => VDict(map k | k in m :: Raw(m[k]))
  }

  /** Python refuses to put lists, dicts, sets and bytearrays in a set. */
  predicate Hashable(v: Value)
  {
    !(v.VList? || v.VDict? || v.VSet? || v.VBytes?)
  }

  lemma RawHashable(j: Json)
    ensures Hashable(Raw(j)) <==> !(j.JArr? || j.JObj?)
  {
  }
}
