/** The decoders of the graph-structure tags: each takes the `@value`
    payload of a `g:Vertex`, `g:VertexProperty`, `g:Edge`, `g:Property` or
    `g:Path` record together with the reader's recursive `toObject`, which
    it applies to the nested fields. A required field that is absent fails
    the whole decode; a failure of the reader is passed on unchanged. */
module Structural {
  import opened Results
  import opened Json
  import opened Values

  /** The reader's `toObject`, supplied by the caller. */
  type Reader = Json -> Result<Value>

  /** `v[key]`. */
  function Field(p: Json, key: string): (r: Result<Json>)
    ensures r.Ok? <==> p.JObj? && key in p.fields
    ensures r.Ok? ==> r.value == p.fields[key]
    ensures !p.JObj? ==> r == Err(NotSubscriptable)
    ensures p.JObj? && key !in p.fields ==> r == Err(MissingField(key))
  {
    if !p.JObj? then Err(NotSubscriptable)
    else if key in p.fields then Ok(p.fields[key])
    else Err(MissingField(key))
  }

  /** `v.get('properties', {})`. */
  function PropertiesOf(fields: map<string, Json>): (j: Json)
    ensures "properties" in fields ==> j == fields["properties"]
    ensures "properties" !in fields ==> j == JObj(map[])
  {
    if "properties" in fields then fields["properties"] else JObj(map[])
  }

  const DefaultLabel := VStr("vertex")

  /** `v["label"] if "label" in v else "vertex"`. */
  function LabelOr(fields: map<string, Json>): (v: Value)
    ensures "label" in fields ==> v == Raw(fields["label"])
    ensures "label" !in fields ==> v == DefaultLabel
  {
    if "label" in fields then Raw(fields["label"]) else DefaultLabel
  }

  /** The properties `{}` of an edge's end-point vertices. */
  const NoProperties := VDict(map[])

  /** `DseVertexDeserializer.objectify`. */
  function DecodeVertex(p: Json, reader: Reader): (r: Result<Vertex>)
    ensures !p.JObj? ==> r == Err(NotSubscriptable)
    ensures p.JObj? && "id" !in p.fields ==> r == Err(MissingField("id"))
    ensures p.JObj? && "id" in p.fields && reader(p.fields["id"]).Err? ==> r == Err(reader(p.fields["id"]).error)
    ensures p.JObj? && "id" in p.fields && reader(p.fields["id"]).Ok? && reader(PropertiesOf(p.fields)).Err? ==>
      r == Err(reader(PropertiesOf(p.fields)).error)
    ensures r.Ok? <==> p.JObj? && "id" in p.fields && reader(p.fields["id"]).Ok? && reader(PropertiesOf(p.fields)).Ok?
    ensures r.Ok? ==>
      && Ok(r.value.id) == reader(p.fields["id"])
      && r.value.lbl == LabelOr(p.fields)
      && r.value.kind == "vertex"
      && Ok(r.value.properties) == reader(PropertiesOf(p.fields))
  {
    var idJ :- Field(p, "id");
    var id :- reader(idJ);
    var properties :- reader(PropertiesOf(p.fields));
    Ok(Vertex(id, LabelOr(p.fields), "vertex", properties))
  }

  /** `DseVertexPropertyDeserializer.objectify`: the label has no default. */
  function DecodeVertexProperty(p: Json, reader: Reader): (r: Result<VertexProperty>)
    ensures !p.JObj? ==> r == Err(NotSubscriptable)
    ensures p.JObj? && "label" !in p.fields ==> r == Err(MissingField("label"))
    ensures p.JObj? && "label" in p.fields && "value" !in p.fields ==> r == Err(MissingField("value"))
    ensures p.JObj? && "label" in p.fields && "value" in p.fields && reader(p.fields["value"]).Err? ==>
      r == Err(reader(p.fields["value"]).error)
    ensures p.JObj? && "label" in p.fields && "value" in p.fields && reader(p.fields["value"]).Ok?
            && reader(PropertiesOf(p.fields)).Err? ==>
      r == Err(reader(PropertiesOf(p.fields)).error)
    ensures r.Ok? <==>
      && p.JObj? && "label" in p.fields && "value" in p.fields
      && reader(p.fields["value"]).Ok? && reader(PropertiesOf(p.fields)).Ok?
    ensures r.Ok? ==>
      && r.value.lbl == Raw(p.fields["label"])
      && Ok(r.value.value) == reader(p.fields["value"])
      && Ok(r.value.properties) == reader(PropertiesOf(p.fields))
  {
    var labelJ :- Field(p, "label");
    var valueJ :- Field(p, "value");
    var value :- reader(valueJ);
    var properties :- reader(PropertiesOf(p.fields));
    Ok(VertexProperty(Raw(labelJ), value, properties))
  }

  /** One end of an edge: a vertex with the decoded id, the given label and
      no properties; the label must be present. */
  function Endpoint(p: Json, idKey: string, labelKey: string, reader: Reader): (r: Result<Vertex>)
    requires p.JObj?
    ensures idKey in p.fields && labelKey in p.fields && reader(p.fields[idKey]).Ok? ==> r.Ok?
    ensures r.Ok? ==>
      && idKey in p.fields && labelKey in p.fields
      && Ok(r.value.id) == reader(p.fields[idKey])
      && r.value == Vertex(r.value.id, Raw(p.fields[labelKey]), "vertex", NoProperties)
    ensures idKey !in p.fields ==> r == Err(MissingField(idKey))
    ensures idKey in p.fields && reader(p.fields[idKey]).Err? ==> r == Err(reader(p.fields[idKey]).error)
    ensures idKey in p.fields && reader(p.fields[idKey]).Ok? && labelKey !in p.fields ==> r == Err(MissingField(labelKey))
  {
    var idJ :- Field(p, idKey);
    var id :- reader(idJ);
    var labelJ :- Field(p, labelKey);
    Ok(Vertex(id, Raw(labelJ), "vertex", NoProperties))
  }

  /** The fields an edge payload must carry. */
  predicate EdgeFields(fields: map<string, Json>)
  {
    "id" in fields && "inV" in fields && "inVLabel" in fields && "outV" in fields && "outVLabel" in fields
  }

  /** `DseEdgeDeserializer.objectify`. A missing label defaults to
      `"vertex"`, the same default as a vertex's. */
  function DecodeEdge(p: Json, reader: Reader): (r: Result<Edge>)
    ensures !p.JObj? ==> r == Err(NotSubscriptable)
    ensures p.JObj? && "id" !in p.fields ==> r == Err(MissingField("id"))
    ensures (&& p.JObj? && EdgeFields(p.fields)
             && reader(p.fields["id"]).Ok? && reader(PropertiesOf(p.fields)).Ok?
             && reader(p.fields["inV"]).Ok? && reader(p.fields["outV"]).Ok?) ==> r.Ok?
    ensures r.Ok? ==>
      && p.JObj?
      && EdgeFields(p.fields)
      && Ok(r.value.id) == reader(p.fields["id"])
      && r.value.lbl == LabelOr(p.fields)
      && r.value.kind == "edge"
      && Ok(r.value.properties) == reader(PropertiesOf(p.fields))
      && Ok(r.value.inV.id) == reader(p.fields["inV"])
      && r.value.inV == Vertex(r.value.inV.id, Raw(p.fields["inVLabel"]), "vertex", NoProperties)
      && r.value.inVLabel == Raw(p.fields["inVLabel"])
      && Ok(r.value.outV.id) == reader(p.fields["outV"])
      && r.value.outV == Vertex(r.value.outV.id, Raw(p.fields["outVLabel"]), "vertex", NoProperties)
      && r.value.outVLabel == Raw(p.fields["outVLabel"])
  {
    var idJ :- Field(p, "id");
    var id :- reader(idJ);
    var properties :- reader(PropertiesOf(p.fields));
    var inV :- Endpoint(p, "inV", "inVLabel", reader);
    var outV :- Endpoint(p, "outV", "outVLabel", reader);
    Ok(Edge(id, LabelOr(p.fields), "edge", properties,
            inV, Raw(p.fields["inVLabel"]), outV, Raw(p.fields["outVLabel"])))
  }

  /** An edge decodes exactly when all its fields are present and the reader
      accepts `id`, `properties`, `inV` and `outV`; otherwise the first
      failure in the source's order (`id`, `properties`, `inV`, `inVLabel`,
      `outV`, `outVLabel`) is returned unchanged. */
  lemma EdgeFailures(p: Json, reader: Reader)
    requires p.JObj? && "id" in p.fields
    ensures DecodeEdge(p, reader).Ok? <==>
      && EdgeFields(p.fields)
      && reader(p.fields["id"]).Ok? && reader(PropertiesOf(p.fields)).Ok?
      && reader(p.fields["inV"]).Ok? && reader(p.fields["outV"]).Ok?
    ensures reader(p.fields["id"]).Err? ==> DecodeEdge(p, reader) == Err(reader(p.fields["id"]).error)
    ensures reader(p.fields["id"]).Ok? && reader(PropertiesOf(p.fields)).Err? ==>
      DecodeEdge(p, reader) == Err(reader(PropertiesOf(p.fields)).error)
    ensures reader(p.fields["id"]).Ok? && reader(PropertiesOf(p.fields)).Ok? && Endpoint(p, "inV", "inVLabel", reader).Err? ==>
      DecodeEdge(p, reader) == Err(Endpoint(p, "inV", "inVLabel", reader).error)
    ensures reader(p.fields["id"]).Ok? && reader(PropertiesOf(p.fields)).Ok? && Endpoint(p, "inV", "inVLabel", reader).Ok?
            && Endpoint(p, "outV", "outVLabel", reader).Err? ==>
      DecodeEdge(p, reader) == Err(Endpoint(p, "outV", "outVLabel", reader).error)
  {
  }

  /** `DsePropertyDeserializer.objectify`: the set `{key, reader(value)}`,
      not a key/value pair. Python refuses an unhashable member. */
  function DecodeProperty(p: Json, reader: Reader): (r: Result<set<Value>>)
    ensures !p.JObj? ==> r == Err(NotSubscriptable)
    ensures p.JObj? && "key" !in p.fields ==> r == Err(MissingField("key"))
    ensures p.JObj? && "key" in p.fields && "value" !in p.fields ==> r == Err(MissingField("value"))
    ensures p.JObj? && "key" in p.fields && "value" in p.fields && reader(p.fields["value"]).Err? ==>
      r == Err(reader(p.fields["value"]).error)
    ensures r.Ok? ==>
      && p.JObj? && "key" in p.fields && "value" in p.fields
      && reader(p.fields["value"]).Ok?
      && r.value == {Raw(p.fields["key"]), reader(p.fields["value"]).value}
      && (|r.value| == 1 <==> Raw(p.fields["key"]) == reader(p.fields["value"]).value)
    ensures p.JObj? && "key" in p.fields && "value" in p.fields && reader(p.fields["value"]).Ok? ==>
      (r.Ok? <==> Hashable(Raw(p.fields["key"])) && Hashable(reader(p.fields["value"]).value))
  {
    var keyJ :- Field(p, "key");
    var valueJ :- Field(p, "value");
    var value :- reader(valueJ);
    var key := Raw(keyJ);
    if !Hashable(key) || !Hashable(value) then Err(Unhashable)
    else
      assert |{key, value}| == 1 <==> key == value;
      Ok({key, value})
  }

  /** `for x in v`: the items of a list, or the one-character strings of a
      string. Iterating a dict depends on its key insertion order, which a
      JSON object as a map does not keep. */
  function Elements(j: Json): (r: Result<seq<Json>>)
    ensures j.JArr? ==> r == Ok(j.items)
    ensures j.JStr? ==> r.Ok? && |r.value| == |j.s| && forall i :: 0 <= i < |j.s| ==> r.value[i] == JStr([j.s[i]])
    ensures j.JNull? || j.JBool? || j.JInt? ==> r == Err(NotIterable)
  {
    match j
    case JArr(xs) => Ok(xs)
    case JStr(s) => Ok(seq(|s|, i requires 0 <= i < |s| => JStr([s[i]])))
    case JObj(_) => Err(Unmodelled("iteration order of a dict"))
    case _ => Err(NotIterable)
  }

  /** `set(label)` for one entry of a path's labels. */
  function LabelSet(j: Json): (r: Result<set<Value>>)
    ensures j.JArr? ==> (r.Ok? <==> forall i :: 0 <= i < |j.items| ==> Hashable(Raw(j.items[i])))
    ensures j.JArr? && r.Ok? ==> forall x :: x in r.value <==> exists i :: 0 <= i < |j.items| && Raw(j.items[i]) == x
    ensures j.JStr? ==> r.Ok? && forall x :: x in r.value <==> exists i :: 0 <= i < |j.s| && x == VStr([j.s[i]])
    ensures j.JObj? ==> r.Ok? && forall x :: x in r.value <==> exists k :: k in j.fields && x == VStr(k)
    ensures j.JNull? || j.JBool? || j.JInt? ==> r == Err(NotIterable)
  {
    match j
    case JArr(xs) =>
      if forall i :: 0 <= i < |xs| ==> Hashable(Raw(xs[i])) then Ok(set i | 0 <= i < |xs| :: Raw(xs[i]))
      else Err(Unhashable)
    case JStr(s) => Ok(set i | 0 <= i < |s| :: VStr([s[i]]))
    case JObj(m) => Ok(set k | k in m :: VStr(k))
    case _ => Err(NotIterable)
  }

  /** `DsePathDeserializer.objectify`: one label set per entry of `labels`
      and one decoded object per entry of `objects`, both in input order.
      The labels are all converted before `objects` is read. */
  function DecodePath(p: Json, reader: Reader): (r: Result<Path>)
    ensures !p.JObj? ==> r == Err(NotSubscriptable)
    ensures p.JObj? && "labels" !in p.fields ==> r == Err(MissingField("labels"))
    ensures r.Ok? ==> p.JObj? && "labels" in p.fields && "objects" in p.fields
    ensures r.Ok? && p.fields["labels"].JArr? ==>
      var ls := p.fields["labels"].items;
      |r.value.labels| == |ls| && forall i :: 0 <= i < |ls| ==> Ok(r.value.labels[i]) == LabelSet(ls[i])
    ensures r.Ok? && p.fields["objects"].JArr? ==>
      var os := p.fields["objects"].items;
      |r.value.objects| == |os| && forall i :: 0 <= i < |os| ==> Ok(r.value.objects[i]) == reader(os[i])
    ensures r.Ok? && p.fields["labels"].JStr? ==>
      var s := p.fields["labels"].s;
      |r.value.labels| == |s| && forall i :: 0 <= i < |s| ==> Ok(r.value.labels[i]) == LabelSet(JStr([s[i]]))
    ensures r.Ok? && p.fields["objects"].JStr? ==>
      var s := p.fields["objects"].s;
      |r.value.objects| == |s| && forall i :: 0 <= i < |s| ==> Ok(r.value.objects[i]) == reader(JStr([s[i]]))
  {
    var labelsJ :- Field(p, "labels");
    var labelItems :- Elements(labelsJ);
    var labels :- MapAll(labelItems, LabelSet);
    var objectsJ :- Field(p, "objects");
    var objectItems :- Elements(objectsJ);
    var objects :- MapAll(objectItems, reader);
    Ok(Path(labels, objects))
  }

  /** A path decodes exactly when every label entry converts and the reader
      accepts every object; otherwise the first failure is reported, a
      label failure ahead of any object failure. */
  lemma PathFailures(p: Json, reader: Reader)
    requires p.JObj? && "labels" in p.fields && "objects" in p.fields
    requires p.fields["labels"].JArr? && p.fields["objects"].JArr?
    ensures var ls, os := p.fields["labels"].items, p.fields["objects"].items;
      && (DecodePath(p, reader).Ok? <==>
            (forall i :: 0 <= i < |ls| ==> LabelSet(ls[i]).Ok?) && (forall i :: 0 <= i < |os| ==> reader(os[i]).Ok?))
      && ((exists i :: 0 <= i < |ls| && LabelSet(ls[i]).Err?) ==>
            exists i :: 0 <= i < |ls| && LabelSet(ls[i]).Err? && DecodePath(p, reader) == Err(LabelSet(ls[i]).error))
      && ((forall i :: 0 <= i < |ls| ==> LabelSet(ls[i]).Ok?) && (exists i :: 0 <= i < |os| && reader(os[i]).Err?) ==>
            exists i :: && 0 <= i < |os| && reader(os[i]).Err? && (forall j :: 0 <= j < i ==> reader(os[j]).Ok?)
                        && DecodePath(p, reader) == Err(reader(os[i]).error))
  {
  }

  /** A `g:Vertex` payload with id `{"@type": "g:Int32", "@value": 1}`,
      label "person" and empty properties decodes, under a reader that
      turns that id into 1 and `{}` into an empty dict, to the vertex 1
      labelled "person" with no properties; without the label it is
      labelled "vertex". */
  lemma VertexExample(reader: Reader)
    requires reader(TypedValue("Int32", JInt(1))) == Ok(VInt(1))
    requires reader(JObj(map[])) == Ok(NoProperties)
    ensures DecodeVertex(JObj(map["id" := TypedValue("Int32", JInt(1)), "label" := JStr("person"), "properties" := JObj(map[])]), reader)
            == Ok(Vertex(VInt(1), VStr("person"), "vertex", NoProperties))
    ensures DecodeVertex(JObj(map["id" := TypedValue("Int32", JInt(1))]), reader)
            == Ok(Vertex(VInt(1), VStr("vertex"), "vertex", NoProperties))
  {
  }
}
