/** The handler tables: `serializers`, keyed by native type, chooses the
    encoder; `deserializers`, keyed by wire tag, chooses the decoder, and
    `dse_deserializers` extends it with the five graph-structure tags. A
    handler is named by its class. */
module Registry {
  import opened Results
  import opened Json
  import opened Values
  import opened Scalars
  import opened Structural
  import Uuid
  import Base64

  datatype Handler =
    | IntegerSerializer
    | Int16Deserializer
    | Int64Deserializer
    | UUIDIO
    | BigDecimalIO
    | InstantIO
    | DurationIO
    | BlobIO
    | PointIO
    | LineStringIO
    | PolygonIO
    | StringDeserializer
    | DseVertexDeserializer
    | DseVertexPropertyDeserializer
    | DseEdgeDeserializer
    | DsePropertyDeserializer
    | DsePathDeserializer

  /** The Python 3 native types the encode table is keyed by. */
  datatype NativeType =
    | LongType | IntType | UuidType | DecimalType | DatetimeType | TimedeltaType
    | BytearrayType | PointType | LineStringType | PolygonType | MemoryviewType | BytesType

  predicate HasDictify(h: Handler)
  {
    h.IntegerSerializer? || h.UUIDIO? || h.BigDecimalIO? || h.InstantIO? || h.DurationIO?
    || h.BlobIO? || h.PointIO? || h.LineStringIO? || h.PolygonIO?
  }

  predicate HasObjectify(h: Handler)
  {
    !h.IntegerSerializer?
  }

  const Serializers: map<NativeType, Handler> := map[
    LongType := IntegerSerializer,
    IntType := IntegerSerializer,
    UuidType := UUIDIO,
    DecimalType := BigDecimalIO,
    DatetimeType := InstantIO,
    TimedeltaType := DurationIO,
    BytearrayType := BlobIO,
    PointType := PointIO,
    LineStringType := LineStringIO,
    PolygonType := PolygonIO,
    MemoryviewType := BlobIO,
    BytesType := BlobIO
  ]

  /** A decode table: every handler it holds can decode. */
  type DecodeTable = m: map<string, Handler> | Decodes(m) witness map[]

  const Deserializers: DecodeTable := map[
    "gx:Int16" := Int16Deserializer,
    "g:Int64" := Int64Deserializer,
    "g:UUID" := UUIDIO,
    "gx:BigInteger" := Int64Deserializer,
    "gx:BigDecimal" := BigDecimalIO,
    "gx:Instant" := InstantIO,
    "gx:Duration" := DurationIO,
    "gx:InetAddress" := StringDeserializer,
    "dse:Blob" := BlobIO,
    "dse:Point" := PointIO,
    "dse:LineString" := LineStringIO,
    "dse:Polygon" := PolygonIO
  ]

  const StructuralTags: set<string> := {"g:Vertex", "g:VertexProperty", "g:Edge", "g:Property", "g:Path"}

  const StructuralDeserializers: DecodeTable := map[
    "g:Vertex" := DseVertexDeserializer,
    "g:VertexProperty" := DseVertexPropertyDeserializer,
    "g:Edge" := DseEdgeDeserializer,
    "g:Property" := DsePropertyDeserializer,
    "g:Path" := DsePathDeserializer
  ]

  /** `deserializers.copy()` updated with the structural handlers. */
  const DseDeserializers: DecodeTable := Deserializers + StructuralDeserializers

  /** The library routines the handlers delegate to, whose rules are not
      part of this model: `Decimal(v)`, `isodate.parse_duration(v)` and the
      `from_wkt` parsers of the geometry types. */
  datatype Library = Library(
    decimal: Value -> Result<Value>,
    duration: Value -> Result<Value>,
    point: Value -> Result<Value>,
    lineString: Value -> Result<Value>,
    polygon: Value -> Result<Value>)

  /** The `dictify` of the handlers that wrap a library-rendered string:
      `str(v)` of a Decimal or a geometry, `duration_isoformat(v)`. */
  function TextDictify(h: Handler, text: string): (r: Json)
    requires h.BigDecimalIO? || h.DurationIO? || h.PointIO? || h.LineStringIO? || h.PolygonIO?
    ensures PayloadOf(r) == Some(JStr(text))
    ensures TagOf(r).Some? && TagOf(r).value in Deserializers && Deserializers[TagOf(r).value] == h
  {
    match h
    case BigDecimalIO =>
      assert "gx" + ":" + "BigDecimal" == "gx:BigDecimal";
      GraphSONLookup();
      TypedValue("BigDecimal", JStr(text), "gx")
    case DurationIO =>
      assert "gx" + ":" + "Duration" == "gx:Duration";
      GraphSONLookup();
      TypedValue("Duration", JStr(text), "gx")
    case PointIO =>
      assert "dse" + ":" + "Point" == "dse:Point";
      DseLookup();
      TypedValue("Point", JStr(text), "dse")
    case LineStringIO =>
      assert "dse" + ":" + "LineString" == "dse:LineString";
      DseLookup();
      TypedValue("LineString", JStr(text), "dse")
    case PolygonIO =>
      assert "dse" + ":" + "Polygon" == "dse:Polygon";
      DseLookup();
      TypedValue("Polygon", JStr(text), "dse")
  }

  /** The handler's `objectify` applied to a payload. */
  function Objectify(h: Handler, p: Json, reader: Reader, lib: Library): Result<Value>
    requires HasObjectify(h)
  {
    match h
    case Int16Deserializer => Ok(PassthroughObjectify(p))
    case Int64Deserializer => Ok(PassthroughObjectify(p))
    case UUIDIO => UuidObjectify(p)
    case BigDecimalIO => lib.decimal(Raw(p))
    case InstantIO => InstantObjectify(p)
    case DurationIO => lib.duration(Raw(p))
    case BlobIO => BlobObjectify(p)
    case PointIO => lib.point(Raw(p))
    case LineStringIO => lib.lineString(Raw(p))
    case PolygonIO => lib.polygon(Raw(p))
    case StringDeserializer => StringObjectify(p)
    case DseVertexDeserializer =>
      var v :- DecodeVertex(p, reader);
      Ok(VVertex(v))
    case DseVertexPropertyDeserializer =>
      var v :- DecodeVertexProperty(p, reader);
      Ok(VVertexProperty(v))
    case DseEdgeDeserializer =>
      var e :- DecodeEdge(p, reader);
      Ok(VEdge(e))
    case DsePropertyDeserializer =>
      var s :- DecodeProperty(p, reader);
      Ok(VSet(s))
    case DsePathDeserializer =>
      var path :- DecodePath(p, reader);
      Ok(VPath(path))
  }

  /** Every handler a decode table holds can decode. */
  predicate Decodes(table: map<string, Handler>)
  {
    forall t :: t in table ==> HasObjectify(table[t])
  }

  /** Decoding a tagged record through a table: the handler registered for
      the tag decodes the payload, and a tag with no handler is refused. */
  function DecodeTagged(table: DecodeTable, tag: string, p: Json, reader: Reader, lib: Library): (r: Result<Value>)
    ensures tag !in table ==> r == Err(UnsupportedType(tag))
    ensures tag in table ==> r == Objectify(table[tag], p, reader, lib)
  {
    if tag in table then Objectify(table[tag], p, reader, lib) else Err(UnsupportedType(tag))
  }

  /** Decoding what a `dictify` emitted, through a table. */
  function DecodeRecord(table: DecodeTable, record: Json, reader: Reader, lib: Library): (r: Result<Value>)
    requires TagOf(record).Some? && PayloadOf(record).Some?
  {
    DecodeTagged(table, TagOf(record).value, PayloadOf(record).value, reader, lib)
  }

  /** The tag each decoding class is registered under (the first one, for
      `Int64Deserializer`, which serves two). */
  function RegisteredTag(h: Handler): string
    requires HasObjectify(h)
  {
    match h
    case Int16Deserializer => "gx:Int16"
    case Int64Deserializer => "g:Int64"
    case UUIDIO => "g:UUID"
    case BigDecimalIO => "gx:BigDecimal"
    case InstantIO => "gx:Instant"
    case DurationIO => "gx:Duration"
    case BlobIO => "dse:Blob"
    case PointIO => "dse:Point"
    case LineStringIO => "dse:LineString"
    case PolygonIO => "dse:Polygon"
    case StringDeserializer => "gx:InetAddress"
    case DseVertexDeserializer => "g:Vertex"
    case DseVertexPropertyDeserializer => "g:VertexProperty"
    case DseEdgeDeserializer => "g:Edge"
    case DsePropertyDeserializer => "g:Property"
    case DsePathDeserializer => "g:Path"
  }

  predicate IsStructural(h: Handler)
  {
    h.DseVertexDeserializer? || h.DseVertexPropertyDeserializer? || h.DseEdgeDeserializer?
    || h.DsePropertyDeserializer? || h.DsePathDeserializer?
  }

  /** The encode table holds only handlers that encode. Every class that
      decodes is registered: the scalar ones in the base table, the
      structural ones in the extended table (which keeps the base entries,
      by `DseExtendsBase`). */
  lemma TablesWellFormed()
    ensures forall t :: t in Serializers ==> HasDictify(Serializers[t])
    ensures forall h :: HasObjectify(h) && !IsStructural(h) ==>
      RegisteredTag(h) in Deserializers && Deserializers[RegisteredTag(h)] == h
    ensures forall h :: IsStructural(h) ==>
      RegisteredTag(h) in DseDeserializers && DseDeserializers[RegisteredTag(h)] == h
  {
    SerializersEncode();
    BaseRegistered();
    StructuralRegistered();
  }

  lemma SerializersEncode()
    ensures forall t :: t in Serializers ==> HasDictify(Serializers[t])
  {
  }

  lemma BaseRegistered()
    ensures forall h :: HasObjectify(h) && !IsStructural(h) ==>
      RegisteredTag(h) in Deserializers && Deserializers[RegisteredTag(h)] == h
  {
    BaseLookup();
  }

  lemma BaseLookup()
    ensures Deserializers["gx:Int16"] == Int16Deserializer
    ensures Deserializers["g:Int64"] == Int64Deserializer
    ensures Deserializers["gx:BigInteger"] == Int64Deserializer
    ensures Deserializers["g:UUID"] == UUIDIO
    ensures Deserializers["gx:BigDecimal"] == BigDecimalIO
    ensures Deserializers["gx:Instant"] == InstantIO
    ensures Deserializers["gx:Duration"] == DurationIO
    ensures Deserializers["dse:Blob"] == BlobIO
    ensures Deserializers["dse:Point"] == PointIO
    ensures Deserializers["dse:LineString"] == LineStringIO
    ensures Deserializers["dse:Polygon"] == PolygonIO
    ensures Deserializers["gx:InetAddress"] == StringDeserializer
  {
    GraphSONLookup();
    DseLookup();
    BigIntegerLookup();
  }

  lemma BigIntegerLookup()
    ensures Deserializers["gx:BigInteger"] == Int64Deserializer
  {
  }

  lemma GraphSONLookup()
    ensures Deserializers["gx:Int16"] == Int16Deserializer
    ensures Deserializers["g:Int64"] == Int64Deserializer
    ensures Deserializers["g:UUID"] == UUIDIO
    ensures Deserializers["gx:BigDecimal"] == BigDecimalIO
    ensures Deserializers["gx:Instant"] == InstantIO
    ensures Deserializers["gx:Duration"] == DurationIO
    ensures Deserializers["gx:InetAddress"] == StringDeserializer
  {
  }

  lemma DseLookup()
    ensures Deserializers["dse:Blob"] == BlobIO
    ensures Deserializers["dse:Point"] == PointIO
    ensures Deserializers["dse:LineString"] == LineStringIO
    ensures Deserializers["dse:Polygon"] == PolygonIO
  {
  }

  lemma StructuralRegistered()
    ensures forall h :: IsStructural(h) ==>
      RegisteredTag(h) in DseDeserializers && DseDeserializers[RegisteredTag(h)] == h
  {
    StructuralLookup();
  }

  /** The extended table agrees with the base table on every base tag and
      adds exactly the five graph-structure tags. */
  lemma DseExtendsBase()
    ensures forall t :: t in Deserializers ==> t in DseDeserializers && DseDeserializers[t] == Deserializers[t]
    ensures DseDeserializers.Keys == Deserializers.Keys + StructuralTags
    ensures Deserializers.Keys !! StructuralTags
  {
    StructuralTagsNotBase();
    assert StructuralDeserializers.Keys == StructuralTags;
    forall t | t in Deserializers
      ensures t in DseDeserializers && DseDeserializers[t] == Deserializers[t]
    {
      assert t !in StructuralDeserializers;
    }
  }

  lemma StructuralTagsNotBase()
    ensures Deserializers.Keys !! StructuralTags
  {
    assert "g:Vertex" !in Deserializers;
    assert "g:VertexProperty" !in Deserializers;
    assert "g:Edge" !in Deserializers;
    assert "g:Property" !in Deserializers;
    assert "g:Path" !in Deserializers;
  }

  /** Each class with both `dictify` and `objectify` is registered for
      decoding under the tag its `dictify` emits. */
  lemma DictifyTagsRegistered(h: Handler)
    requires HasDictify(h) && HasObjectify(h)
    ensures h.UUIDIO? ==> forall n :: Uuid.IsUuid(n) ==> Deserializers[TagOf(UuidDictify(n)).value] == h
    ensures h.InstantIO? ==> forall x :: ValidTemporal(x) ==> Deserializers[TagOf(InstantDictify(x)).value] == h
    ensures h.BlobIO? ==> forall bs :: Deserializers[TagOf(BlobDictify(bs)).value] == h
    ensures !(h.UUIDIO? || h.InstantIO? || h.BlobIO?) ==> forall s :: Deserializers[TagOf(TextDictify(h, s)).value] == h
  {
  }

  /** `g:Int64` and `gx:BigInteger` share the pass-through decoder, and
      so does `gx:Int16`: the payload comes back as parsed. */
  lemma PassthroughTags(p: Json, reader: Reader, lib: Library)
    ensures Deserializers["g:Int64"] == Deserializers["gx:BigInteger"] == Int64Deserializer
    ensures DecodeTagged(Deserializers, "g:Int64", p, reader, lib) == Ok(Raw(p))
    ensures DecodeTagged(Deserializers, "gx:BigInteger", p, reader, lib) == Ok(Raw(p))
    ensures DecodeTagged(Deserializers, "gx:Int16", p, reader, lib) == Ok(Raw(p))
    ensures p.JStr? ==> DecodeTagged(Deserializers, "gx:InetAddress", p, reader, lib) == Ok(VStr(p.s))
  {
  }

  /** `g:Int32` is in neither decode table, so an encoded int at most
      2**32 - 1 is not decodable here, while a `g:Int64` one comes back. */
  lemma IntegerThroughTables(x: PyInteger, reader: Reader, lib: Library)
    requires !x.PyBool?
    ensures "g:Int32" !in Deserializers && "g:Int32" !in DseDeserializers
    ensures TagOf(IntegerDictify(x)) == Some("g:Int64") ==>
      DecodeRecord(Deserializers, IntegerDictify(x), reader, lib) == Ok(VInt(x.n))
    ensures TagOf(IntegerDictify(x)) == Some("g:Int64") ==>
      DecodeRecord(DseDeserializers, IntegerDictify(x), reader, lib) == Ok(VInt(x.n))
    ensures TagOf(IntegerDictify(x)) == Some("g:Int32") ==>
      DecodeRecord(Deserializers, IntegerDictify(x), reader, lib) == Err(UnsupportedType("g:Int32"))
    ensures TagOf(IntegerDictify(x)) == Some("g:Int32") ==>
      DecodeRecord(DseDeserializers, IntegerDictify(x), reader, lib) == Err(UnsupportedType("g:Int32"))
  {
    var r := IntegerDictify(x);
    var p := PayloadOf(r).value;
    IntegerLookup(p, reader, lib);
    if TagOf(r) == Some("g:Int64") {
      assert DecodeRecord(Deserializers, r, reader, lib) == DecodeTagged(Deserializers, "g:Int64", p, reader, lib);
      assert DecodeRecord(DseDeserializers, r, reader, lib) == DecodeTagged(DseDeserializers, "g:Int64", p, reader, lib);
      assert Raw(p) == VInt(x.n);
    } else if TagOf(r) == Some("g:Int32") {
      assert DecodeRecord(Deserializers, r, reader, lib) == DecodeTagged(Deserializers, "g:Int32", p, reader, lib);
      assert DecodeRecord(DseDeserializers, r, reader, lib) == DecodeTagged(DseDeserializers, "g:Int32", p, reader, lib);
    }
  }

  lemma IntegerLookup(p: Json, reader: Reader, lib: Library)
    ensures "g:Int32" !in Deserializers && "g:Int32" !in DseDeserializers
    ensures DecodeTagged(DseDeserializers, "g:Int64", p, reader, lib) == Ok(Raw(p))
    ensures DecodeTagged(DseDeserializers, "g:Int32", p, reader, lib) == Err(UnsupportedType("g:Int32"))
  {
    Int32Absent();
    assert Deserializers["g:Int64"] == Int64Deserializer;
    DecodedByBoth("g:Int64", p, reader, lib);
  }

  lemma Int32Absent()
    ensures "g:Int32" !in Deserializers && "g:Int32" !in DseDeserializers
  {
    assert "g:Int32" !in StructuralDeserializers;
  }

  /** Encoding a UUID and decoding it through either table gives it back. */
  lemma UuidThroughTables(n: nat, reader: Reader, lib: Library)
    requires Uuid.IsUuid(n)
    ensures DecodeRecord(Deserializers, UuidDictify(n), reader, lib) == Ok(VUuid(n))
    ensures DecodeRecord(DseDeserializers, UuidDictify(n), reader, lib) == Ok(VUuid(n))
  {
    UuidTag(PayloadOf(UuidDictify(n)).value, reader, lib);
    UuidRoundTrip(n);
  }

  /** Encoding bytes and decoding them through either table gives them back. */
  lemma BlobThroughTables(bs: seq<Base64.byte>, reader: Reader, lib: Library)
    ensures DecodeRecord(Deserializers, BlobDictify(bs), reader, lib) == Ok(VBytes(bs))
    ensures DecodeRecord(DseDeserializers, BlobDictify(bs), reader, lib) == Ok(VBytes(bs))
  {
    BlobTag(PayloadOf(BlobDictify(bs)).value, reader, lib);
    BlobRoundTrip(bs);
  }

  /** Encoding a date or date-time and decoding it through either table
      gives back the normalised date-time. */
  lemma InstantThroughTables(x: Temporal, reader: Reader, lib: Library)
    requires ValidTemporal(x)
    ensures DecodeRecord(Deserializers, InstantDictify(x), reader, lib) == Ok(VDateTime(InstantNormalize(x)))
    ensures DecodeRecord(DseDeserializers, InstantDictify(x), reader, lib) == Ok(VDateTime(InstantNormalize(x)))
  {
    InstantTag(PayloadOf(InstantDictify(x)).value, reader, lib);
    InstantRoundTrip(x);
  }

  lemma UuidTag(p: Json, reader: Reader, lib: Library)
    ensures DecodeTagged(Deserializers, "g:UUID", p, reader, lib) == UuidObjectify(p)
    ensures DecodeTagged(DseDeserializers, "g:UUID", p, reader, lib) == UuidObjectify(p)
  {
    GraphSONLookup();
    DecodedByBoth("g:UUID", p, reader, lib);
    UuidHandler(p, reader, lib);
  }

  lemma UuidHandler(p: Json, reader: Reader, lib: Library)
    ensures Objectify(UUIDIO, p, reader, lib) == UuidObjectify(p)
  {
  }

  lemma BlobTag(p: Json, reader: Reader, lib: Library)
    ensures DecodeTagged(Deserializers, "dse:Blob", p, reader, lib) == BlobObjectify(p)
    ensures DecodeTagged(DseDeserializers, "dse:Blob", p, reader, lib) == BlobObjectify(p)
  {
    DseLookup();
    DecodedByBoth("dse:Blob", p, reader, lib);
    BlobHandler(p, reader, lib);
  }

  lemma BlobHandler(p: Json, reader: Reader, lib: Library)
    ensures Objectify(BlobIO, p, reader, lib) == BlobObjectify(p)
  {
  }

  lemma InstantTag(p: Json, reader: Reader, lib: Library)
    ensures DecodeTagged(Deserializers, "gx:Instant", p, reader, lib) == InstantObjectify(p)
    ensures DecodeTagged(DseDeserializers, "gx:Instant", p, reader, lib) == InstantObjectify(p)
  {
    GraphSONLookup();
    DecodedByBoth("gx:Instant", p, reader, lib);
    InstantHandler(p, reader, lib);
  }

  lemma InstantHandler(p: Json, reader: Reader, lib: Library)
    ensures Objectify(InstantIO, p, reader, lib) == InstantObjectify(p)
  {
  }

  /** A base tag decodes the same way through both tables. */
  lemma DecodedByBoth(t: string, p: Json, reader: Reader, lib: Library)
    requires t in Deserializers
    ensures DecodeTagged(Deserializers, t, p, reader, lib) == Objectify(Deserializers[t], p, reader, lib)
    ensures DecodeTagged(DseDeserializers, t, p, reader, lib) == Objectify(Deserializers[t], p, reader, lib)
  {
    DseExtendsBase();
  }

  /** The base table refuses the graph-structure tags. */
  lemma StructuralTagsRefusedByBase(p: Json, reader: Reader, lib: Library)
    ensures forall t :: t in StructuralTags ==> DecodeTagged(Deserializers, t, p, reader, lib) == Err(UnsupportedType(t))
  {
    DseExtendsBase();
  }

  /** The extended table hands each graph-structure tag to its decoder. */
  lemma StructuralTagsDecoded(p: Json, reader: Reader, lib: Library)
    ensures Wraps(DecodeTagged(DseDeserializers, "g:Vertex", p, reader, lib), DecodeVertex(p, reader), v => VVertex(v))
    ensures Wraps(DecodeTagged(DseDeserializers, "g:VertexProperty", p, reader, lib), DecodeVertexProperty(p, reader), v => VVertexProperty(v))
    ensures Wraps(DecodeTagged(DseDeserializers, "g:Edge", p, reader, lib), DecodeEdge(p, reader), e => VEdge(e))
    ensures Wraps(DecodeTagged(DseDeserializers, "g:Property", p, reader, lib), DecodeProperty(p, reader), s => VSet(s))
    ensures Wraps(DecodeTagged(DseDeserializers, "g:Path", p, reader, lib), DecodePath(p, reader), path => VPath(path))
  {
    StructuralLookup();
    StructuralObjectify(p, reader, lib);
  }

  lemma StructuralObjectify(p: Json, reader: Reader, lib: Library)
    ensures Wraps(Objectify(DseVertexDeserializer, p, reader, lib), DecodeVertex(p, reader), v => VVertex(v))
    ensures Wraps(Objectify(DseVertexPropertyDeserializer, p, reader, lib), DecodeVertexProperty(p, reader), v => VVertexProperty(v))
    ensures Wraps(Objectify(DseEdgeDeserializer, p, reader, lib), DecodeEdge(p, reader), e => VEdge(e))
    ensures Wraps(Objectify(DsePropertyDeserializer, p, reader, lib), DecodeProperty(p, reader), s => VSet(s))
    ensures Wraps(Objectify(DsePathDeserializer, p, reader, lib), DecodePath(p, reader), path => VPath(path))
  {
    VertexObjectify(p, reader, lib);
    VertexPropertyObjectify(p, reader, lib);
    EdgeObjectify(p, reader, lib);
    PropertyObjectify(p, reader, lib);
    PathObjectify(p, reader, lib);
  }

  lemma VertexObjectify(p: Json, reader: Reader, lib: Library)
    ensures Wraps(Objectify(DseVertexDeserializer, p, reader, lib), DecodeVertex(p, reader), v => VVertex(v))
  {
    var d := DecodeVertex(p, reader);
    if d.Ok? {
      assert Objectify(DseVertexDeserializer, p, reader, lib) == Ok(VVertex(d.value));
    } else {
      assert Objectify(DseVertexDeserializer, p, reader, lib) == Err(d.error);
    }
  }

  lemma VertexPropertyObjectify(p: Json, reader: Reader, lib: Library)
    ensures Wraps(Objectify(DseVertexPropertyDeserializer, p, reader, lib), DecodeVertexProperty(p, reader), v => VVertexProperty(v))
  {
    var d := DecodeVertexProperty(p, reader);
    if d.Ok? {
      assert Objectify(DseVertexPropertyDeserializer, p, reader, lib) == Ok(VVertexProperty(d.value));
    } else {
      assert Objectify(DseVertexPropertyDeserializer, p, reader, lib) == Err(d.error);
    }
  }

  lemma EdgeObjectify(p: Json, reader: Reader, lib: Library)
    ensures Wraps(Objectify(DseEdgeDeserializer, p, reader, lib), DecodeEdge(p, reader), e => VEdge(e))
  {
    var d := DecodeEdge(p, reader);
    if d.Ok? {
      assert Objectify(DseEdgeDeserializer, p, reader, lib) == Ok(VEdge(d.value));
    } else {
      assert Objectify(DseEdgeDeserializer, p, reader, lib) == Err(d.error);
    }
  }

  lemma PropertyObjectify(p: Json, reader: Reader, lib: Library)
    ensures Wraps(Objectify(DsePropertyDeserializer, p, reader, lib), DecodeProperty(p, reader), s => VSet(s))
  {
    var d := DecodeProperty(p, reader);
    if d.Ok? {
      assert Objectify(DsePropertyDeserializer, p, reader, lib) == Ok(VSet(d.value));
    } else {
      assert Objectify(DsePropertyDeserializer, p, reader, lib) == Err(d.error);
    }
  }

  lemma PathObjectify(p: Json, reader: Reader, lib: Library)
    ensures Wraps(Objectify(DsePathDeserializer, p, reader, lib), DecodePath(p, reader), path => VPath(path))
  {
    var d := DecodePath(p, reader);
    if d.Ok? {
      assert Objectify(DsePathDeserializer, p, reader, lib) == Ok(VPath(d.value));
    } else {
      assert Objectify(DsePathDeserializer, p, reader, lib) == Err(d.error);
    }
  }

  lemma StructuralLookup()
    ensures StructuralTags <= DseDeserializers.Keys
    ensures DseDeserializers["g:Vertex"] == DseVertexDeserializer
    ensures DseDeserializers["g:VertexProperty"] == DseVertexPropertyDeserializer
    ensures DseDeserializers["g:Edge"] == DseEdgeDeserializer
    ensures DseDeserializers["g:Property"] == DsePropertyDeserializer
    ensures DseDeserializers["g:Path"] == DsePathDeserializer
  {
    assert StructuralDeserializers.Keys == StructuralTags;
    assert StructuralDeserializers["g:Vertex"] == DseVertexDeserializer;
    assert StructuralDeserializers["g:VertexProperty"] == DseVertexPropertyDeserializer;
    assert StructuralDeserializers["g:Edge"] == DseEdgeDeserializer;
    assert StructuralDeserializers["g:Property"] == DsePropertyDeserializer;
    assert StructuralDeserializers["g:Path"] == DsePathDeserializer;
  }
}
