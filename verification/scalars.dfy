/** The scalar handlers of the codec: the integer tie-break on encode, the
    pass-through decoders, and the UUID, instant and blob codecs. Each
    `...Dictify` builds the tagged record the handler's `dictify` returns;
    each `...Objectify` is the handler's `objectify` on the `@value`
    payload. */
module Scalars {
  import opened Results
  import opened Digits
  import opened Calendar
  import opened Json
  import opened Values
  import Base64
  import IsoTime
  import Uuid

  // IntegerSerializer

  /** The largest value left as a plain `int` on encode: 2**32 - 1 (the
      name says 32-bit, but the bound is the unsigned one). */
  const MaxInt32: int := 0x1_0000_0000 - 1

  /** A Python integer by its runtime type: `bool`, plain `int`, or the
      `long` subclass of `int` that gremlin's statics module defines. */
  datatype PyInteger = PyBool(b: bool) | PyInt(n: int) | PyLong(n: int)

  /** The conversion `dictify` applies first: a plain int above the bound
      becomes a `long`. A bool's type is not `int`, so it is left alone. */
  function Widen(x: PyInteger): (y: PyInteger)
    ensures y.PyBool? <==> x.PyBool?
    ensures y.PyLong? <==> x.PyLong? || (x.PyInt? && x.n > MaxInt32)
    ensures !x.PyBool? ==> y.n == x.n
    ensures !(x.PyInt? && x.n > MaxInt32) ==> y == x
  {
    if x.PyInt? && x.n > MaxInt32 then PyLong(x.n) else x
  }

  /** `IntegerSerializer.dictify`: a bool is returned unwrapped; every
      other integer becomes `g:Int64` when it is a `long` or exceeds
      2**32 - 1, and `g:Int32` otherwise, negatives included. */
  function IntegerDictify(x: PyInteger): (r: Json)
    ensures r.JBool? <==> x.PyBool?
    ensures x.PyBool? ==> r == JBool(x.b)
    ensures !x.PyBool? ==> PayloadOf(r) == Some(JInt(x.n))
    ensures !x.PyBool? ==> (TagOf(r) == Some("g:Int64") <==> x.PyLong? || x.n > MaxInt32)
    ensures !x.PyBool? ==> (TagOf(r) == Some("g:Int32") <==> x.PyInt? && x.n <= MaxInt32)
  {
    match Widen(x)
    case PyBool(b) => JBool(b)
    case PyLong(n) =>
      assert "g" + ":" + "Int64" == "g:Int64";
      TypedValue("Int64", JInt(n))
    case PyInt(n) =>
      assert "g" + ":" + "Int32" == "g:Int32";
      TypedValue("Int32", JInt(n))
  }

  /** The tie-break at its edges: 2**31 and 2**32 - 1 stay `g:Int32`, the
      first value above is `g:Int64`, and a large negative stays `g:Int32`. */
  lemma IntegerTieBreakEdges()
    ensures TagOf(IntegerDictify(PyInt(0x8000_0000))) == Some("g:Int32")
    ensures TagOf(IntegerDictify(PyInt(0xFFFF_FFFF))) == Some("g:Int32")
    ensures TagOf(IntegerDictify(PyInt(0x1_0000_0000))) == Some("g:Int64")
    ensures TagOf(IntegerDictify(PyInt(-0x1_0000_0000_0000))) == Some("g:Int32")
    ensures TagOf(IntegerDictify(PyLong(1))) == Some("g:Int64")
    ensures IntegerDictify(PyBool(true)) == JBool(true)
  {
  }

  // Int16Deserializer, Int64Deserializer (Python 3), StringDeserializer

  /** The payload as the Python object it was parsed to, unchanged. */
  function PassthroughObjectify(p: Json): (v: Value)
    ensures p.JInt? ==> v == VInt(p.i)
    ensures p.JStr? ==> v == VStr(p.s)
  {
    Raw(p)
  }

  /** `str(v)` of a JSON scalar payload (`six.text_type`). */
  function StringObjectify(p: Json): (r: Result<Value>)
    ensures p.JStr? ==> r == Ok(VStr(p.s))
    ensures p.JInt? ==> r.Ok? && r.value.VStr? && IsIntText(p.i, r.value.s)
    ensures r.Ok? <==> !(p.JArr? || p.JObj?)
  {
    match p
    case JStr(s) => Ok(VStr(s))
    case JInt(i) => Ok(VStr(IntText(i)))
    case JBool(b) => Ok(VStr(if b then "True" else "False"))
    case JNull => Ok(VStr("None"))
    case _ => Err(Unmodelled("str() of a list or dict"))
  }

  // UUIDIO

  function UuidDictify(n: nat): (r: Json)
    requires Uuid.IsUuid(n)
    ensures TagOf(r) == Some("g:UUID")
    ensures PayloadOf(r) == Some(JStr(Uuid.UuidText(n)))
  {
    assert "g" + ":" + "UUID" == "g:UUID";
    TypedValue("UUID", JStr(Uuid.UuidText(n)))
  }

  function UuidObjectify(p: Json): (r: Result<Value>)
    ensures !p.JStr? ==> r == Err(NotAString)
    ensures r.Ok? ==> r.value.VUuid? && Uuid.IsUuid(r.value.uuid)
  {
    if p.JStr? then
      var n :- Uuid.ParseUuid(p.s);
      Ok(VUuid(n))
    else
      Err(NotAString)
  }

  /** Decoding what `UuidDictify` emits gives back the same UUID. */
  lemma UuidRoundTrip(n: nat)
    requires Uuid.IsUuid(n)
    ensures UuidObjectify(PayloadOf(UuidDictify(n)).value) == Ok(VUuid(n))
  {
    Uuid.ParseUuidText(n);
  }

  // InstantIO

  /** What `InstantIO.dictify` accepts: a `datetime` or a plain `date`. */
  datatype Temporal = AtDateTime(dateTime: DateTime) | OnDate(date: Date)

  predicate ValidTemporal(x: Temporal)
  {
    match x
    case AtDateTime(t) => ValidDateTime(t)
    case OnDate(d) => ValidDate(d)
  }

  /** The `datetime` `dictify` formats. From a datetime it is rebuilt from
      the first seven fields of `utctimetuple()`, so the seventh field,
      `tm_wday`, lands in the microsecond slot and the input's own
      microseconds are dropped. A date becomes midnight of that day. */
  function InstantNormalize(x: Temporal): (t: DateTime)
    requires ValidTemporal(x)
    ensures ValidDateTime(t)
    ensures x.AtDateTime? ==> t == x.dateTime.(microsecond := Weekday(x.dateTime.DateOf()))
    ensures x.OnDate? ==> t == DateTime(x.date.year, x.date.month, x.date.day, 0, 0, 0, 0)
  {
    match x
    case AtDateTime(t) =>
      DateTime(t.year, t.month, t.day, t.hour, t.minute, t.second, Weekday(t.DateOf()))
    case OnDate(d) =>
      DateTime(d.year, d.month, d.day, 0, 0, 0, 0)
  }

  /** The `@value` text: `isoformat()` of the normalised value followed by
      a literal `Z`, never a numeric offset. A `.00000N` fraction appears
      exactly when the weekday put in the microsecond slot is not Monday. */
  function InstantText(x: Temporal): (s: string)
    requires ValidTemporal(x)
    ensures |s| > 0 && s[|s| - 1] == 'Z'
    ensures forall i :: 0 <= i < |s| ==> s[i] != '+'
    ensures x.OnDate? ==> |s| == 20 && s[10..] == "T00:00:00Z"
    ensures x.AtDateTime? ==>
      && ('.' in s <==> Weekday(x.dateTime.DateOf()) != 0)
      && |s| == if Weekday(x.dateTime.DateOf()) == 0 then 20 else 27
  {
    var t := InstantNormalize(x);
    var iso := IsoTime.IsoFormat(t);
    assert '.' in iso + "Z" <==> '.' in iso;
    if x.OnDate? then
      IsoTime.MidnightText(t);
      assert (iso + "Z")[10..] == iso[10..] + "Z";
      iso + "Z"
    else
      iso + "Z"
  }

  function InstantDictify(x: Temporal): (r: Json)
    requires ValidTemporal(x)
    ensures TagOf(r) == Some("gx:Instant")
    ensures PayloadOf(r) == Some(JStr(InstantText(x)))
  {
    assert "gx" + ":" + "Instant" == "gx:Instant";
    TypedValue("Instant", JStr(InstantText(x)), "gx")
  }

  function InstantObjectify(p: Json): (r: Result<Value>)
    ensures !p.JStr? ==> r == Err(NotAString)
    ensures r.Ok? ==> r.value.VDateTime? && ValidDateTime(r.value.dateTime)
    ensures p.JStr? && (|p.s| == 0 || p.s[|p.s| - 1] != 'Z') ==> r == Err(ParseError(p.s))
  {
    if p.JStr? then
      var t :- IsoTime.ParseInstant(p.s);
      Ok(VDateTime(t))
    else
      Err(NotAString)
  }

  /** The microseconds of a datetime never reach the wire. */
  lemma InstantIgnoresMicroseconds(t: DateTime, us: int)
    requires ValidDateTime(t) && 0 <= us < 1000000
    ensures InstantText(AtDateTime(t.(microsecond := us))) == InstantText(AtDateTime(t))
  {
  }

  /** Every text `dictify` emits is accepted and gives back year through
      second exactly; the microseconds come back as the weekday that was
      slotted in, and as zero for a date. */
  lemma InstantRoundTrip(x: Temporal)
    requires ValidTemporal(x)
    ensures InstantObjectify(PayloadOf(InstantDictify(x)).value) == Ok(VDateTime(InstantNormalize(x)))
  {
    IsoTime.ParseIsoFormat(InstantNormalize(x));
  }

  // BlobIO

  function BlobDictify(bs: seq<Base64.byte>): (r: Json)
    ensures TagOf(r) == Some("dse:Blob")
    ensures PayloadOf(r) == Some(JStr(Base64.Encode(bs)))
  {
    assert "dse" + ":" + "Blob" == "dse:Blob";
    TypedValue("Blob", JStr(Base64.Encode(bs)), "dse")
  }

  function BlobObjectify(p: Json): (r: Result<Value>)
    ensures !p.JStr? ==> r == Err(NotAString)
    ensures r.Ok? ==> r.value.VBytes? && |p.s| == 4 * ((|r.value.bytes| + 2) / 3)
  {
    if p.JStr? then
      var bs :- Base64.Decode(p.s);
      Ok(VBytes(bs))
    else
      Err(NotAString)
  }

  /** Decoding what `BlobDictify` emits gives back the same bytes. */
  lemma BlobRoundTrip(bs: seq<Base64.byte>)
    ensures BlobObjectify(PayloadOf(BlobDictify(bs)).value) == Ok(VBytes(bs))
  {
    Base64.RoundTrip(bs);
  }
}
