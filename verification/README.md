# GraphSON 2.0 codec of the DSE graph driver, modelled in Dafny

This project models the GraphSON 2.0 codec of `dse_graph/serializers.py`.
GraphSON is the tagged-JSON wire format of the DSE graph driver. Every typed
value travels as a record `{"@type": "<prefix>:<Name>", "@value": <payload>}`.
Each handler class has a `dictify`, which builds such a record from a Python
value, or an `objectify`, which turns a payload back into a Python value, or
both. Two tables pick the handler. `serializers` is keyed by native type.
`deserializers` is keyed by wire tag, and `dse_deserializers` adds the five
graph-structure tags to it.

The model is functional. JSON payloads are a `Json` datatype whose objects
are maps. Decoded values are a `Value` datatype. Handlers are pure functions
that return `Result`. The reader's recursive `toObject` is passed to the
structural decoders as a function `Json -> Result<Value>`. The tables are
immutable maps.

Modules, leaf first:

- `Results`: `Option`, `Result`, and the error kinds the handlers raise.
  `MapAll` is the ordered loop that stops at the first failure.
- `Digits`: fixed-width decimal and hexadecimal numerals, with round trips.
- `Calendar`: Python's proleptic Gregorian `date` and `datetime`, and the
  weekday numbering that starts at Monday = 0.
- `Json`: the JSON values, plus `TypedValue`, the record
  `GraphSONUtil.typedValue` builds.
- `Base64`: the encoding of section 4 of RFC 4648.
- `Values`: the decoded values and the `dse.graph` records `Vertex`,
  `VertexProperty`, `Edge` and `Path`.
- `Uuid`: the 8-4-4-4-12 text of section 3 of RFC 4122.
- `IsoTime`: `datetime.isoformat()` and the two `strptime` formats.
- `Scalars`: `IntegerSerializer`, the pass-through decoders, `UUIDIO`,
  `InstantIO` and `BlobIO`.
- `Structural`: the decoders for Vertex, VertexProperty, Edge, Property
  and Path.
- `Registry`: the three tables and the lookup by tag (`DecodeTagged`).
  `Objectify` maps each handler to its `objectify`. `DecodeRecord` decodes
  a record that a `dictify` emitted. The lemmas about these two carry their
  properties.

The model follows the code as written, including three behaviours that
look unintended:

- The integer bound is `2**32 - 1`, not `2**31 - 1`. So 2^31 and every
  negative plain `int` are tagged `g:Int32`.
- `InstantIO.dictify` rebuilds the datetime from `utctimetuple()[:7]`.
  That slice puts the weekday in the microsecond slot and drops the real
  microseconds. So the text carries `.00000N` on every day except Monday.
- An edge without a label is labelled `"vertex"`, and a `g:Property`
  payload decodes to the set `{key, value}`, not to a key/value pair.

Neither decode table has a `g:Int32` entry. So an `int` that encodes as
`g:Int32` cannot be decoded by these tables.

## Model

| member | source | states |
|---|---|---|
| Scalars.IntegerDictify | dse_graph/serializers.py:58-69 | a bool comes back as itself, never tagged. Any other integer is tagged `g:Int64` exactly when it is a `long` or exceeds 2^32 − 1, and `g:Int32` otherwise, negatives included. The payload is always the input number |
| Scalars.Widen | dse_graph/serializers.py:61-62 | a plain `int` above 2^32 − 1 becomes a `long` with the same value. Every other input, bool and `long` included, comes back unchanged |
| Scalars.IntegerTieBreakEdges | dse_graph/serializers.py:31-69 | 2^31 and 2^32 − 1 are `g:Int32`, 2^32 is `g:Int64`, a large negative is `g:Int32`, any `long` is `g:Int64`, and `True` stays a raw bool |
| Scalars.PassthroughObjectify | dse_graph/serializers.py:72-83 | the Int16/Int64 decoders give back the parsed payload unchanged, and a number stays the same number |
| Scalars.StringObjectify | dse_graph/serializers.py:179-182 | a string payload comes back unchanged. An integer payload becomes `str(i)`: a minus sign exactly when negative, then the digits of the magnitude with no leading zeros, reading back as the same number. Only list and dict payloads fail |
| Digits.IntTextUnique | dse_graph/serializers.py:179-182 | any text with the sign and digit layout of `str(i)` and no leading zeros is the text `IntText` writes, so `str(i)` is determined by those properties |
| Scalars.UuidDictify | dse_graph/serializers.py:86-89 | the record is tagged `g:UUID` and carries the canonical text of the value |
| Scalars.UuidObjectify | dse_graph/serializers.py:91-93 | a payload that is not a string fails. A success is a 128-bit UUID value |
| Scalars.UuidRoundTrip | dse_graph/serializers.py:86-93 | decoding the payload `dictify` emits gives back the same UUID |
| Uuid.UuidText | dse_graph/serializers.py:88-89 | the text has 36 characters, with hyphens at exactly positions 8, 13, 18 and 23 and lower-case hex digits elsewhere. Without the hyphens it is the 32-digit hex of the value |
| Uuid.ParseUuid | dse_graph/serializers.py:93 | an accepted text has the 8-4-4-4-12 layout and parses to a value below 2^128 |
| Uuid.ParseUuidText | dse_graph/serializers.py:86-93 | parsing the canonical text of a value gives back the value |
| Uuid.UuidTextOfParse | dse_graph/serializers.py:86-93 | a lower-case text that parses is the canonical text of the value it parses to |
| Calendar.Weekday | dse_graph/serializers.py:110 | the weekday that `utctimetuple` reports as `tm_wday` always lies in 0..6 |
| Calendar.WeekdayAdvances | dse_graph/serializers.py:110 | the weekday of the next day is one more, wrapping from Sunday (6) to Monday (0) |
| Calendar.NextDayOrdinal | dse_graph/serializers.py:110 | the day numbering behind the weekday has no gaps across month and year ends, leap years included |
| Calendar.FirstDayIsMonday | dse_graph/serializers.py:110 | 0001-01-01 is a Monday (weekday 0), which anchors the numbering |
| Scalars.InstantNormalize | dse_graph/serializers.py:109-112 | a datetime keeps year through second, and its microsecond slot gets the weekday. A date becomes midnight with no microseconds |
| Scalars.InstantText | dse_graph/serializers.py:113 | the text ends in a literal `Z` and never contains `+`. A date gives `…T00:00:00Z`. For a datetime, a `.` fraction appears exactly when the weekday is not Monday, making 27 characters instead of 20 |
| Scalars.InstantDictify | dse_graph/serializers.py:106-114 | the record is tagged `gx:Instant` and carries that text |
| Scalars.InstantObjectify | dse_graph/serializers.py:116-122 | a payload that is not a string fails, and so does a string whose last character is not `Z` (upper case only; see Left out). A success is a valid datetime |
| Scalars.InstantIgnoresMicroseconds | dse_graph/serializers.py:110 | two datetimes that differ only in microseconds encode to the same text |
| Scalars.InstantRoundTrip | dse_graph/serializers.py:106-122 | every text the encoder emits is accepted. Year through second come back exactly. The microseconds come back as the slotted weekday, or as 0 for a date |
| IsoTime.IsoFormat | dse_graph/serializers.py:113 | the text has 19 characters, or 26 when the microseconds are nonzero. It contains a `.` exactly when they are nonzero, and only digits and the separators `-T:.` |
| IsoTime.ParseWhole | dse_graph/serializers.py:121 | an accepted text has 20 characters ending in `Z`, and parses to zero microseconds |
| IsoTime.ParseFractional | dse_graph/serializers.py:119 | an accepted text has 22 to 27 characters, with `.` at position 19 and a final `Z` |
| IsoTime.ParseInstant | dse_graph/serializers.py:117-122 | the result is accepted exactly when one of the two formats accepts it. No text matches both formats, so the order of trial never changes the result. A success is a valid datetime read from a text ending in `Z` |
| IsoTime.ParseIsoFormat | dse_graph/serializers.py:113-122 | `isoformat()` followed by `Z` parses back to the same datetime: through the fractional format when there are microseconds, and the fallback otherwise |
| IsoTime.IsoFormatOfParse | dse_graph/serializers.py:117-122 | an accepted text in the canonical layout is exactly the `isoformat()`+`Z` of the value it parses to |
| IsoTime.FractionalInverse | dse_graph/serializers.py:117-119 | a 27-character text the fractional format accepts, with nonzero microseconds, is the `isoformat()`+`Z` of its value |
| IsoTime.WholeInverse | dse_graph/serializers.py:120-122 | every text the fallback format accepts is the `isoformat()`+`Z` of its value |
| IsoTime.MidnightText | dse_graph/serializers.py:112-113 | midnight with no microseconds is written with the time part `T00:00:00` |
| Base64.Encode | dse_graph/serializers.py:138 | the text uses only the base64 alphabet and `=`, and its length is 4·⌈n/3⌉ for n bytes |
| Base64.Decode | dse_graph/serializers.py:145 | an accepted text has a length that is a multiple of 4, namely 4·⌈n/3⌉ for the n bytes it yields |
| Base64.RoundTrip | dse_graph/serializers.py:135-146 | decoding the encoded text gives back the original bytes |
| Scalars.BlobDictify | dse_graph/serializers.py:135-141 | the record is tagged `dse:Blob` and carries the base64 text of the bytes |
| Scalars.BlobObjectify | dse_graph/serializers.py:143-146 | a payload that is not a string fails. Decoded bytes agree in length with the text |
| Scalars.BlobRoundTrip | dse_graph/serializers.py:135-146 | decoding the payload `dictify` emits gives back the same bytes |
| Structural.DecodeVertex | dse_graph/serializers.py:185-190 | a non-object payload and a missing `id` fail. A reader failure on `id`, and then on the properties, is returned unchanged. Success happens exactly when `id` is present and the reader accepts `id` and properties. The id and properties are what the reader made of them, and the label is `label` or else `"vertex"` |
| Structural.VertexExample | dse_graph/serializers.py:185-190 | the payload with id `g:Int32` 1, label "person" and `{}` properties decodes to that vertex. Without the label it is labelled "vertex" |
| Structural.DecodeVertexProperty | dse_graph/serializers.py:193-196 | a missing `label` (there is no default) or a missing `value` fails. A reader failure on `value`, and then on the properties, is returned unchanged. Success happens exactly when both fields are present and the reader accepts the value and properties. The label is the raw `label` |
| Structural.Endpoint | dse_graph/serializers.py:206-207 | an end-point vertex has the reader's id for `inV`/`outV`, the raw label, and no properties. A missing id field fails, and a reader failure on the id is returned unchanged. Once the id decodes, a missing label field fails |
| Structural.DecodeEdge | dse_graph/serializers.py:199-208 | a missing `id` fails. A success had all of `id`, `inV`, `inVLabel`, `outV` and `outVLabel` present. The label is `label` or else `"vertex"`, the type is `"edge"`, and the end points are built from `inV`/`inVLabel` and `outV`/`outVLabel`. With all fields present and the reader accepting, decoding succeeds. Which error a failing edge returns is stated by EdgeFailures |
| Structural.EdgeFailures | dse_graph/serializers.py:199-208 | an edge decodes exactly when all five fields are present and the reader accepts `id`, `properties`, `inV` and `outV`. Otherwise the first failure in argument order is returned unchanged: the reader's error on `id`, then on `properties`, then the `inV` end point's error, then the `outV` end point's error |
| Structural.DecodeProperty | dse_graph/serializers.py:211-214 | a missing `key` or `value` fails, and a reader failure on `value` is returned unchanged. A success is the set {raw key, reader(value)}, which has one element exactly when the two are equal. It fails exactly when a member is unhashable |
| Structural.Elements | dse_graph/serializers.py:222-225 | iterating a list gives its items, and iterating a string gives its characters in order, each as a one-character string. A scalar is not iterable |
| Structural.LabelSet | dse_graph/serializers.py:223 | `set(label)` holds exactly the raw items of a list, which must all be hashable (values compared structurally; see Left out). It holds the one-character strings of a string, or the keys of a dict. A scalar fails |
| Results.MapAll | dse_graph/serializers.py:222-225 | the loop succeeds exactly when every element succeeds. The output has the same length and order as the input. Otherwise the error is that of the first failing element |
| Structural.DecodePath | dse_graph/serializers.py:217-228 | a missing `labels` fails. On success there are as many label sets as `labels` entries, with `labels[i] = set(input.labels[i])`. There are as many objects as `objects` entries, with `objects[i] = reader(input.objects[i])` in order, so the decoded list is the one kept. A string `labels` or `objects` is read character by character, each as a one-character string. Which error a failing path returns is stated by PathFailures |
| Structural.PathFailures | dse_graph/serializers.py:217-228 | a path decodes exactly when every label converts and the reader accepts every object. A label failure is reported ahead of any object failure. When every label converts, the error is the reader's own error on the first object it refuses |
| Registry.TextDictify | dse_graph/serializers.py:96-176 | the BigDecimal, Duration, Point, LineString and Polygon encoders wrap the library's text under a tag that the base table maps back to the same handler |
| Registry.TablesWellFormed | dse_graph/serializers.py:231-276 | every handler in the encode table has a `dictify`. Every class with an `objectify` is registered: each scalar decoder in the base table under its tag, and each graph-structure decoder in the extended table |
| Registry.BaseLookup | dse_graph/serializers.py:254-267 | each base tag maps to its deserializer class: `gx:Int16`, `g:Int64` and `gx:BigInteger` to the pass-through decoders, `gx:InetAddress` to the string decoder |
| Registry.DseExtendsBase | dse_graph/serializers.py:269-276 | the extended table agrees with the base table on every base tag. It adds exactly `g:Vertex`, `g:VertexProperty`, `g:Edge`, `g:Property` and `g:Path`, none of which is a base tag |
| Registry.DictifyTagsRegistered | dse_graph/serializers.py:254-267 | each class with both `dictify` and `objectify` is registered in the base decode table under the tag its `dictify` emits, whatever the input |
| Registry.PassthroughTags | dse_graph/serializers.py:254-262 | `g:Int64` and `gx:BigInteger` share `Int64Deserializer`. With `gx:Int16` they return the payload unchanged, and `gx:InetAddress` returns a string payload unchanged |
| Registry.IntegerThroughTables | dse_graph/serializers.py:254-276 | `g:Int32` is in neither decode table. Through either table, an integer encoded as `g:Int64` decodes back to itself, and one encoded as `g:Int32` is refused as unsupported |
| Registry.UuidThroughTables | dse_graph/serializers.py:86-93 | a UUID encoded and then decoded through either table comes back unchanged |
| Registry.BlobThroughTables | dse_graph/serializers.py:135-146 | bytes encoded and then decoded through either table come back unchanged |
| Registry.InstantThroughTables | dse_graph/serializers.py:106-122 | a date or datetime encoded and then decoded through either table comes back as its normalised datetime |
| Registry.StructuralTagsRefusedByBase | dse_graph/serializers.py:254-267 | the base table refuses all five graph-structure tags as unsupported |
| Registry.StructuralTagsDecoded | dse_graph/serializers.py:269-276 | the extended table passes each structural tag's payload to its decoder. A failure comes back as it is, and a success is wrapped as the matching value |
| Registry.StructuralLookup | dse_graph/serializers.py:270-276 | each structural tag maps to its deserializer class |
| Values.RawHashable | dse_graph/serializers.py:214 | a raw JSON value can go in a Python set exactly when it is not a list or an object |

## Left out

- `dse_tinkerpop/__init__.py`: sessions, execution profiles, logging, the
  remote connection and asynchronous execution. These are driver I/O glue.
- The gremlin `GraphSONReader`/`GraphSONWriter` dispatch, which is not part
  of this model. The reader is a function parameter. `DecodeTagged` stands
  in for the lookup by tag and refuses unknown tags. On encode, choosing the
  table entry by runtime type is left to the writer. So is sending a `bool`
  to `IntegerSerializer`.
- `GraphSONUtil.typedValue` is modelled only as the two-key object it
  returns.
- `BigDecimalIO`, `DurationIO`, `PointIO`, `LineStringIO`, `PolygonIO`: the
  formatting and parsing belong to `Decimal`, `isodate` and `dse.util`. On
  encode the model takes the library's text as input (`TextDictify`). On
  decode it calls the `Library` functions it is given.
- Python 2 branches (`long(v)`, `buffer`). The model is Python 3 only.
- Timezone-aware datetimes. `utctimetuple` converts them to UTC, but the
  model treats every datetime as naive UTC.
- Floating-point JSON numbers.
- Python exception messages. Only the kind of error is modelled.
- IsoTime.ParseWhole: matches the literals `T` and `Z` in upper case only.
  `strptime` compiles its format case-insensitively, so it also accepts `t`
  and `z`; the model rejects such texts.
- IsoTime.ParseFractional: matches `T` and `Z` in upper case only, for the
  same reason as ParseWhole.
- Scalars.InstantObjectify: refuses a payload ending in a lower-case `z` or
  using a lower-case `t`, which the case-insensitive `strptime` accepts.
- IsoTime.ParseInstant: matches `T` and `Z` in upper case only (see
  ParseWhole), and reads canonical widths only. `strptime` also accepts
  one-digit month, day, hour, minute and second fields and non-ASCII
  digits. The model rejects such texts.
- Base64.Decode: accepts canonical layout only. `b64decode` first discards
  characters outside the alphabet and tolerates some padding irregularities.
  The model rejects such texts. Like binascii, it ignores the unused low
  bits of the last group.
- Uuid.ParseUuid: accepts the 8-4-4-4-12 layout only. `uuid.UUID` also
  accepts braces, a `urn:uuid:` prefix and hex without hyphens, all of which
  the model rejects.
- Scalars.StringObjectify: `str()` of a list or dict payload (Python's repr
  rules) is not modelled and yields an `Unmodelled` error.
- Structural.Elements: a dict given where the Path `labels` or `objects` list
  is expected is iterated by Python in key-insertion order. JSON objects
  here are unordered maps, so the model yields an `Unmodelled` error.
- Structural.DecodeProperty: Python equates `True` with `1` inside a set.
  The model's sets compare values structurally.
- Structural.LabelSet: Python's `set([1, True])` is `{1}`, because `True == 1`
  with equal hashes (likewise `0` and `False`). The model keeps both
  members, since its sets compare values structurally.
- Structural.DecodePath: its label sets inherit that difference from
  LabelSet.
- Values.Hashable: the `dse.graph` classes are not part of this model, and
  their instances are taken as hashable.
