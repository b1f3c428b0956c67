/** The base64 encoding of section 4 of RFC 4648, which `BlobIO` applies
    to binary payloads: every three bytes become four characters of a
    64-letter alphabet, and a final group of one or two bytes is padded
    with `=` to four characters. */
module Base64 {
  import opened Results

  type byte = x: int | 0 <= x < 256

  predicate IsBase64Char(c: char)
  {
    'A' <= c <= 'Z' || 'a' <= c <= 'z' || '0' <= c <= '9' || c == '+' || c == '/'
  }

  /** The alphabet of Table 1 of RFC 4648: A-Z, a-z, 0-9, '+', '/'. */
  function CharOf(v: nat): (c: char)
    requires v < 64
    ensures IsBase64Char(c)
  {
    if v < 26 then ('A' as int + v) as char
    else if v < 52 then ('a' as int + (v - 26)) as char
    else if v < 62 then ('0' as int + (v - 52)) as char
    else if v == 62 then '+'
    else '/'
  }

  function ValueOf(c: char): (v: nat)
    requires IsBase64Char(c)
    ensures v < 64 && CharOf(v) == c
  {
    if 'A' <= c <= 'Z' then c as int - 'A' as int
    else if 'a' <= c <= 'z' then c as int - 'a' as int + 26
    else if '0' <= c <= '9' then c as int - '0' as int + 52
    else if c == '+' then 62
    else 63
  }

  lemma ValueOfChar(v: nat)
    requires v < 64
    ensures ValueOf(CharOf(v)) == v
  {
  }

  /** Four characters for a full group of three bytes. */
  function EncodeGroup(b0: byte, b1: byte, b2: byte): string
  {
    [CharOf(b0 / 4), CharOf((b0 % 4) * 16 + b1 / 16), CharOf((b1 % 16) * 4 + b2 / 64), CharOf(b2 % 64)]
  }

  /** The final group when two bytes remain: three characters and one `=`. */
  function EncodeTwo(b0: byte, b1: byte): string
  {
    [CharOf(b0 / 4), CharOf((b0 % 4) * 16 + b1 / 16), CharOf((b1 % 16) * 4), '=']
  }

  /** The final group when one byte remains: two characters and `==`. */
  function EncodeOne(b0: byte): string
  {
    [CharOf(b0 / 4), CharOf((b0 % 4) * 16), '=', '=']
  }

  predicate IsEncodedChar(c: char)
  {
    IsBase64Char(c) || c == '='
  }

  /** `base64.b64encode`. */
  function Encode(bs: seq<byte>): (s: string)
    ensures |s| == 4 * ((|bs| + 2) / 3)
    ensures forall i :: 0 <= i < |s| ==> IsEncodedChar(s[i])
    decreases |bs|
  {
    if |bs| == 0 then []
    else if |bs| == 1 then EncodeOne(bs[0])
    else if |bs| == 2 then EncodeTwo(bs[0], bs[1])
    else
      var head, tail := EncodeGroup(bs[0], bs[1], bs[2]), Encode(bs[3..]);
      LengthStep(|bs|);
      assert forall i :: 0 <= i < |head| ==> IsEncodedChar(head[i]);
      head + tail
  }

  lemma LengthStep(n: int)
    requires n >= 3
    ensures 4 + 4 * ((n - 3 + 2) / 3) == 4 * ((n + 2) / 3)
  {
  }

  /** Three bytes from four alphabet characters. */
  function DecodeGroup(q: string): (r: Result<seq<byte>>)
    requires |q| == 4
    ensures r.Ok? ==> |r.value| == 3
  {
    if IsBase64Char(q[0]) && IsBase64Char(q[1]) && IsBase64Char(q[2]) && IsBase64Char(q[3]) then
      var v0, v1, v2, v3 := ValueOf(q[0]), ValueOf(q[1]), ValueOf(q[2]), ValueOf(q[3]);
      Ok([v0 * 4 + v1 / 16, (v1 % 16) * 16 + v2 / 4, (v2 % 4) * 64 + v3])
    else
      Err(ParseError(q))
  }

  /** The last group of a text: full, or padded with one or two `=`. Bits
      below the last whole byte are dropped, as binascii drops them. */
  function DecodeLast(q: string): (r: Result<seq<byte>>)
    requires |q| == 4
    ensures r.Ok? ==> 1 <= |r.value| <= 3
  {
    if q[2] == '=' && q[3] == '=' && IsBase64Char(q[0]) && IsBase64Char(q[1]) then
      var v0, v1 := ValueOf(q[0]), ValueOf(q[1]);
      Ok([v0 * 4 + v1 / 16])
    else if q[3] == '=' && IsBase64Char(q[0]) && IsBase64Char(q[1]) && IsBase64Char(q[2]) then
      var v0, v1, v2 := ValueOf(q[0]), ValueOf(q[1]), ValueOf(q[2]);
      Ok([v0 * 4 + v1 / 16, (v1 % 16) * 16 + v2 / 4])
    else
      DecodeGroup(q)
  }

  /** `base64.b64decode` on canonically laid-out text: a multiple of four
      characters, padding only at the end. */
  function Decode(s: string): (r: Result<seq<byte>>)
    ensures r.Ok? ==> |s| % 4 == 0
    ensures r.Ok? ==> |s| == 4 * ((|r.value| + 2) / 3)
    decreases |s|
  {
    if |s| == 0 then Ok([])
    else if |s| < 4 then Err(ParseError(s))
    else if |s| == 4 then
      var last := DecodeLast(s);
      assert last.Ok? ==> (|last.value| + 2) / 3 == 1;
      last
    else
      var head :- DecodeGroup(s[..4]);
      var tail :- Decode(s[4..]);
      LengthStep(|tail| + 3);
      Ok(head + tail)
  }

  lemma GroupRoundTrip(b0: byte, b1: byte, b2: byte)
    ensures DecodeGroup(EncodeGroup(b0, b1, b2)) == Ok([b0, b1, b2])
  {
    var x0, x1, x2, x3 := b0 / 4, (b0 % 4) * 16 + b1 / 16, (b1 % 16) * 4 + b2 / 64, b2 % 64;
    GroupArith(b0, b1, b2);
    ValueOfChar(x0); ValueOfChar(x1); ValueOfChar(x2); ValueOfChar(x3);
  }

  /** The 6-bit pieces of three bytes put back together give the bytes. */
  lemma GroupArith(b0: byte, b1: byte, b2: byte)
    ensures var x0, x1, x2, x3 := b0 / 4, (b0 % 4) * 16 + b1 / 16, (b1 % 16) * 4 + b2 / 64, b2 % 64;
      && x0 < 64 && x1 < 64 && x2 < 64 && x3 < 64
      && x0 * 4 + x1 / 16 == b0
      && (x1 % 16) * 16 + x2 / 4 == b1
      && (x2 % 4) * 64 + x3 == b2
  {
    var x1, x2 := (b0 % 4) * 16 + b1 / 16, (b1 % 16) * 4 + b2 / 64;
    assert x1 / 16 == b0 % 4 && x1 % 16 == b1 / 16;
    assert x2 / 4 == b1 % 16 && x2 % 4 == b2 / 64;
  }

  lemma OneRoundTrip(bs: seq<byte>)
    requires |bs| == 1
    ensures DecodeLast(Encode(bs)) == Ok(bs)
  {
    var b0 := bs[0];
    assert Encode(bs) == EncodeOne(b0);
    SingleRoundTrip(b0);
    assert [b0] == bs;
  }

  lemma SingleRoundTrip(b0: byte)
    ensures DecodeLast(EncodeOne(b0)) == Ok([b0])
  {
    var x0, x1 := b0 / 4, (b0 % 4) * 16;
    ValueOfChar(x0); ValueOfChar(x1);
    assert x1 / 16 == b0 % 4;
  }

  lemma PairRoundTrip(b0: byte, b1: byte)
    ensures DecodeLast(EncodeTwo(b0, b1)) == Ok([b0, b1])
  {
    var x0, x1, x2 := b0 / 4, (b0 % 4) * 16 + b1 / 16, (b1 % 16) * 4;
    ValueOfChar(x0); ValueOfChar(x1); ValueOfChar(x2);
    assert x1 / 16 == b0 % 4 && x1 % 16 == b1 / 16;
    assert x2 / 4 == b1 % 16;
  }

  lemma TwoRoundTrip(bs: seq<byte>)
    requires |bs| == 2
    ensures DecodeLast(Encode(bs)) == Ok(bs)
  {
    assert Encode(bs) == EncodeTwo(bs[0], bs[1]);
    PairRoundTrip(bs[0], bs[1]);
    assert [bs[0], bs[1]] == bs;
  }

  lemma ThreeRoundTrip(bs: seq<byte>)
    requires |bs| == 3
    ensures DecodeLast(Encode(bs)) == Ok(bs)
  {
    EncodeThree(bs);
    FullGroupIsLast(bs[0], bs[1], bs[2]);
    GroupRoundTripSeq(bs);
  }

  lemma EncodeThree(bs: seq<byte>)
    requires |bs| == 3
    ensures Encode(bs) == EncodeGroup(bs[0], bs[1], bs[2])
  {
    assert Encode(bs[3..]) == [];
  }

  /** A full group is decoded the same way in last place. */
  lemma FullGroupIsLast(b0: byte, b1: byte, b2: byte)
    ensures DecodeLast(EncodeGroup(b0, b1, b2)) == DecodeGroup(EncodeGroup(b0, b1, b2))
  {
    var q := EncodeGroup(b0, b1, b2);
    assert IsBase64Char(q[3]);
  }

  lemma DecodeAppend(head: string, rest: string, x: seq<byte>, y: seq<byte>)
    requires |head| == 4 && |rest| > 0
    requires DecodeGroup(head) == Ok(x) && Decode(rest) == Ok(y)
    ensures Decode(head + rest) == Ok(x + y)
  {
    var s := head + rest;
    assert s[..4] == head && s[4..] == rest;
  }

  lemma EncodeUnfold(bs: seq<byte>)
    requires |bs| > 3
    ensures Encode(bs) == EncodeGroup(bs[0], bs[1], bs[2]) + Encode(bs[3..])
  {
  }

  lemma GroupRoundTripSeq(g: seq<byte>)
    requires |g| == 3
    ensures DecodeGroup(EncodeGroup(g[0], g[1], g[2])) == Ok(g)
  {
    var b0, b1, b2 := g[0], g[1], g[2];
    GroupRoundTrip(b0, b1, b2);
    assert [b0, b1, b2] == g;
  }

  lemma StepRoundTrip(g: seq<byte>, x: string, rest: seq<byte>)
    requires |g| == 3 && |x| > 0 && Decode(x) == Ok(rest)
    ensures Decode(EncodeGroup(g[0], g[1], g[2]) + x) == Ok(g + rest)
  {
    GroupRoundTripSeq(g);
    DecodeAppend(EncodeGroup(g[0], g[1], g[2]), x, g, rest);
  }

  /** Decoding the encoded text gives back the original bytes. */
  lemma {:induction false} RoundTrip(bs: seq<byte>)
    ensures Decode(Encode(bs)) == Ok(bs)
    decreases |bs|
  {
    if |bs| == 1 {
      OneRoundTrip(bs);
    } else if |bs| == 2 {
      TwoRoundTrip(bs);
    } else if |bs| == 3 {
      ThreeRoundTrip(bs);
    } else if |bs| > 3 {
      RoundTrip(bs[3..]);
      EncodeUnfold(bs);
      StepRoundTrip(bs[..3], Encode(bs[3..]), bs[3..]);
      assert bs[..3] + bs[3..] == bs;
    }
  }
}
