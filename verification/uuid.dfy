/** The canonical text of a UUID (section 3 of RFC 4122): 32 hexadecimal
    digits of the 128-bit value in groups of 8-4-4-4-12 separated by
    hyphens, written in lower case by `str(uuid.UUID)`. */
module Uuid {
  import opened Results
  import opened Digits

  const HexDigits := 32
  const TextLength := 36

  /** A 128-bit value. */
  predicate IsUuid(n: nat)
  {
    n < Pow(16, HexDigits)
  }

  predicate IsHyphenAt(i: int)
  {
    i == 8 || i == 13 || i == 18 || i == 23
  }

  /** The text with its four hyphens removed. */
  function Ungroup(s: string): (h: string)
    requires |s| == TextLength
    ensures |h| == HexDigits
  {
    s[..8] + s[9..13] + s[14..18] + s[19..23] + s[24..]
  }

  /** Where the digit at text position `i` sits among the 32 digits. */
  function DigitIndex(i: int): (j: int)
    requires 0 <= i < TextLength && !IsHyphenAt(i)
    ensures 0 <= j < HexDigits
  {
    if i < 8 then i else if i < 13 then i - 1 else if i < 18 then i - 2 else if i < 23 then i - 3 else i - 4
  }

  /** Where digit `j` of the 32 sits in the text. */
  function TextIndex(j: int): (i: int)
    requires 0 <= j < HexDigits
    ensures 0 <= i < TextLength && !IsHyphenAt(i) && DigitIndex(i) == j
  {
    if j < 8 then j else if j < 12 then j + 1 else if j < 16 then j + 2 else if j < 20 then j + 3 else j + 4
  }

  /** 32 digits laid out as 8-4-4-4-12 with hyphens between the groups. */
  function Group(h: string): (s: string)
    requires |h| == HexDigits
    ensures |s| == TextLength
    ensures forall i :: 0 <= i < |s| ==> if IsHyphenAt(i) then s[i] == '-' else s[i] == h[DigitIndex(i)]
  {
    seq(TextLength, i requires 0 <= i < TextLength => if IsHyphenAt(i) then '-' else h[DigitIndex(i)])
  }

  lemma UngroupAt(s: string, i: int)
    requires |s| == TextLength && 0 <= i < TextLength && !IsHyphenAt(i)
    ensures Ungroup(s)[DigitIndex(i)] == s[i]
  {
  }

  lemma UngroupGroup(h: string)
    requires |h| == HexDigits
    ensures Ungroup(Group(h)) == h
  {
    var g := Group(h);
    forall j | 0 <= j < HexDigits
      ensures Ungroup(g)[j] == h[j]
    {
      UngroupAt(g, TextIndex(j));
    }
  }

  lemma GroupUngroup(s: string)
    requires |s| == TextLength
    requires forall i :: 0 <= i < |s| && IsHyphenAt(i) ==> s[i] == '-'
    ensures Group(Ungroup(s)) == s
  {
    forall i | 0 <= i < TextLength && !IsHyphenAt(i)
      ensures Group(Ungroup(s))[i] == s[i]
    {
      UngroupAt(s, i);
    }
  }

  /** `str(u)` for a `uuid.UUID` whose integer value is `n`. */
  function UuidText(n: nat): (s: string)
    requires IsUuid(n)
    ensures |s| == TextLength
    ensures forall i :: 0 <= i < |s| ==> (s[i] == '-' <==> IsHyphenAt(i))
    ensures forall i :: 0 <= i < |s| && !IsHyphenAt(i) ==> IsLowerHexChar(s[i])
    ensures Ungroup(s) == HexText(n, HexDigits)
  {
    var h := HexText(n, HexDigits);
    UngroupGroup(h);
    Group(h)
  }

  /** `uuid.UUID(s)` on text in the 8-4-4-4-12 layout. Hexadecimal digits
      of either case are accepted, as `int(hex, 16)` accepts them. */
  function ParseUuid(s: string): (r: Result<nat>)
    ensures r.Ok? ==> IsUuid(r.value)
    ensures r.Ok? ==> |s| == TextLength && forall i :: 0 <= i < |s| && IsHyphenAt(i) ==> s[i] == '-'
  {
    if |s| == TextLength && s[8] == '-' && s[13] == '-' && s[18] == '-' && s[23] == '-' then
      match ParseHex(Ungroup(s))
      case Some(n) => Ok(n)
      case None => Err(ParseError(s))
    else
      Err(ParseError(s))
  }

  /** Parsing the text of a UUID gives back its value. */
  lemma ParseUuidText(n: nat)
    requires IsUuid(n)
    ensures ParseUuid(UuidText(n)) == Ok(n)
  {
    ParseHexText(n, HexDigits);
  }

  /** Conversely, lower-case text that parses is the text of its value. */
  lemma UuidTextOfParse(s: string)
    requires ParseUuid(s).Ok?
    requires forall i :: 0 <= i < |s| && !IsHyphenAt(i) ==> IsLowerHexChar(s[i])
    ensures UuidText(ParseUuid(s).value) == s
  {
    var h := Ungroup(s);
    forall j | 0 <= j < |h|
      ensures IsLowerHexChar(h[j])
    {
      UngroupAt(s, TextIndex(j));
    }
    HexTextOfParse(h);
    GroupUngroup(s);
  }
}
