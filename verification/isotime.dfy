/** The ISO-8601 text of a naive date-time as `datetime.isoformat()` writes
    it, and the two `strptime` formats `InstantIO` reads back:
    `%Y-%m-%dT%H:%M:%S.%fZ` and `%Y-%m-%dT%H:%M:%SZ`. Fields are read at
    their canonical widths: four digits of year, two of every other field,
    and one to six digits of fraction. */
module IsoTime {
  import opened Results
  import opened Digits
  import opened Calendar

  /** Characters `isoformat` can produce. */
  predicate IsIsoChar(c: char)
  {
    IsDecimalChar(c) || c == '-' || c == 'T' || c == ':' || c == '.'
  }

  /** `YYYY-MM-DDTHH:MM:SS`, with the field values of `t`. */
  function SecondsText(t: DateTime): (s: string)
    requires ValidDateTime(t)
    ensures |s| == 19
    ensures forall i :: 0 <= i < |s| ==> IsIsoChar(s[i])
  {
    DecimalText(t.year, 4) + "-" + DecimalText(t.month, 2) + "-" + DecimalText(t.day, 2) + "T"
    + DecimalText(t.hour, 2) + ":" + DecimalText(t.minute, 2) + ":" + DecimalText(t.second, 2)
  }

  /** `datetime.isoformat()`: the microseconds appear as `.ffffff` only
      when they are nonzero. */
  function IsoFormat(t: DateTime): (s: string)
    requires ValidDateTime(t)
    ensures |s| == if t.microsecond == 0 then 19 else 26
    ensures forall i :: 0 <= i < |s| ==> IsIsoChar(s[i])
    ensures ('.' in s) <==> t.microsecond != 0
  {
    var whole := SecondsText(t);
    if t.microsecond == 0 then
      assert forall i :: 0 <= i < |whole| ==> whole[i] != '.';
      whole
    else
      whole + "." + DecimalText(t.microsecond, 6)
  }

  /** Midnight is written `T00:00:00` after the date, with no fraction. */
  lemma MidnightText(t: DateTime)
    requires ValidDateTime(t) && t.hour == 0 && t.minute == 0 && t.second == 0 && t.microsecond == 0
    ensures IsoFormat(t)[10..] == "T00:00:00"
  {
    var zero := DecimalText(0, 2);
    assert zero == "00" by {
      assert ToDigits(10, 0, 2) == [0, 0];
    }
    var date := DecimalText(t.year, 4) + "-" + DecimalText(t.month, 2) + "-" + DecimalText(t.day, 2);
    assert IsoFormat(t) == date + "T" + zero + ":" + zero + ":" + zero;
    assert |date| == 10;
  }

  /** The fields of `YYYY-MM-DDTHH:MM:SS`, microsecond zero; None when a
      separator or digit is out of place. Ranges are not checked here. */
  function ReadSeconds(s: string): Option<DateTime>
    requires |s| == 19
  {
    if s[4] == '-' && s[7] == '-' && s[10] == 'T' && s[13] == ':' && s[16] == ':' then
      match (ParseDecimal(s[0..4]), ParseDecimal(s[5..7]), ParseDecimal(s[8..10]),
             ParseDecimal(s[11..13]), ParseDecimal(s[14..16]), ParseDecimal(s[17..19]))
      case (Some(y), Some(mo), Some(d), Some(h), Some(mi), Some(sec)) =>
        Some(DateTime(y, mo, d, h, mi, sec, 0))
      case _ => None
    else
      None
  }

  /** The `datetime` constructor's range check after a successful match. */
  function Checked(o: Option<DateTime>, s: string): (r: Result<DateTime>)
    ensures r.Ok? ==> ValidDateTime(r.value)
  {
    if o.Some? && ValidDateTime(o.value) then Ok(o.value) else Err(ParseError(s))
  }

  /** `strptime(s, '%Y-%m-%dT%H:%M:%SZ')`. */
  function ParseWhole(s: string): (r: Result<DateTime>)
    ensures r.Ok? ==> |s| == 20 && s[19] == 'Z' && r.value.microsecond == 0
  {
    if |s| == 20 && s[19] == 'Z' then Checked(ReadSeconds(s[..19]), s) else Err(ParseError(s))
  }

  /** `strptime(s, '%Y-%m-%dT%H:%M:%S.%fZ')`: `%f` takes one to six
      digits and pads them on the right to microseconds. */
  function ParseFractional(s: string): (r: Result<DateTime>)
    ensures r.Ok? ==> 22 <= |s| <= 27 && s[19] == '.' && s[|s| - 1] == 'Z'
  {
    if 22 <= |s| <= 27 && s[19] == '.' && s[|s| - 1] == 'Z' then
      var digits := s[20..|s| - 1];
      match (ReadSeconds(s[..19]), ParseDecimal(digits))
      case (Some(t), Some(f)) => Checked(Some(t.(microsecond := f * Pow(10, 6 - |digits|))), s)
      case _ => Err(ParseError(s))
    else
      Err(ParseError(s))
  }

  /** `InstantIO.objectify` on a string: the fractional format first, the
      whole-seconds format when the first raises. */
  function ParseInstant(s: string): (r: Result<DateTime>)
    ensures r.Ok? ==> ValidDateTime(r.value)
    ensures r.Ok? ==> |s| > 0 && s[|s| - 1] == 'Z'
    ensures r.Ok? <==> ParseFractional(s).Ok? || ParseWhole(s).Ok?
    ensures ParseFractional(s).Ok? ==> ParseWhole(s).Err?
  {
    var first := ParseFractional(s);
    if first.Ok? then first else ParseWhole(s)
  }

  lemma ReadSecondsText(t: DateTime)
    requires ValidDateTime(t)
    ensures ReadSeconds(SecondsText(t)) == Some(t.(microsecond := 0))
  {
    var s := SecondsText(t);
    assert s[0..4] == DecimalText(t.year, 4);
    assert s[5..7] == DecimalText(t.month, 2);
    assert s[8..10] == DecimalText(t.day, 2);
    assert s[11..13] == DecimalText(t.hour, 2);
    assert s[14..16] == DecimalText(t.minute, 2);
    assert s[17..19] == DecimalText(t.second, 2);
    ParseDecimalText(t.year, 4);
    ParseDecimalText(t.month, 2);
    ParseDecimalText(t.day, 2);
    ParseDecimalText(t.hour, 2);
    ParseDecimalText(t.minute, 2);
    ParseDecimalText(t.second, 2);
  }

  lemma ParseWholeText(t: DateTime)
    requires ValidDateTime(t) && t.microsecond == 0
    ensures ParseWhole(SecondsText(t) + "Z") == Ok(t)
  {
    var s := SecondsText(t) + "Z";
    assert s[..19] == SecondsText(t);
    ReadSecondsText(t);
  }

  lemma ParseFractionalText(t: DateTime)
    requires ValidDateTime(t) && t.microsecond != 0
    ensures ParseFractional(SecondsText(t) + "." + DecimalText(t.microsecond, 6) + "Z") == Ok(t)
  {
    FractionalLayout(SecondsText(t), DecimalText(t.microsecond, 6));
    ReadSecondsText(t);
    ParseDecimalText(t.microsecond, 6);
    assert Pow(10, 0) == 1;
  }

  /** The pieces of a 27-character fractional text. */
  lemma FractionalLayout(whole: string, digits: string)
    requires |whole| == 19 && |digits| == 6
    ensures var s := whole + "." + digits + "Z";
      |s| == 27 && s[..19] == whole && s[19] == '.' && s[20..26] == digits && s[26] == 'Z'
  {
  }

  /** A 27-character fractional text is its pieces put together. */
  lemma FractionalJoin(s: string)
    requires |s| == 27 && s[19] == '.' && s[26] == 'Z'
    ensures s == s[..19] + "." + s[20..26] + "Z"
  {
  }

  /** Every `isoformat` text with a `Z` appended parses back to the same
      date-time, through the fractional format when it carries microseconds
      and through the fallback when it does not. */
  lemma ParseIsoFormat(t: DateTime)
    requires ValidDateTime(t)
    ensures ParseInstant(IsoFormat(t) + "Z") == Ok(t)
  {
    if t.microsecond == 0 {
      ParseWholeText(t);
    } else {
      ParseFractionalText(t);
      assert IsoFormat(t) + "Z" == SecondsText(t) + "." + DecimalText(t.microsecond, 6) + "Z";
    }
  }

  lemma ReadSecondsInverse(s: string)
    requires |s| == 19 && ReadSeconds(s).Some? && ValidDateTime(ReadSeconds(s).value)
    ensures SecondsText(ReadSeconds(s).value) == s
  {
    DecimalTextOfParse(s[0..4]);
    DecimalTextOfParse(s[5..7]);
    DecimalTextOfParse(s[8..10]);
    DecimalTextOfParse(s[11..13]);
    DecimalTextOfParse(s[14..16]);
    DecimalTextOfParse(s[17..19]);
    assert s == s[0..4] + "-" + s[5..7] + "-" + s[8..10] + "T" + s[11..13] + ":" + s[14..16] + ":" + s[17..19];
  }

  lemma WholeInverse(s: string)
    requires ParseWhole(s).Ok?
    ensures IsoFormat(ParseWhole(s).value) + "Z" == s
  {
    var t := ParseWhole(s).value;
    ReadSecondsInverse(s[..19]);
    assert SecondsText(t) == s[..19];
    assert s == s[..19] + "Z";
  }

  /** What the fractional format reads from a 27-character text: the
      seconds fields and six digits taken as microseconds. */
  lemma FractionalParts(s: string)
    requires ParseFractional(s).Ok? && |s| == 27
    ensures ReadSeconds(s[..19]).Some? && ParseDecimal(s[20..26]).Some?
    ensures ParseFractional(s).value
      == ReadSeconds(s[..19]).value.(microsecond := ParseDecimal(s[20..26]).value)
  {
    assert Pow(10, 0) == 1;
  }

  lemma SecondsTextIgnoresMicroseconds(t: DateTime, m: int)
    requires ValidDateTime(t) && ValidDateTime(t.(microsecond := m))
    ensures SecondsText(t.(microsecond := m)) == SecondsText(t)
  {
  }

  lemma FractionalInverse(s: string)
    requires ParseFractional(s).Ok? && |s| == 27
    requires ParseFractional(s).value.microsecond != 0
    ensures IsoFormat(ParseFractional(s).value) + "Z" == s
  {
    FractionalParts(s);
    var t := ParseFractional(s).value;
    var t0 := ReadSeconds(s[..19]).value;
    var digits := s[20..26];
    assert t0 == t.(microsecond := 0);
    ReadSecondsInverse(s[..19]);
    SecondsTextIgnoresMicroseconds(t0, t.microsecond);
    DecimalTextOfParse(digits);
    assert IsoFormat(t) == s[..19] + "." + digits;
    FractionalJoin(s);
  }

  /** Conversely, an accepted text in the form `isoformat` writes (whole
      seconds, or exactly six fraction digits not all zero) is that form
      of the value it parses to. */
  lemma IsoFormatOfParse(s: string)
    requires ParseInstant(s).Ok?
    requires |s| == 20 || (|s| == 27 && ParseInstant(s).value.microsecond != 0)
    ensures IsoFormat(ParseInstant(s).value) + "Z" == s
  {
    if |s| == 27 {
      FractionalInverse(s);
    } else {
      WholeInverse(s);
    }
  }
}
