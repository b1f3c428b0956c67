/** Fixed-width positional numerals: the zero-padded decimal fields of an
    ISO-8601 timestamp and the hexadecimal groups of a UUID are both a
    number written with exactly `w` digits in base `b`. */
module Digits {
  import opened Results

  function Pow(b: nat, e: nat): (r: nat)
    ensures b >= 1 ==> r >= 1
  {
    if e == 0 then 1 else b * Pow(b, e - 1)
  }

  /** The `w` least significant base-`b` digits of `n`, most significant first. */
  function ToDigits(b: nat, n: nat, w: nat): (ds: seq<nat>)
    requires b >= 2
    ensures |ds| == w
    ensures forall i :: 0 <= i < w ==> ds[i] < b
  {
    if w == 0 then [] else ToDigits(b, n / b, w - 1) + [n % b]
  }

  /** The number a most-significant-first digit sequence denotes. */
  function FromDigits(b: nat, ds: seq<nat>): nat
  {
    if |ds| == 0 then 0 else FromDigits(b, ds[..|ds| - 1]) * b + ds[|ds| - 1]
  }

  predicate AllBelow(b: nat, ds: seq<nat>)
  {
    forall i :: 0 <= i < |ds| ==> ds[i] < b
  }

  lemma MulLeft(a: nat, c: nat, b: nat)
    requires a <= c
    ensures a * b <= c * b
  {
    assert c * b == a * b + (c - a) * b;
  }

  lemma DivBelow(n: nat, b: nat, p: nat)
    requires b >= 1 && n < b * p
    ensures n / b < p
  {
    if n / b >= p {
      MulLeft(p, n / b, b);
    }
  }

  lemma DivModOfStep(q: nat, b: nat, d: nat)
    requires d < b
    ensures (q * b + d) / b == q && (q * b + d) % b == d
  {
    var n := q * b + d;
    var q', d' := n / b, n % b;
    assert n == q' * b + d';
    if q' > q {
      MulLeft(q + 1, q', b);
    } else if q' < q {
      MulLeft(q' + 1, q, b);
    }
  }

  lemma StepBelow(q: nat, b: nat, d: nat, p: nat)
    requires d < b && q < p
    ensures q * b + d < b * p
  {
    MulLeft(q + 1, p, b);
  }

  lemma FromDigitsSnoc(b: nat, ds: seq<nat>, d: nat)
    ensures FromDigits(b, ds + [d]) == FromDigits(b, ds) * b + d
  {
    assert (ds + [d])[..|ds|] == ds;
  }

  lemma Recombine(n: nat, b: nat)
    requires b >= 1
    ensures (n / b) * b + n % b == n
  {
  }

  lemma PrefixBound(b: nat, n: nat, w: nat)
    requires b >= 2 && w > 0 && n < Pow(b, w)
    ensures n / b < Pow(b, w - 1)
  {
    var p := Pow(b, w - 1);
    assert Pow(b, w) == b * p;
    DivBelow(n, b, p);
  }

  lemma DigitsStep(b: nat, n: nat, w: nat)
    requires b >= 2 && w > 0
    requires FromDigits(b, ToDigits(b, n / b, w - 1)) == n / b
    ensures FromDigits(b, ToDigits(b, n, w)) == n
  {
    var q, d := n / b, n % b;
    var front := ToDigits(b, q, w - 1);
    assert ToDigits(b, n, w) == front + [d];
    FromDigitsSnoc(b, front, d);
    Recombine(n, b);
  }

  /** Writing `n` with `w` digits and reading them back gives `n`,
      provided `n` fits in `w` digits. */
  lemma {:induction false} FromToDigits(b: nat, n: nat, w: nat)
    requires b >= 2 && n < Pow(b, w)
    ensures FromDigits(b, ToDigits(b, n, w)) == n
    decreases w, 1
  {
    if w > 0 {
      FromToDigitsStep(b, n, w);
    } else {
      NoDigits(b, n);
    }
  }

  lemma {:induction false} FromToDigitsStep(b: nat, n: nat, w: nat)
    requires b >= 2 && w > 0 && n < Pow(b, w)
    ensures FromDigits(b, ToDigits(b, n, w)) == n
    decreases w, 0
  {
    PrefixBound(b, n, w);
    FromToDigits(b, n / b, w - 1);
    DigitsStep(b, n, w);
  }

  lemma NoDigits(b: nat, n: nat)
    requires b >= 2 && n < Pow(b, 0)
    ensures FromDigits(b, ToDigits(b, n, 0)) == n
  {
    assert Pow(b, 0) == 1;
    assert ToDigits(b, n, 0) == [];
  }

  /** Reading a digit sequence gives a number that fits in as many digits,
      and writing that number back gives the same sequence. */
  lemma {:induction false} ToFromDigits(b: nat, ds: seq<nat>)
    requires b >= 2 && AllBelow(b, ds)
    ensures FromDigits(b, ds) < Pow(b, |ds|)
    ensures ToDigits(b, FromDigits(b, ds), |ds|) == ds
  {
    if |ds| > 0 {
      var k := |ds| - 1;
      var front := ds[..k];
      assert AllBelow(b, front);
      ToFromDigits(b, front);
      var q := FromDigits(b, front);
      DivModOfStep(q, b, ds[k]);
      StepBelow(q, b, ds[k], Pow(b, k));
      assert ds == front + [ds[k]];
    }
  }

  // Decimal digits.

  predicate IsDecimalChar(c: char)
  {
    '0' <= c <= '9'
  }

  function DecimalChar(d: nat): (c: char)
    requires d < 10
    ensures IsDecimalChar(c)
  {
    ('0' as int + d) as char
  }

  function DecimalValue(c: char): (d: nat)
    requires IsDecimalChar(c)
    ensures d < 10 && DecimalChar(d) == c
  {
    c as int - '0' as int
  }

  /** `n` written as exactly `w` decimal digits, zero-padded on the left
      (the `%0wd` rendering). */
  function DecimalText(n: nat, w: nat): (s: string)
    requires n < Pow(10, w)
    ensures |s| == w
    ensures forall i :: 0 <= i < |s| ==> IsDecimalChar(s[i])
  {
    var ds := ToDigits(10, n, w);
    seq(w, i requires 0 <= i < w => DecimalChar(ds[i]))
  }

  predicate AllDecimal(s: string)
  {
    forall i :: 0 <= i < |s| ==> IsDecimalChar(s[i])
  }

  /** The number a string of decimal digits denotes; None if any character
      is not a digit. */
  function ParseDecimal(s: string): (r: Option<nat>)
    ensures r.Some? <==> AllDecimal(s)
    ensures r.Some? ==> r.value < Pow(10, |s|)
  {
    if AllDecimal(s) then
      var ds := seq(|s|, i requires 0 <= i < |s| => DecimalValue(s[i]));
      ToFromDigits(10, ds);
      Some(FromDigits(10, ds))
    else
      None
  }

  lemma ParseDecimalText(n: nat, w: nat)
    requires n < Pow(10, w)
    ensures ParseDecimal(DecimalText(n, w)) == Some(n)
  {
    var ds := ToDigits(10, n, w);
    var s := DecimalText(n, w);
    assert seq(|s|, i requires 0 <= i < |s| => DecimalValue(s[i])) == ds;
    FromToDigits(10, n, w);
  }

  lemma DecimalTextOfParse(s: string)
    requires ParseDecimal(s).Some?
    ensures DecimalText(ParseDecimal(s).value, |s|) == s
  {
    var ds := seq(|s|, i requires 0 <= i < |s| => DecimalValue(s[i]));
    ToFromDigits(10, ds);
  }

  /** The number of digits `str(n)` writes: the fewest that hold `n`. */
  function Width(n: nat): (w: nat)
    ensures w >= 1 && n < Pow(10, w)
    ensures w > 1 ==> n >= Pow(10, w - 1)
  {
    if n < 10 then 1 else Width(n / 10) + 1
  }

  /** `s` is how Python writes the int `i`: a minus sign exactly when `i`
      is negative, then the decimal digits of its magnitude with no
      leading zeros. */
  predicate IsIntText(i: int, s: string)
  {
    && |s| > 0
    && (i < 0 <==> s[0] == '-')
    && (i >= 0 ==> ParseDecimal(s) == Some(i) && |s| == Width(i))
    && (i < 0 ==> ParseDecimal(s[1..]) == Some(-i) && |s| == Width(-i) + 1)
  }

  /** `str(i)` for a Python int. */
  function IntText(i: int): (s: string)
    ensures IsIntText(i, s)
  {
    if i < 0 then
      ParseDecimalText(-i, Width(-i));
      "-" + DecimalText(-i, Width(-i))
    else
      ParseDecimalText(i, Width(i));
      DecimalText(i, Width(i))
  }

  /** Only one text is `str(i)`: a digit string that reads back as the
      number and has no leading zeros is the one `IntText` writes. */
  lemma IntTextUnique(i: int, s: string)
    requires IsIntText(i, s)
    ensures s == IntText(i)
  {
    if i < 0 {
      DecimalTextOfParse(s[1..]);
      assert s == [s[0]] + s[1..];
    } else {
      DecimalTextOfParse(s);
    }
  }

  // Hexadecimal digits.

  predicate IsHexChar(c: char)
  {
    IsDecimalChar(c) || 'a' <= c <= 'f' || 'A' <= c <= 'F'
  }

  predicate IsLowerHexChar(c: char)
  {
    IsDecimalChar(c) || 'a' <= c <= 'f'
  }

  /** Lower-case hexadecimal digit, as `int.__format__('x')` writes it. */
  function HexChar(d: nat): (c: char)
    requires d < 16
    ensures IsLowerHexChar(c)
  {
    if d < 10 then DecimalChar(d) else ('a' as int + (d - 10)) as char
  }

  /** Value of a hexadecimal digit of either case, as `int(s, 16)` reads it. */
  function HexValue(c: char): (d: nat)
    requires IsHexChar(c)
    ensures d < 16
    ensures IsLowerHexChar(c) ==> HexChar(d) == c
  {
    if IsDecimalChar(c) then DecimalValue(c)
    else if 'a' <= c <= 'f' then c as int - 'a' as int + 10
    else c as int - 'A' as int + 10
  }

  function HexText(n: nat, w: nat): (s: string)
    requires n < Pow(16, w)
    ensures |s| == w
    ensures forall i :: 0 <= i < |s| ==> IsLowerHexChar(s[i])
  {
    var ds := ToDigits(16, n, w);
    seq(w, i requires 0 <= i < w => HexChar(ds[i]))
  }

  predicate AllHex(s: string)
  {
    forall i :: 0 <= i < |s| ==> IsHexChar(s[i])
  }

  function ParseHex(s: string): (r: Option<nat>)
    ensures r.Some? <==> AllHex(s)
    ensures r.Some? ==> r.value < Pow(16, |s|)
  {
    if AllHex(s) then
      var ds := seq(|s|, i requires 0 <= i < |s| => HexValue(s[i]));
      ToFromDigits(16, ds);
      Some(FromDigits(16, ds))
    else
      None
  }

  lemma ParseHexText(n: nat, w: nat)
    requires n < Pow(16, w)
    ensures ParseHex(HexText(n, w)) == Some(n)
  {
    var ds := ToDigits(16, n, w);
    var s := HexText(n, w);
    assert seq(|s|, i requires 0 <= i < |s| => HexValue(s[i])) == ds;
    FromToDigits(16, n, w);
  }

  lemma HexTextOfParse(s: string)
    requires ParseHex(s).Some?
    requires forall i :: 0 <= i < |s| ==> IsLowerHexChar(s[i])
    ensures HexText(ParseHex(s).value, |s|) == s
  {
    var ds := seq(|s|, i requires 0 <= i < |s| => HexValue(s[i]));
    ToFromDigits(16, ds);
  }
}
