/**
 * The conversions `int(s)` and `float(s)` the loader applies to each field, restricted to
 * plain decimal notation: surrounding whitespace, an optional sign, then decimal digits
 * (for `float`, with at most one decimal point and at least one digit). The whitespace these
 * conversions trim is not quite the whitespace `str.strip()` removes: see `NumberSpace`.
 */
module Numbers {
  import opened Results
  import opened Text

  /**
   * The characters `int()` and `float()` trim around a literal. Both first map every non-ASCII
   * whitespace character to a space, leave ASCII characters as they are, and then trim the
   * ASCII whitespace `\t \n \v \f \r` and space. So the information separators U+001C..U+001F,
   * which `str.isspace()` counts as whitespace, are not trimmed and make the literal invalid.
   */
  const NumberSpace: set<char> := Whitespace - {'\U{001C}', '\U{001D}', '\U{001E}', '\U{001F}'}

  predicate IsDigit(ch: char)
  {
    '0' <= ch <= '9'
  }

  predicate AllDigits(s: string)
  {
    forall k :: 0 <= k < |s| ==> IsDigit(s[k])
  }

  function DigitValue(ch: char): (d: nat)
    requires IsDigit(ch)
    ensures d < 10
  {
    ch as int - '0' as int
  }

  function DigitChar(d: nat): (ch: char)
    requires d < 10
    ensures IsDigit(ch) && DigitValue(ch) == d
  {
    ('0' as int + d) as char
  }

  /** The value of a string of decimal digits, most significant first. */
  function DigitsValue(s: string): nat
    requires AllDigits(s)
  {
    if s == [] then 0 else 10 * DigitsValue(s[..|s| - 1]) + DigitValue(s[|s| - 1])
  }

  /** The value of the digits after a decimal point: "25" is 0.25. */
  function FractionValue(s: string): (v: real)
    requires AllDigits(s)
    ensures 0.0 <= v <= 1.0
  {
    if s == [] then 0.0 else (DigitValue(s[0]) as real + FractionValue(s[1..])) / 10.0
  }

  /** A leading '+' or '-' taken off: whether the number is negated, and what follows. */
  function SplitSign(s: string): (bool, string)
  {
    if s != [] && (s[0] == '+' || s[0] == '-') then (s[0] == '-', s[1..]) else (false, s)
  }

  /** An unsigned run of digits, as `int()` takes it after the sign. */
  function UnsignedInt(s: string): Option<nat>
  {
    if s != [] && AllDigits(s) then Some(DigitsValue(s)) else None
  }

  /** An unsigned decimal: digits, then optionally a point and more digits, at least one digit in all. */
  function UnsignedDecimal(s: string): Option<real>
  {
    var parts := Split(s, '.');
    var whole := parts[0];
    var fraction := if |parts| == 2 then parts[1] else [];
    if |parts| <= 2 && AllDigits(whole) && AllDigits(fraction) && |whole| + |fraction| > 0 then
      Some(DigitsValue(whole) as real + FractionValue(fraction))
    else
      None
  }

  /** An integer literal character by character: an optional sign, then at least one digit. */
  predicate IsIntLiteral(t: string)
  {
    && t != [] && IsDigit(t[|t| - 1])
    && forall k :: 0 <= k < |t| ==> IsDigit(t[k]) || (k == 0 && (t[k] == '+' || t[k] == '-'))
  }

  /** Every character of a decimal literal: a digit, a point, or a sign in front. */
  predicate DecimalCharacters(t: string)
  {
    forall k :: 0 <= k < |t| ==> IsDigit(t[k]) || t[k] == '.' || (k == 0 && (t[k] == '+' || t[k] == '-'))
  }

  /**
   * `int(s)` for base-10 literals; `None` where Python raises `ValueError`. It accepts exactly
   * the strings that are an integer literal once the surrounding whitespace is trimmed.
   */
  function ParseInt(s: string): (r: Option<int>)
    ensures r.Some? <==> IsIntLiteral(Strip(s, NumberSpace))
    ensures r.Some? && r.value < 0 ==> Strip(s, NumberSpace)[0] == '-'
  {
    SignedIntAccepts(Strip(s, NumberSpace));
    SignedInt(Strip(s, NumberSpace))
  }

  /**
   * `float(s)` for plain decimal literals such as "3", "-2.5", "+.5" and "7."; `None` where
   * Python raises. What it accepts is, once trimmed, non-empty and made of digits and points
   * after an optional sign.
   */
  function ParseFloat(s: string): (r: Option<real>)
    ensures r.Some? ==> Strip(s, NumberSpace) != [] && DecimalCharacters(Strip(s, NumberSpace))
    ensures r.Some? && r.value < 0.0 ==> Strip(s, NumberSpace)[0] == '-'
  {
    SignedDecimalShape(Strip(s, NumberSpace));
    SignedDecimal(Strip(s, NumberSpace))
  }

  /** An optionally signed run of digits, with no surrounding whitespace. */
  function SignedInt(t: string): Option<int>
  {
    var signed := SplitSign(t);
    match UnsignedInt(signed.1)
    case Some(m) => Some(if signed.0 then -(m as int) else m as int)
    case None => None
  }

  /** An optionally signed decimal, with no surrounding whitespace. */
  function SignedDecimal(t: string): Option<real>
  {
    var signed := SplitSign(t);
    match UnsignedDecimal(signed.1)
    case Some(m) => Some(if signed.0 then -m else m)
    case None => None
  }

  lemma SignedIntAccepts(t: string)
    ensures SignedInt(t).Some? <==> IsIntLiteral(t)
    ensures SignedInt(t).Some? && SignedInt(t).value < 0 ==> t[0] == '-'
  {
    if t != [] && (t[0] == '+' || t[0] == '-') {
      var u := t[1..];
      assert forall k :: 1 <= k < |t| ==> t[k] == u[k - 1];
      if IsIntLiteral(t) {
        assert AllDigits(u);
      }
    }
  }

  lemma SignedDecimalShape(t: string)
    ensures SignedDecimal(t).Some? ==> t != [] && DecimalCharacters(t)
    ensures SignedDecimal(t).Some? && SignedDecimal(t).value < 0.0 ==> t[0] == '-'
  {
    var u := SplitSign(t).1;
    if UnsignedDecimal(u).Some? {
      UnsignedDecimalShape(u);
    }
    if t != [] && (t[0] == '+' || t[0] == '-') {
      assert forall k :: 1 <= k < |t| ==> t[k] == u[k - 1];
    }
  }

  lemma UnsignedDecimalShape(u: string)
    requires UnsignedDecimal(u).Some?
    ensures u != [] && forall k :: 0 <= k < |u| ==> IsDigit(u[k]) || u[k] == '.'
    ensures UnsignedDecimal(u).value >= 0.0
  {
    var parts := Split(u, '.');
    if |parts| == 2 {
      assert Join(parts[1..], '.') == parts[1];
      assert u == parts[0] + ['.'] + parts[1];
    }
  }

  /** The decimal digits of `n`, without leading zeros. */
  function NatToString(n: nat): (s: string)
    ensures s != [] && AllDigits(s)
  {
    if n < 10 then [DigitChar(n)] else NatToString(n / 10) + [DigitChar(n % 10)]
  }

  /** How Python's `str(n)` writes an integer: digits, after a '-' when negative. */
  function IntToString(n: int): (s: string)
    ensures s != [] && IsDigit(s[|s| - 1])
    ensures forall k :: 0 <= k < |s| ==> IsDigit(s[k]) || (k == 0 && s[k] == '-')
  {
    if n < 0 then "-" + NatToString(-n) else NatToString(n)
  }

  lemma {:induction false} DigitsValueOfNatToString(n: nat)
    ensures DigitsValue(NatToString(n)) == n
  {
    var s := NatToString(n);
    if n >= 10 {
      DigitsValueOfNatToString(n / 10);
      assert s[..|s| - 1] == NatToString(n / 10);
    }
  }

  /**
   * A number written in decimal notation with a point: an optional '-', the digits of `whole`
   * before the point and the digits `fraction` after it. The sign is kept apart from `whole`
   * so that values between -1 and 0, such as "-0.5", can be written.
   */
  datatype Decimal = Decimal(negative: bool, whole: nat, fraction: string)

  predicate ValidDecimal(d: Decimal)
  {
    AllDigits(d.fraction)
  }

  /** How "-2.5", "-0.25" or "3.25" is written: the sign, the integer part, a point, then the digits. */
  function DecimalToString(d: Decimal): (s: string)
    requires ValidDecimal(d)
    ensures s != [] && (s[0] == '-' || IsDigit(s[0]))
    ensures s[|s| - 1] == '.' || IsDigit(s[|s| - 1])
    ensures forall k :: 0 <= k < |s| ==> s[k] != ','
  {
    (if d.negative then "-" else "") + NatToString(d.whole) + "." + d.fraction
  }

  /** The number a decimal denotes; the sign applies to the integer part and the fraction alike. */
  function DecimalValue(d: Decimal): real
    requires ValidDecimal(d)
  {
    var magnitude := d.whole as real + FractionValue(d.fraction);
    if d.negative then -magnitude else magnitude
  }

  /** `int(str(n)) == n`. */
  lemma ParseIntOfIntToString(n: int)
    ensures ParseInt(IntToString(n)) == Some(n)
  {
    var s := IntToString(n);
    assert s[0] == '-' || IsDigit(s[0]);
    assert s[0] !in NumberSpace && s[|s| - 1] !in NumberSpace;
    StripKeepsCleanEnds(s, NumberSpace);
    SignedIntOfIntToString(n);
  }

  lemma SignedIntOfIntToString(n: int)
    ensures SignedInt(IntToString(n)) == Some(n)
  {
    var m: nat := if n < 0 then -n else n;
    DigitsValueOfNatToString(m);
    assert SplitSign(IntToString(n)) == (n < 0, NatToString(m));
  }

  /** Whatever `int()` accepts, `float()` accepts too, with the same value. */
  lemma IntLiteralIsFloatLiteral(s: string, n: int)
    requires ParseInt(s) == Some(n)
    ensures ParseFloat(s) == Some(n as real)
  {
    SignedIntIsSignedDecimal(Strip(s, NumberSpace));
  }

  lemma SignedIntIsSignedDecimal(t: string)
    requires SignedInt(t).Some?
    ensures SignedDecimal(t) == Some(SignedInt(t).value as real)
  {
    UnsignedIntIsUnsignedDecimal(SplitSign(t).1);
  }

  /** A digit string read as an integer and as a decimal has the same value. */
  lemma UnsignedIntIsUnsignedDecimal(s: string)
    requires UnsignedInt(s).Some?
    ensures UnsignedDecimal(s) == Some(UnsignedInt(s).value as real)
  {
    assert forall k :: 0 <= k < |s| ==> s[k] != '.';
    SplitWithoutSeparator(s, '.');
    assert FractionValue([]) == 0.0;
  }

  /**
   * A field that `str.strip()` would clean, but whose first character is an information
   * separator, is not a number for either conversion.
   */
  lemma InformationSeparatorIsNotTrimmed()
    ensures Strip("\U{001C}5", Whitespace) == "5"
    ensures ParseInt("\U{001C}5") == None && ParseFloat("\U{001C}5") == None
  {
    var s := "\U{001C}5";
    assert s[1..] == "5";
    assert StrippedAt(s, Whitespace, 1, "5");
    StripIsUnique(s, Whitespace, 1, "5");
    StripKeepsCleanEnds(s, NumberSpace);
    assert !IsDigit(s[0]);
    SplitWithoutSeparator(s, '.');
  }

  /** `float()` reads a number written with a decimal point back as its value. */
  lemma ParseFloatOfDecimalToString(d: Decimal)
    requires ValidDecimal(d)
    ensures ParseFloat(DecimalToString(d)) == Some(DecimalValue(d))
  {
    var s := DecimalToString(d);
    assert s[0] !in NumberSpace && s[|s| - 1] !in NumberSpace;
    StripKeepsCleanEnds(s, NumberSpace);
    SignedDecimalOfDecimalToString(d);
  }

  lemma SignedDecimalOfDecimalToString(d: Decimal)
    requires ValidDecimal(d)
    ensures SignedDecimal(DecimalToString(d)) == Some(DecimalValue(d))
  {
    SplitSignOfDecimal(d);
    UnsignedDecimalOfNat(d.whole, d.fraction);
    SignedDecimalOfParts(DecimalToString(d), d.negative, NatToString(d.whole) + "." + d.fraction,
                         d.whole as real + FractionValue(d.fraction), DecimalValue(d));
  }

  /** "-0.5", a value between -1 and 0, is one of the decimals `float()` reads back. */
  lemma NegativeHalfReadsBack()
    ensures ParseFloat("-0.5") == Some(-0.5)
  {
    var d := Decimal(true, 0, "5");
    assert DecimalToString(d) == "-0.5" by {
      assert NatToString(0) == "0";
    }
    assert DecimalValue(d) == -0.5 by {
      assert FractionValue("5") == 0.5;
    }
    ParseFloatOfDecimalToString(d);
  }

  /** A signed decimal is its unsigned part, negated when the sign is '-'. */
  lemma SignedDecimalOfParts(t: string, negative: bool, unsigned: string, v: real, value: real)
    requires SplitSign(t) == (negative, unsigned) && UnsignedDecimal(unsigned) == Some(v)
    requires value == if negative then -v else v
    ensures SignedDecimal(t) == Some(value)
  {
  }

  /** A natural number written out, then a point and digits, read as an unsigned decimal. */
  lemma UnsignedDecimalOfNat(m: nat, fraction: string)
    requires AllDigits(fraction)
    ensures UnsignedDecimal(NatToString(m) + "." + fraction) == Some(m as real + FractionValue(fraction))
  {
    UnsignedDecimalWithPoint(NatToString(m), fraction);
    DigitsValueOfNatToString(m);
  }

  /** The sign of a decimal taken off: whether it is negative, then the digits, point and fraction. */
  lemma SplitSignOfDecimal(d: Decimal)
    requires ValidDecimal(d)
    ensures SplitSign(DecimalToString(d)) == (d.negative, NatToString(d.whole) + "." + d.fraction)
  {
    var rest := NatToString(d.whole) + "." + d.fraction;
    var s := DecimalToString(d);
    if d.negative {
      assert s == "-" + rest;
      assert s[1..] == rest;
    } else {
      assert s == rest && IsDigit(s[0]);
    }
  }

  /** Digits, a point and digits read as an unsigned decimal. */
  lemma UnsignedDecimalWithPoint(whole: string, fraction: string)
    requires whole != [] && AllDigits(whole) && AllDigits(fraction)
    ensures UnsignedDecimal(whole + "." + fraction) == Some(DigitsValue(whole) as real + FractionValue(fraction))
  {
    assert '.' !in whole by {
      assert forall k :: 0 <= k < |whole| ==> whole[k] != '.';
    }
    assert '.' !in fraction by {
      assert forall k :: 0 <= k < |fraction| ==> fraction[k] != '.';
    }
    var s := whole + "." + fraction;
    assert Split(s, '.') == [whole, fraction] by {
      SplitPrefix(whole, fraction, '.');
      SplitWithoutSeparator(fraction, '.');
    }
    UnsignedDecimalOfParts(s, whole, fraction);
  }

  /** A string that splits at its one point into digits before and digits after is an unsigned decimal. */
  lemma UnsignedDecimalOfParts(s: string, whole: string, fraction: string)
    requires Split(s, '.') == [whole, fraction]
    requires whole != [] && AllDigits(whole) && AllDigits(fraction)
    ensures UnsignedDecimal(s) == Some(DigitsValue(whole) as real + FractionValue(fraction))
  {
  }
}
