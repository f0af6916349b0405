/** Decimal strings of the wire protocol: which are accepted, what they denote, and the canonical text that is
    printed for a value. */
module DecimalText {
  import opened DecimalContext

  /** A Python `Decimal` that is not negative: `coefficient / 10^scale`, trailing zeros and all. */
  datatype Decimal = Decimal(coefficient: nat, scale: nat)

  const MAX_DIGITS: nat := 40
  const MAX_FRACTIONAL_DIGITS: nat := 30

  function Value(d: Decimal): real {
    d.coefficient as real / Pow10(d.scale) as real
  }

  // ---- digits -------------------------------------------------------------------------------------------

  predicate IsDigit(c: char) {
    '0' <= c <= '9'
  }

  predicate Digits(text: string) {
    forall i :: 0 <= i < |text| ==> IsDigit(text[i])
  }

  function DigitValue(c: char): (n: nat)
    requires IsDigit(c)
    ensures n < 10
  {
    c as int - '0' as int
  }

  function DigitChar(n: nat): (c: char)
    requires n < 10
    ensures IsDigit(c) && DigitValue(c) == n
  {
    ('0' as int + n) as char
  }

  function Read(text: string): nat
    requires Digits(text)
  {
    if text == "" then 0 else 10 * Read(text[..|text| - 1]) + DigitValue(text[|text| - 1])
  }

  function Show(n: nat): (text: string)
    ensures Digits(text) && text != ""
  {
    if n < 10 then [DigitChar(n)] else Show(n / 10) + [DigitChar(n % 10)]
  }

  /** An integer part as the protocol writes it. */
  predicate NoLeadingZero(text: string) {
    |text| > 0 && Digits(text) && (text[0] == '0' ==> |text| == 1)
  }

  lemma {:induction false} ReadShow(n: nat)
    ensures Read(Show(n)) == n && NoLeadingZero(Show(n)) && (n > 0 ==> Show(n)[0] != '0')
  {
    if n < 10 {
      assert Show(n)[..0] == "";
    } else {
      ReadShow(n / 10);
      assert Show(n)[..|Show(n)| - 1] == Show(n / 10);
    }
  }

  lemma {:induction false} ReadPositive(text: string)
    requires NoLeadingZero(text) && text[0] != '0'
    ensures Read(text) > 0
  {
    if |text| == 1 {
      assert text[..0] == "";
    } else {
      ReadPositive(text[..|text| - 1]);
    }
  }

  lemma {:induction false} ShowRead(text: string)
    requires NoLeadingZero(text)
    ensures Show(Read(text)) == text
  {
    var init := text[..|text| - 1];
    if |text| == 1 {
      assert init == "";
      assert text == [text[0]];
    } else {
      ReadPositive(init);
      ShowRead(init);
      assert text == init + [text[|text| - 1]];
    }
  }

  // ---- `format(value, "f")` -----------------------------------------------------------------------------

  /** The digits of the integer part. */
  function Whole(coefficient: nat, scale: nat): nat {
    if scale == 0 then coefficient else Whole(coefficient / 10, scale - 1)
  }

  /** The fractional digits, `scale` of them. */
  function Fraction(coefficient: nat, scale: nat): (text: string)
    ensures Digits(text) && |text| == scale
  {
    if scale == 0 then "" else Fraction(coefficient / 10, scale - 1) + [DigitChar(coefficient % 10)]
  }

  function Fixed(d: Decimal): string {
    Show(Whole(d.coefficient, d.scale)) + if d.scale == 0 then "" else "." + Fraction(d.coefficient, d.scale)
  }

  function StripRight(text: string, c: char): string {
    if text != "" && text[|text| - 1] == c then StripRight(text[..|text| - 1], c) else text
  }

  /** `_decimal_text`. */
  function Text(d: Decimal): string {
    if d.coefficient == 0 then "0"
    else if '.' in Fixed(d) then StripRight(StripRight(Fixed(d), '0'), '.')
    else Fixed(d)
  }

  // ---- `_decimal` ---------------------------------------------------------------------------------------

  /** Where the point is, or where it would be. */
  function Point(text: string): (k: nat)
    ensures k <= |text| && (k < |text| ==> text[k] == '.')
    ensures forall i :: 0 <= i < k ==> text[i] != '.'
  {
    if text == "" || text[0] == '.' then 0 else 1 + Point(text[1..])
  }

  function Integer(text: string): string {
    text[..Point(text)]
  }

  function Fractional(text: string): string {
    if Point(text) < |text| then text[Point(text) + 1..] else ""
  }

  /** The pattern and the length limit. */
  predicate Accepted(text: string) {
    && NoLeadingZero(Integer(text)) && Digits(Fractional(text))
    && (Point(text) < |text| ==> 1 <= |Fractional(text)| <= MAX_FRACTIONAL_DIGITS)
    && |Integer(text)| + |Fractional(text)| <= MAX_DIGITS
  }

  function Parse(text: string): Decimal
    requires Accepted(text)
  {
    Decimal(Read(Integer(text) + Fractional(text)), |Fractional(text)|)
  }

  lemma {:induction false} PointFound(whole: string, rest: string)
    requires Digits(whole) && (rest == "" || rest[0] == '.')
    ensures Point(whole + rest) == |whole|
  {
    var text := whole + rest;
    if whole == "" {
      assert text == rest;
    } else {
      assert text[1..] == whole[1..] + rest;
      PointFound(whole[1..], rest);
    }
  }

  /** What is printed is read back, digit for digit. */
  lemma FixedParts(d: Decimal)
    ensures Integer(Fixed(d)) == Show(Whole(d.coefficient, d.scale))
    ensures Fractional(Fixed(d)) == Fraction(d.coefficient, d.scale)
    ensures Point(Fixed(d)) < |Fixed(d)| <==> d.scale > 0
  {
    var whole := Show(Whole(d.coefficient, d.scale));
    var rest := if d.scale == 0 then "" else "." + Fraction(d.coefficient, d.scale);
    PointFound(whole, rest);
    assert (whole + rest)[..|whole|] == whole;
    if d.scale > 0 {
      assert (whole + rest)[|whole| + 1..] == Fraction(d.coefficient, d.scale);
    }
  }

  lemma {:induction false} ReadJoined(coefficient: nat, scale: nat)
    ensures Read(Show(Whole(coefficient, scale)) + Fraction(coefficient, scale)) == coefficient
    decreases scale
  {
    var whole := Show(Whole(coefficient, scale));
    if scale == 0 {
      assert whole + "" == whole;
      ReadShow(coefficient);
    } else {
      var init := whole + Fraction(coefficient / 10, scale - 1);
      var text := whole + Fraction(coefficient, scale);
      assert text[..|text| - 1] == init;
      assert text[|text| - 1] == DigitChar(coefficient % 10);
      ReadJoined(coefficient / 10, scale - 1);
    }
  }

  /** At most 40 digits, at most 30 of them behind the point. */
  predicate Short(d: Decimal) {
    |Show(Whole(d.coefficient, d.scale))| + d.scale <= 40 && d.scale <= 30
  }

  lemma ParseFixed(d: Decimal)
    requires Short(d)
    ensures Accepted(Fixed(d)) && Parse(Fixed(d)) == d
  {
    FixedParts(d);
    ReadShow(Whole(d.coefficient, d.scale));
    ReadJoined(d.coefficient, d.scale);
  }

  lemma {:induction false} FractionOfJoined(whole: string, fraction: string)
    requires Digits(whole) && Digits(fraction)
    ensures Fraction(Read(whole + fraction), |fraction|) == fraction
  {
    if fraction != "" {
      var n := |fraction| - 1;
      var init, last := fraction[..n], fraction[n];
      assert (whole + fraction)[..|whole + fraction| - 1] == whole + init;
      FractionOfJoined(whole, init);
      LastDigit(Read(whole + init), DigitValue(last));
      assert DigitChar(DigitValue(last)) == last;
      assert fraction == init + [last];
    }
  }

  lemma LastDigit(n: nat, d: nat)
    requires d < 10
    ensures (10 * n + d) % 10 == d && (10 * n + d) / 10 == n
  {
  }

  lemma FixedParse(text: string)
    requires Accepted(text)
    ensures Fixed(Parse(text)) == text && Short(Parse(text))
  {
    hide Read, Show, Whole, Fraction;
    FractionOfJoined(Integer(text), Fractional(text));
    WholeOfJoined(Integer(text), Fractional(text));
    ShowRead(Integer(text));
  }

  /** The texts accepted are the fixed notations of numbers of so many digits, and no others. */
  lemma AcceptedExactly(text: string)
    ensures Accepted(text) <==> exists d: Decimal :: Short(d) && text == Fixed(d)
  {
    hide Accepted, Fixed, Parse, Short;
    if Accepted(text) {
      FixedParse(text);
    }
    if d: Decimal :| Short(d) && text == Fixed(d) {
      ParseFixed(d);
    }
  }

  // ---- the canonical text -------------------------------------------------------------------------------

  /** The value without trailing zeros behind the point. */
  function Normal(d: Decimal): Decimal
    decreases d.scale
  {
    if d.coefficient == 0 then Decimal(0, 0)
    else if d.scale > 0 && d.coefficient % 10 == 0 then Normal(Decimal(d.coefficient / 10, d.scale - 1))
    else d
  }

  lemma StripDigits(text: string, c: char)
    requires text != "" && Digits(text) && !IsDigit(c)
    ensures StripRight(text, c) == text && c !in text
  {
  }

  lemma PointIn(d: Decimal)
    ensures '.' in Fixed(d) <==> d.scale > 0
  {
    var whole := Show(Whole(d.coefficient, d.scale));
    if d.scale == 0 {
      assert Fixed(d) == whole;
      StripDigits(whole, '.');
    } else {
      assert Fixed(d)[|whole|] == '.';
    }
  }

  lemma StripLast(init: string, x: char, c: char)
    ensures StripRight(init + [x], c) == if x == c then StripRight(init, c) else init + [x]
  {
    assert (init + [x])[..|init|] == init;
  }

  /** The fixed notation up to its last fractional digit. */
  function Stem(d: Decimal): string
    requires d.scale > 0
  {
    Show(Whole(d.coefficient, d.scale)) + "." + Fraction(d.coefficient / 10, d.scale - 1)
  }

  lemma FixedStem(d: Decimal)
    requires d.scale > 0
    ensures Fixed(d) == Stem(d) + [DigitChar(d.coefficient % 10)]
    ensures d.scale > 1 ==> Stem(d) == Fixed(Decimal(d.coefficient / 10, d.scale - 1))
    ensures d.scale == 1 ==> Stem(d) == Fixed(Decimal(d.coefficient / 10, 0)) + "."
  {
  }

  lemma ZeroDigit(n: nat)
    requires n < 10
    ensures DigitChar(n) == '0' <==> n == 0
    ensures DigitChar(n) != '.'
  {
    assert DigitValue('0') == 0;
  }

  /** Behind the point a trailing zero is dropped, and with the last one the point. */
  lemma TextStep(d: Decimal)
    requires d.coefficient > 0 && d.scale > 0
    ensures Text(d) == if d.coefficient % 10 == 0 then Text(Decimal(d.coefficient / 10, d.scale - 1)) else Fixed(d)
  {
    hide Fixed, Stem, Whole, Fraction, Show, DigitChar, StripRight;
    var shorter := Decimal(d.coefficient / 10, d.scale - 1);
    var last := DigitChar(d.coefficient % 10);
    PointIn(d);
    PointIn(shorter);
    FixedStem(d);
    ZeroDigit(d.coefficient % 10);
    StripLast(Stem(d), last, '0');
    if d.coefficient % 10 != 0 {
      StripLast(Stem(d), last, '.');
    } else if d.scale == 1 {
      StripLast(Fixed(shorter), '.', '0');
      StripLast(Fixed(shorter), '.', '.');
      NoPointToStrip(shorter);
    }
  }

  lemma NoPointToStrip(d: Decimal)
    requires d.scale == 0
    ensures StripRight(Fixed(d), '.') == Fixed(d)
  {
    assert Fixed(d) == Show(d.coefficient);
    StripDigits(Show(d.coefficient), '.');
  }

  lemma {:induction false} TextOfNormal(d: Decimal)
    ensures Text(d) == Fixed(Normal(d))
    decreases d.scale
  {
    if d.coefficient == 0 {
      assert Fixed(Decimal(0, 0)) == "0" by {
        assert DigitValue('0') == 0;
        assert Show(0) == [DigitChar(0)];
      }
    } else if d.scale == 0 {
      PointIn(d);
    } else {
      TextStep(d);
      if d.coefficient % 10 == 0 {
        TextOfNormal(Decimal(d.coefficient / 10, d.scale - 1));
      }
    }
  }

  lemma {:induction false} NormalFacts(d: Decimal)
    ensures Value(Normal(d)) == Value(d)
    ensures Normal(d).scale <= d.scale && Whole(Normal(d).coefficient, Normal(d).scale) == Whole(d.coefficient, d.scale)
    ensures Normal(Normal(d)) == Normal(d)
    decreases d.scale
  {
    if d.coefficient == 0 {
      WholeOfZero(d.scale);
    } else if d.scale > 0 && d.coefficient % 10 == 0 {
      var shorter := Decimal(d.coefficient / 10, d.scale - 1);
      NormalFacts(shorter);
      TenfoldFraction(shorter.coefficient, Pow10(shorter.scale));
    }
  }

  lemma {:induction false} WholeOfZero(scale: nat)
    ensures Whole(0, scale) == 0
  {
    if scale > 0 {
      WholeOfZero(scale - 1);
    }
  }

  lemma TenfoldFraction(c: nat, t: nat)
    requires t >= 1
    ensures (10 * c) as real / (10 * t) as real == c as real / t as real
  {
    var r := c as real / t as real;
    assert r * t as real == c as real;
    assert r * (10 * t) as real == (10 * c) as real;
  }

  lemma CrossMultiply(c: nat, s: nat, c': nat, s': nat)
    requires s >= 1 && s' >= 1
    requires c as real / s as real == c' as real / s' as real
    ensures c * s' == c' * s
  {
    var r := c as real / s as real;
    assert r * s as real == c as real;
    assert r * s' as real == c' as real;
    Reorder(r, s as real, s' as real);
    assert (c * s') as real == c as real * s' as real;
    assert (c' * s) as real == c' as real * s as real;
  }

  lemma Reorder(r: real, x: real, y: real)
    ensures (r * x) * y == (r * y) * x
  {
  }

  predicate IsNormal(d: Decimal) {
    if d.coefficient == 0 then d.scale == 0 else d.scale == 0 || d.coefficient % 10 != 0
  }

  lemma {:induction false} NormalIsNormal(d: Decimal)
    ensures IsNormal(Normal(d))
    decreases d.scale
  {
    if d.coefficient != 0 && d.scale > 0 && d.coefficient % 10 == 0 {
      NormalIsNormal(Decimal(d.coefficient / 10, d.scale - 1));
    }
  }

  /** Without trailing zeros there is one way to write a value. */
  lemma NormalUnique(d: Decimal, e: Decimal)
    requires IsNormal(d) && IsNormal(e) && Value(d) == Value(e)
    ensures d == e
  {
    CrossMultiply(d.coefficient, Pow10(d.scale), e.coefficient, Pow10(e.scale));
    if d.scale <= e.scale {
      NormalUniqueOrdered(d, e);
    } else {
      NormalUniqueOrdered(e, d);
    }
  }

  lemma NormalUniqueOrdered(d: Decimal, e: Decimal)
    requires IsNormal(d) && IsNormal(e) && d.scale <= e.scale
    requires d.coefficient * Pow10(e.scale) == e.coefficient * Pow10(d.scale)
    ensures d == e
  {
    var k := e.scale - d.scale;
    Pow10Add(d.scale, k);
    Cancel(d.coefficient * Pow10(k), e.coefficient, Pow10(d.scale));
    assert d.coefficient * Pow10(k) == e.coefficient by {
      Regroup(d.coefficient, Pow10(d.scale), Pow10(k));
    }
    if k > 0 {
      TenDivides(d.coefficient, Pow10(k - 1));
    }
  }

  lemma Regroup(a: nat, b: nat, c: nat)
    ensures a * (b * c) == (a * c) * b
  {
  }

  lemma Cancel(a: nat, b: nat, c: nat)
    requires c >= 1
    ensures a * c == b * c ==> a == b
  {
    if a < b {
      Below(a, b, c);
    } else if b < a {
      Below(b, a, c);
    }
  }

  lemma Below(a: nat, b: nat, c: nat)
    requires a < b && c >= 1
    ensures a * c < b * c
  {
    assert (b - a) * c >= 1;
  }

  lemma TenDivides(a: nat, b: nat)
    ensures (a * (10 * b)) % 10 == 0
  {
    assert a * (10 * b) == 10 * (a * b);
  }

  /** Printing depends on the value alone, and tells values apart. */
  lemma TextExactlyForEqualValues(d: Decimal, e: Decimal)
    ensures Value(d) == Value(e) <==> Text(d) == Text(e)
  {
    TextOfNormal(d);
    TextOfNormal(e);
    NormalFacts(d);
    NormalFacts(e);
    if Value(d) == Value(e) {
      NormalIsNormal(d);
      NormalIsNormal(e);
      NormalUnique(Normal(d), Normal(e));
    }
    if Text(d) == Text(e) {
      FixedInjective(Normal(d), Normal(e));
    }
  }

  lemma FixedInjective(d: Decimal, e: Decimal)
    requires Fixed(d) == Fixed(e)
    ensures d == e
  {
    FixedParts(d);
    FixedParts(e);
    ReadJoined(d.coefficient, d.scale);
    ReadJoined(e.coefficient, e.scale);
  }

  /** The integer part of an accepted text is the integer part of what it denotes. */
  lemma {:induction false} WholeOfJoined(whole: string, fraction: string)
    requires Digits(whole) && Digits(fraction)
    ensures Digits(whole + fraction) && Whole(Read(whole + fraction), |fraction|) == Read(whole)
  {
    if fraction == "" {
      assert whole + fraction == whole;
    } else {
      var text := whole + fraction;
      var init := fraction[..|fraction| - 1];
      assert text[..|text| - 1] == whole + init;
      WholeOfJoined(whole, init);
    }
  }

  /** Whatever text is accepted, the text printed for its value is accepted, and read back it is the same
      value without trailing zeros. */
  lemma AcceptedRoundTrip(text: string)
    requires Accepted(text)
    ensures Accepted(Text(Parse(text)))
    ensures Parse(Text(Parse(text))) == Normal(Parse(text))
    ensures Value(Parse(Text(Parse(text)))) == Value(Parse(text))
    ensures Text(Parse(Text(Parse(text)))) == Text(Parse(text))
  {
    var d := Parse(text);
    WholeOfJoined(Integer(text), Fractional(text));
    ShowRead(Integer(text));
    NormalFacts(d);
    TextOfNormal(d);
    ParseFixed(Normal(d));
    TextOfNormal(Normal(d));
  }
}
