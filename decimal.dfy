/** Numbers of the template language. The source stores them as float64;
    this model keeps them as exact finite decimals mantissa / 10^scale in
    a normal form (no trailing zero in the mantissa when the scale is
    positive), so that equal numbers have equal representations. Reading
    (strconv.ParseFloat) and printing (fmt's %.0f and %g) are modelled on
    this decimal form; binary rounding is not modelled. */
module Decimal {
  import opened Strings
  import opened Wrappers

  datatype Number = Number(mantissa: int, scale: nat)

  predicate Normal(n: Number) {
    n.scale == 0 || n.mantissa % 10 != 0
  }

  /** The two numbers denote the same rational value. */
  predicate SameValue(a: Number, b: Number) {
    a.mantissa * Pow10(b.scale) == b.mantissa * Pow10(a.scale)
  }

  function FromInt(i: int): (n: Number)
    ensures Normal(n) && n.mantissa == i && n.scale == 0
  {
    Number(i, 0)
  }

  const Zero: Number := Number(0, 0)

  /** Drops trailing zeros of the mantissa while the scale allows. */
  function Normalize(m: int, s: nat): (n: Number)
    ensures Normal(n) && n.scale <= s
    ensures n.mantissa < 0 <==> m < 0
    decreases s
  {
    if s > 0 && m % 10 == 0 then
      assert m == (m / 10) * 10;
      Normalize(m / 10, s - 1)
    else Number(m, s)
  }

  /** Normalizing keeps the value. */
  lemma {:induction false} NormalizeValue(m: int, s: nat)
    ensures SameValue(Normalize(m, s), Number(m, s))
    decreases s
  {
    if s > 0 && m % 10 == 0 {
      NormalizeValue(m / 10, s - 1);
      assert m == (m / 10) * 10;
      assert Pow10(s) == 10 * Pow10(s - 1);
    }
  }

  lemma Pow10Add(a: nat, b: nat)
    ensures Pow10(a + b) == Pow10(a) * Pow10(b)
    decreases b
  {
    if b > 0 {
      Pow10Add(a, b - 1);
    }
  }

  /** Normal forms are unique: two normal numbers with the same value are
      the same number. */
  lemma {:induction false} NormalUnique(a: Number, b: Number)
    requires Normal(a) && Normal(b) && SameValue(a, b)
    ensures a == b
  {
    if a.scale < b.scale {
      ScaledMultiple(a, b);
    } else if b.scale < a.scale {
      ScaledMultiple(b, a);
    } else {
      assert a.mantissa * Pow10(a.scale) == b.mantissa * Pow10(a.scale);
    }
  }

  /** Equal values at a smaller scale force a trailing zero at the larger. */
  lemma ScaledMultiple(a: Number, b: Number)
    requires SameValue(a, b) && a.scale < b.scale
    ensures b.mantissa % 10 == 0
  {
    var d := b.scale - a.scale;
    var c := Pow10(a.scale);
    Pow10Add(a.scale, d);
    assert Pow10(d) == 10 * Pow10(d - 1);
    var k := a.mantissa * Pow10(d - 1);
    calc {
      b.mantissa * c;
      a.mantissa * Pow10(b.scale);
      a.mantissa * (c * Pow10(d));
      { MulAssoc(a.mantissa, c, Pow10(d)); }
      (a.mantissa * Pow10(d)) * c;
    }
    Cancel(b.mantissa, a.mantissa * Pow10(d), c);
    MulAssoc(a.mantissa, 10, Pow10(d - 1));
    assert b.mantissa == 10 * k;
  }

  lemma MulAssoc(x: int, y: int, z: int)
    ensures x * (y * z) == (x * y) * z == (x * z) * y
  {
  }

  lemma Cancel(x: int, y: int, c: int)
    requires c > 0 && x * c == y * c
    ensures x == y
  {
    assert (x - y) * c == 0;
  }

  function Neg(n: Number): (r: Number)
    ensures r.mantissa == -n.mantissa && r.scale == n.scale
    ensures Normal(n) ==> Normal(r)
  {
    Number(-n.mantissa, n.scale)
  }

  function Abs(n: Number): (r: Number)
    ensures r.mantissa >= 0 && r.scale == n.scale
    ensures r.mantissa == n.mantissa || r.mantissa == -n.mantissa
    ensures Normal(n) ==> Normal(r)
  {
    if n.mantissa < 0 then Neg(n) else n
  }

  function IsZero(n: Number): bool {
    n.mantissa == 0
  }

  /** Exact sum, put back in normal form. */
  function Sum(a: Number, b: Number): (r: Number)
    ensures Normal(r)
    ensures SameValue(r, Number(a.mantissa * Pow10(b.scale) + b.mantissa * Pow10(a.scale), a.scale + b.scale))
  {
    NormalizeValue(a.mantissa * Pow10(b.scale) + b.mantissa * Pow10(a.scale), a.scale + b.scale);
    Normalize(a.mantissa * Pow10(b.scale) + b.mantissa * Pow10(a.scale), a.scale + b.scale)
  }

  /** a < b on the values. */
  predicate Less(a: Number, b: Number) {
    a.mantissa * Pow10(b.scale) < b.mantissa * Pow10(a.scale)
  }

  predicate LessOrEqual(a: Number, b: Number) {
    a.mantissa * Pow10(b.scale) <= b.mantissa * Pow10(a.scale)
  }

  // ---------------------------------------------------------------
  // Reading: the decimal subset of strconv.ParseFloat
  // ---------------------------------------------------------------

  /** Index of the first '.' in s, or |s| when there is none. */
  function DotIndex(s: string): (k: nat)
    ensures k <= |s|
    ensures forall i :: 0 <= i < k ==> s[i] != '.'
    ensures k < |s| ==> s[k] == '.'
  {
    if s == [] then 0 else if s[0] == '.' then 0 else 1 + DotIndex(s[1..])
  }

  /** digits[.digits] with at least one digit in all. */
  function ParseUnsigned(s: string): (r: Option<Number>)
    ensures r.Some? ==> Normal(r.value) && r.value.mantissa >= 0
  {
    var k := DotIndex(s);
    var whole := s[..k];
    var frac := if k < |s| then s[k + 1..] else "";
    if AllDigits(whole) && AllDigits(frac) && |whole| + |frac| > 0 then
      Some(Normalize(DigitsValue(whole + frac), |frac|))
    else None
  }

  /** strconv.ParseFloat restricted to an optional sign followed by a
      plain decimal. Every other text is None, including the exponent,
      infinity, NaN and hexadecimal forms ParseFloat also accepts. */
  function ParseDecimal(s: string): (r: Option<Number>)
    ensures r.Some? ==> Normal(r.value)
  {
    if s != [] && (s[0] == '+' || s[0] == '-') then
      match ParseUnsigned(s[1..])
      case None => None
      case Some(n) => Some(if s[0] == '-' then Neg(n) else n)
    else ParseUnsigned(s)
  }

  // ---------------------------------------------------------------
  // Printing: %.0f for integral values, shortest %g otherwise
  // ---------------------------------------------------------------

  /** Decimal exponent of the leading digit of a non-zero mantissa. */
  function Exponent(n: Number): int {
    |NatToString(if n.mantissa < 0 then -n.mantissa else n.mantissa)| - 1 - n.scale
  }

  /** %g switches to exponent form below 1e-4 and from 1e6 on. */
  predicate UsesExponent(n: Number) {
    var x := Exponent(n);
    x < -4 || x >= 6
  }

  /** At least two exponent digits, as %e writes them. */
  function ExponentDigits(e: nat): (s: string)
    ensures |s| >= 2 && AllDigits(s)
  {
    if e < 10 then "0" + [DigitChar(e)] else NatToString(e)
  }

  /** The digits of a non-negative non-integral number in plain form. */
  function PlainFraction(digits: string, scale: nat): (s: string)
    requires 0 < scale
  {
    if scale < |digits| then digits[..|digits| - scale] + "." + digits[|digits| - scale..]
    else "0." + Repeat("0", scale - |digits|) + digits
  }

  /** The digits of a non-zero number in exponent form. */
  function ExponentForm(digits: string, x: int): string
    requires |digits| > 0
  {
    [digits[0]] + (if |digits| > 1 then "." + digits[1..] else "")
    + "e" + (if x < 0 then "-" else "+") + ExponentDigits(if x < 0 then -x else x)
  }

  /** NumberValue.AsString: integral values as %.0f, others as %g. */
  function NumberString(n: Number): (s: string)
    requires Normal(n)
    ensures |s| > 0
  {
    if n.scale == 0 then IntToString(n.mantissa)
    else
      var sign := if n.mantissa < 0 then "-" else "";
      var digits := NatToString(Abs(n).mantissa);
      sign + (if UsesExponent(n) then ExponentForm(digits, Exponent(n))
              else PlainFraction(digits, n.scale))
  }

  /** %g writes 1234567.5 in exponent form, as 1.2345675e+06. */
  lemma LargeUsesExponent()
    ensures NumberString(Number(12345675, 1)) == "1.2345675e+06"
  {
    var n := Number(12345675, 1);
    EightDigits();
    ExponentFormOf(n);
    LargeForm();
  }

  lemma LargeForm()
    ensures ExponentForm("12345675", 6) == "1.2345675e+06"
  {
    assert ExponentDigits(6) == "06";
  }

  lemma EightDigits()
    ensures NatToString(12345675) == "12345675"
  {
    assert NatToString(12) == "12";
    assert NatToString(123) == "123";
    assert NatToString(1234) == "1234";
    assert NatToString(12345) == "12345";
    assert NatToString(123456) == "123456";
    assert NatToString(1234567) == "1234567";
  }

  /** A fraction whose leading digit lies outside %g's plain range. */
  lemma ExponentFormOf(n: Number)
    requires Normal(n) && n.scale > 0 && UsesExponent(n)
    ensures NumberString(n) == (if n.mantissa < 0 then "-" else "")
                               + ExponentForm(NatToString(Abs(n).mantissa), Exponent(n))
  {
  }

  /** %g writes -0.0000015 in exponent form, as -1.5e-06. */
  lemma SmallUsesExponent()
    ensures NumberString(Number(-15, 7)) == "-1.5e-06"
  {
    var n := Number(-15, 7);
    assert NatToString(15) == "15";
    assert Abs(n).mantissa == 15;
    assert Exponent(n) == -6;
    ExponentFormOf(n);
    assert ExponentDigits(6) == "06";
    assert ExponentForm("15", -6) == "1" + ".5" + "e" + "-" + "06";
  }

  /** At the bounds of the plain range, 0.0001 and 123456.5 stay plain. */
  lemma BoundsStayPlain()
    ensures NumberString(Number(1, 4)) == "0.0001"
    ensures NumberString(Number(1234565, 1)) == "123456.5"
  {
    assert NatToString(1) == "1";
    assert Exponent(Number(1, 4)) == -4;
    assert Repeat("0", 3) == "000";
    assert NatToString(12) == "12";
    assert NatToString(123) == "123";
    assert NatToString(1234) == "1234";
    assert NatToString(12345) == "12345";
    assert NatToString(123456) == "123456";
    assert NatToString(1234565) == "1234565";
    assert Exponent(Number(1234565, 1)) == 5;
  }

  /** An integral number prints as its integer text, which reads back as
      the same number. */
  lemma {:induction false} IntegralRoundTrip(i: int)
    ensures NumberString(FromInt(i)) == IntToString(i)
    ensures ParseDecimal(IntToString(i)) == Some(FromInt(i))
  {
    var a := if i < 0 then -i else i;
    var d := NatToString(a);
    UnsignedDigits(d);
    DigitsValueOfNatToString(a);
    if i < 0 {
      assert IntToString(i)[1..] == d;
    } else {
      assert d[0] != '-' && d[0] != '+';
    }
  }

  /** A run of digits reads back as its value with scale 0. */
  lemma UnsignedDigits(d: string)
    requires AllDigits(d) && |d| > 0
    ensures ParseUnsigned(d) == Some(Number(DigitsValue(d), 0))
  {
    var k := DotIndex(d);
    assert k == |d|;
    assert d[..k] == d;
    assert d[..k] + "" == d;
  }

  /** A non-negative number that prints in plain form (an integer, or a
      fraction %g writes without an exponent) reads back as itself. */
  lemma PlainRoundTrip(n: Number)
    requires Normal(n) && n.mantissa >= 0 && !(n.scale > 0 && UsesExponent(n))
    ensures ParseDecimal(NumberString(n)) == Some(n)
  {
    if n.scale == 0 {
      IntegralRoundTrip(n.mantissa);
    } else {
      FractionRoundTrip(n);
    }
  }

  lemma FractionRoundTrip(n: Number)
    requires Normal(n) && n.mantissa >= 0 && n.scale > 0 && !UsesExponent(n)
    ensures ParseDecimal(NumberString(n)) == Some(n)
  {
    assert NumberString(n) == PlainFraction(NatToString(n.mantissa), n.scale);
    ReadPlainFraction(n.mantissa, n.scale);
  }

  /** The plain form of mantissa / 10^scale reads back as that number. */
  lemma ReadPlainFraction(m: nat, sc: nat)
    requires 0 < sc && m % 10 != 0
    ensures ParseDecimal(PlainFraction(NatToString(m), sc)) == Some(Number(m, sc))
  {
    var d := NatToString(m);
    DigitsValueOfNatToString(m);
    var whole, frac;
    if sc < |d| {
      whole, frac := SplitDigits(d, sc);
    } else {
      whole, frac := PadDigits(d, sc);
    }
    ReadFraction(whole, frac);
    assert Normalize(m, sc) == Number(m, sc);
  }

  /** The integral and fractional digits when there are more digits than
      the scale. */
  lemma SplitDigits(d: string, sc: nat) returns (whole: string, frac: string)
    requires 0 < sc < |d| && AllDigits(d)
    ensures PlainFraction(d, sc) == whole + "." + frac
    ensures AllDigits(whole) && AllDigits(frac) && |whole| > 0 && |frac| == sc
    ensures AllDigits(whole + frac) && DigitsValue(whole + frac) == DigitsValue(d)
  {
    whole, frac := d[..|d| - sc], d[|d| - sc..];
    assert whole + frac == d;
  }

  /** "0." and zeros before the digits when the scale reaches past them. */
  lemma PadDigits(d: string, sc: nat) returns (whole: string, frac: string)
    requires 0 < sc && |d| <= sc && AllDigits(d)
    ensures PlainFraction(d, sc) == whole + "." + frac
    ensures AllDigits(whole) && AllDigits(frac) && |whole| > 0 && |frac| == sc
    ensures AllDigits(whole + frac) && DigitsValue(whole + frac) == DigitsValue(d)
  {
    var zeros := Repeat("0", sc - |d|);
    whole, frac := "0", zeros + d;
    RepeatZeros(sc - |d|);
    var z := "0" + zeros;
    assert forall i :: 0 < i < |z| ==> z[i] == zeros[i - 1];
    LeadingZerosValue(z, d);
    assert z + d == whole + frac;
    assert "0." + zeros + d == whole + "." + frac;
  }

  /** digits "." digits reads as the digits' value over 10^|frac|. */
  lemma ReadFraction(whole: string, frac: string)
    requires AllDigits(whole) && AllDigits(frac) && |whole| > 0
    ensures AllDigits(whole + frac)
    ensures ParseDecimal(whole + "." + frac) == Some(Normalize(DigitsValue(whole + frac), |frac|))
  {
    var s := whole + "." + frac;
    assert s[|whole|] == '.';
    assert s[..|whole|] == whole;
    assert s[|whole| + 1..] == frac;
    assert s[0] == whole[0];
    assert forall i :: 0 <= i < |whole| ==> s[i] == whole[i];
    assert DotIndex(s) == |whole|;
    assert ParseDecimal(s) == ParseUnsigned(s);
  }

  /** A normal number is its own normal form. */
  lemma NormalizeNormal(n: Number)
    requires Normal(n)
    ensures Normalize(n.mantissa, n.scale) == n
  {
  }

  /** A negative number prints as '-' before the text of its negation. */
  lemma NegativeText(n: Number)
    requires Normal(n) && n.mantissa < 0
    ensures NumberString(n) == "-" + NumberString(Neg(n))
    ensures UsesExponent(Neg(n)) == UsesExponent(n)
  {
    assert Abs(Neg(n)) == Abs(n);
    assert Exponent(Neg(n)) == Exponent(n);
  }
}
