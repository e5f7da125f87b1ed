/**
 * The numeric conversions the time sheet relies on: `float(s)` on the
 * strings it stores, `round(x, 2)`, the `f"{x:.2f}"` spelling of amounts and
 * totals, and `str()` of a float that has been rounded to two decimals (the
 * text whose length decides a column's width).
 *
 * Numbers are exact reals: a value rounded to two decimals is a sign and a
 * whole number of hundredths, which is what the code's floats stand for.
 */
module Numbers {
  import opened Options
  import opened Text

  function Pow10(n: nat): (p: nat)
    ensures p >= 1
  {
    if n == 0 then 1 else 10 * Pow10(n - 1)
  }

  /** A character of the unsigned numbers `float()` accepts here: a decimal digit or the point. */
  predicate IsNumberChar(c: char) {
    IsDigit(c) || c == '.'
  }

  /** The unsigned part of `float(s)`: digits, optionally a point and more digits, at least one digit. */
  function ParseUnsigned(s: string): (r: Option<real>)
    ensures r.Some? ==> r.value >= 0.0
    ensures r.Some? ==> s != [] && forall k :: 0 <= k < |s| ==> IsNumberChar(s[k])
    ensures s != [] && AllDigits(s) ==> r == Some(DigitsValue(s) as real)
  {
    DigitsHaveNoPoint(s);
    var parts := Split(s, '.');
    if |parts| == 1 && s != [] && AllDigits(s) then
      Some(DigitsValue(s) as real)
    else if |parts| == 2 && AllDigits(parts[0]) && AllDigits(parts[1]) && |parts[0]| + |parts[1]| > 0 then
      PointedChars(s, parts);
      Some(DigitsValue(parts[0]) as real + DigitsValue(parts[1]) as real / Pow10(|parts[1]|) as real)
    else
      None
  }

  /** A text that splits at the point into two digit strings is made of digits and that point. */
  lemma {:induction false} PointedChars(s: string, parts: seq<string>)
    requires parts == Split(s, '.') && |parts| == 2 && AllDigits(parts[0]) && AllDigits(parts[1])
    ensures forall k :: 0 <= k < |s| ==> IsNumberChar(s[k])
  {
    SplitJoin(s, '.');
    assert s == parts[0] + ['.'] + parts[1];
  }

  /**
   * `float(s)` on the texts the application writes, `None` standing for the
   * `ValueError`. This model accepts only an optional sign, digits and one
   * optional point, so it rejects the empty text and the placeholders; Python
   * also accepts surrounding whitespace, exponents, underscores, "inf" and
   * "nan", which are not modelled. A digit string means its decimal value.
   */
  function ParseNumber(s: string): (r: Option<real>)
    ensures r.Some? ==> s != [] && forall k :: 0 <= k < |s| ==> IsNumberChar(s[k]) || (k == 0 && (s[0] == '-' || s[0] == '+'))
    ensures r.Some? ==> (r.value < 0.0 ==> s[0] == '-')
    ensures s != [] && AllDigits(s) ==> r == Some(DigitsValue(s) as real)
  {
    if s != [] && (s[0] == '-' || s[0] == '+') then
      match ParseUnsigned(s[1..])
      case Some(v) =>
        assert forall k :: 1 <= k < |s| ==> s[k] == s[1..][k - 1];
        Some(if s[0] == '-' then -v else v)
      case None => None
    else
      ParseUnsigned(s)
  }

  /** A float rounded to two decimals: its sign bit and its magnitude in hundredths. */
  datatype Decimal2 = Decimal2(negative: bool, cents: nat) {
    function Value(): real {
      (if negative then -1.0 else 1.0) * cents as real / 100.0
    }
  }

  /** The integer nearest to `y`, ties going to the even one. */
  function RoundHalfEven(y: real): (n: nat)
    requires y >= 0.0
    ensures -0.5 <= n as real - y <= 0.5
    ensures (n as real - y == 0.5 || y - n as real == 0.5) ==> n % 2 == 0
  {
    var f := y.Floor;
    var frac := y - f as real;
    if frac > 0.5 || (frac == 0.5 && f % 2 == 1) then f + 1 else f
  }

  /** `round(x, 2)`: nearest hundredth, ties to even, keeping the sign of a negative that rounds to zero. */
  function Round2(x: real): (d: Decimal2)
    ensures d.negative <==> x < 0.0
    ensures -0.005 <= d.Value() - x <= 0.005
  {
    var m := if x < 0.0 then -x else x;
    var n := RoundHalfEven(m * 100.0);
    var d := Decimal2(x < 0.0, n);
    assert d.Value() == (if x < 0.0 then -1.0 else 1.0) * (n as real / 100.0);
    d
  }

  /** `f"{v:.2f}"` for a value already rounded to hundredths. */
  function FormatFixed2(d: Decimal2): (s: string)
    ensures |s| >= 4 && s[|s| - 3] == '.'
    ensures s[0] == '-' <==> d.negative
    ensures AllDigits(s[|s| - 2..]) && DigitsValue(s[|s| - 2..]) == d.cents % 100
  {
    (if d.negative then "-" else "") + NatToString(d.cents / 100) + "." + Pad2(d.cents % 100)
  }

  /** `f"{x:.2f}"`: the text an amount or a total is stored and shown as. */
  function FormatAmount(x: real): (s: string)
    ensures |s| >= 4 && s[|s| - 3] == '.'
    ensures s[0] == '-' <==> x < 0.0
  {
    FormatFixed2(Round2(x))
  }

  /** The fractional digits `repr` prints: trailing zeros dropped, at least one digit kept. */
  function ReprFraction(h: nat): (s: string)
    requires h < 100
    ensures |s| >= 1 && AllDigits(s)
    ensures DigitsValue(s) as real / Pow10(|s|) as real == h as real / 100.0
    ensures |s| <= 2 && (|s| == 1 || s[|s| - 1] != '0')
  {
    if h == 0 then "0"
    else if h % 10 == 0 then [DigitChar(h / 10)]
    else Pad2(h)
  }

  /** `str(v)` of a float rounded to two decimals (below 1e16, where Python switches to exponents). */
  function Repr(d: Decimal2): (s: string)
    ensures |s| >= 3 && IsDigit(s[|s| - 1])
    ensures s[0] == '-' <==> d.negative
    ensures s[|s| - 2] == '.' || (s[|s| - 3] == '.' && s[|s| - 1] != '0')
  {
    (if d.negative then "-" else "") + NatToString(d.cents / 100) + "." + ReprFraction(d.cents % 100)
  }

  lemma {:induction false} DigitsHaveNoPoint(s: string)
    ensures AllDigits(s) ==> Split(s, '.') == [s]
  {
    if AllDigits(s) {
      SplitNoSeparator(s, '.');
    }
  }

  /** Parsing `whole "." frac`, where both halves are digit strings, gives whole + frac / 10^|frac|. */
  lemma {:induction false} ParsePointed(whole: string, frac: string)
    requires AllDigits(whole) && AllDigits(frac) && |whole| >= 1
    ensures ParseUnsigned(whole + "." + frac)
         == Some(DigitsValue(whole) as real + DigitsValue(frac) as real / Pow10(|frac|) as real)
  {
    SplitAtSeparator(whole, '.', frac);
    DigitsHaveNoPoint(frac);
    assert whole + "." + frac == whole + ['.'] + frac;
  }

  /** A value decomposed into `whole` hundreds and remainder `h` hundredths. */
  lemma {:induction false} SplitHundredths(c: nat)
    ensures (c / 100) as real + (c % 100) as real / 100.0 == c as real / 100.0
  {
    assert c == (c / 100) * 100 + c % 100;
    assert c as real == ((c / 100) * 100) as real + (c % 100) as real;
  }

  /** Signed parse of a text whose unsigned part parses, with an optional leading minus. */
  lemma {:induction false} ParseSigned(negative: bool, body: string, v: real)
    requires body != [] && IsDigit(body[0])
    requires ParseUnsigned(body) == Some(v)
    ensures ParseNumber((if negative then "-" else "") + body) == Some(if negative then -v else v)
  {
    var s := (if negative then "-" else "") + body;
    if negative {
      assert s[0] == '-' && s[1..] == body;
    } else {
      assert s == body;
    }
  }

  /**
   * A rounded value spelled as its sign, its whole part, a point and any
   * digits worth its hundredths parses back to the value.
   */
  lemma {:induction false} ParseDecimal(d: Decimal2, frac: string)
    requires AllDigits(frac) && DigitsValue(frac) as real / Pow10(|frac|) as real == (d.cents % 100) as real / 100.0
    ensures ParseNumber((if d.negative then "-" else "") + NatToString(d.cents / 100) + "." + frac) == Some(d.Value())
  {
    var whole := NatToString(d.cents / 100);
    ParsePointed(whole, frac);
    SplitHundredths(d.cents);
    var v := d.cents as real / 100.0;
    assert ParseUnsigned(whole + "." + frac) == Some(v);
    assert (whole + "." + frac)[0] == whole[0];
    ParseSigned(d.negative, whole + "." + frac, v);
    assert (if d.negative then "-" else "") + whole + "." + frac == (if d.negative then "-" else "") + (whole + "." + frac);
    assert (if d.negative then -v else v) == d.Value();
  }

  /** `float(f"{v:.2f}")` gives back `v`: the stored text of an amount parses to the rounded amount. */
  lemma {:induction false} ParseFormatFixed2(d: Decimal2)
    ensures ParseNumber(FormatFixed2(d)) == Some(d.Value())
  {
    var frac := Pad2(d.cents % 100);
    assert Pow10(|frac|) == 100 by {
      assert Pow10(2) == 10 * Pow10(1) == 10 * 10 * Pow10(0);
    }
    ParseDecimal(d, frac);
  }

  /** `float(str(v)) == v` for a value rounded to two decimals: the repr round-trips. */
  lemma {:induction false} ParseRepr(d: Decimal2)
    ensures ParseNumber(Repr(d)) == Some(d.Value())
  {
    ParseDecimal(d, ReprFraction(d.cents % 100));
  }

  /**
   * An amount stored as `f"{x:.2f}"` and later read back with `float()` is
   * within half a hundredth of `x`.
   */
  lemma {:induction false} StoredAmountRoundTrip(x: real)
    ensures ParseNumber(FormatAmount(x)).Some?
    ensures -0.005 <= ParseNumber(FormatAmount(x)).value - x <= 0.005
  {
    ParseFormatFixed2(Round2(x));
  }
}
