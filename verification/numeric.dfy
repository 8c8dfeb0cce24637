/** Decimal text and number conversions used by the number platform:
    `int(float(v))` when a channel value is read and `f"{value:.0f}"` when a value is
    written back. JSON and Python floats are modelled as `real`, so binary rounding
    error is not represented. */
module Numeric {
  import opened Wrappers

  predicate IsDigit(c: char) {
    '0' <= c <= '9'
  }

  predicate AllDigits(s: string) {
    forall i :: 0 <= i < |s| ==> IsDigit(s[i])
  }

  function DigitOf(c: char): nat
    requires IsDigit(c)
  {
    c as int - '0' as int
  }

  function DigitChar(d: nat): (c: char)
    requires d < 10
    ensures IsDigit(c) && DigitOf(c) == d
  {
    (d + '0' as int) as char
  }

  /** Value of a run of decimal digits, most significant digit first. */
  function DigitsValue(s: string): nat
    requires AllDigits(s)
  {
    if |s| == 0 then 0 else DigitsValue(s[..|s| - 1]) * 10 + DigitOf(s[|s| - 1])
  }

  /** Value of the digits after a '.': `0.d1d2...` is `(d1 + 0.d2...) / 10`. */
  function FractionValue(s: string): real
    requires AllDigits(s)
  {
    if |s| == 0 then 0.0 else (DigitOf(s[0]) as real + FractionValue(s[1..])) / 10.0
  }

  /** Decimal rendering of a natural number, as Python's `str(n)`: at least one digit and
      no leading zero except for zero itself. */
  function NatToString(n: nat): (s: string)
    ensures |s| >= 1 && AllDigits(s)
    ensures s[0] == '0' <==> n == 0
    ensures n == 0 ==> s == "0"
  {
    if n < 10 then [DigitChar(n)] else NatToString(n / 10) + [DigitChar(n % 10)]
  }

  /** Decimal rendering of an integer, with a leading '-' for negative values. */
  function IntToString(n: int): string {
    if n < 0 then "-" + NatToString(-n) else NatToString(n)
  }

  /** Reading back a rendered natural number gives the number. */
  lemma {:induction false} NatToStringRoundTrip(n: nat)
    ensures DigitsValue(NatToString(n)) == n
  {
    if n >= 10 {
      var s := NatToString(n / 10);
      var t := s + [DigitChar(n % 10)];
      NatToStringRoundTrip(n / 10);
      assert t[..|t| - 1] == s;
    }
  }

  lemma {:induction false} LeadingNonZeroIsPositive(s: string)
    requires |s| >= 1 && AllDigits(s) && s[0] != '0'
    ensures DigitsValue(s) >= 1
  {
    if |s| > 1 {
      var p := s[..|s| - 1];
      assert p[0] == s[0];
      LeadingNonZeroIsPositive(p);
    }
  }

  /** Every canonical digit string (non-empty, no leading zero unless it is "0") is the
      rendering of its own value: rendering is onto the canonical strings. */
  lemma {:induction false} CanonicalDigitsRoundTrip(s: string)
    requires |s| >= 1 && AllDigits(s)
    requires |s| > 1 ==> s[0] != '0'
    ensures NatToString(DigitsValue(s)) == s
  {
    if |s| > 1 {
      var p := s[..|s| - 1];
      assert p[0] == s[0];
      assert |p| > 1 ==> p[0] != '0';
      LeadingNonZeroIsPositive(p);
      CanonicalDigitsRoundTrip(p);
      var n := DigitsValue(s);
      assert n / 10 == DigitsValue(p) && n % 10 == DigitOf(s[|s| - 1]);
      assert s == p + [s[|s| - 1]];
    }
  }

  /** Position of the first '.' in `s`, or |s| when there is none. */
  function DotIndex(s: string): (i: nat)
    ensures i <= |s|
    ensures i < |s| ==> s[i] == '.'
    ensures forall j :: 0 <= j < i ==> s[j] != '.'
  {
    if |s| == 0 then 0 else if s[0] == '.' then 0 else 1 + DotIndex(s[1..])
  }

  /** The unsigned part of a decimal literal: the whole digits and, when `fraction` is
      present, a '.' followed by the fraction digits. */
  function UnsignedText(whole: string, fraction: Option<string>): string {
    whole + (if fraction.Some? then "." + fraction.value else "")
  }

  /** The text of a decimal literal: a sign ("", "+" or "-") before its unsigned part. */
  function LiteralText(sign: string, whole: string, fraction: Option<string>): string {
    sign + UnsignedText(whole, fraction)
  }

  /** The literals `float(text)` accepts here: digits on either side of an optional '.',
      with at least one digit in all. */
  predicate WellFormedLiteral(sign: string, whole: string, fraction: Option<string>) {
    && (sign == "" || sign == "+" || sign == "-")
    && AllDigits(whole)
    && (fraction.Some? ==> AllDigits(fraction.value))
    && |whole| + |fraction.GetOr("")| >= 1
  }

  /** The value of the unsigned part of a literal. */
  function UnsignedValue(whole: string, fraction: Option<string>): real
    requires AllDigits(whole) && (fraction.Some? ==> AllDigits(fraction.value))
  {
    DigitsValue(whole) as real + FractionValue(fraction.GetOr(""))
  }

  /** The value a decimal literal denotes. */
  function LiteralValue(sign: string, whole: string, fraction: Option<string>): real
    requires WellFormedLiteral(sign, whole, fraction)
  {
    if sign == "-" then -UnsignedValue(whole, fraction) else UnsignedValue(whole, fraction)
  }

  /** A text cut at its first '.': the part before it and, when there is one, the part
      after it. */
  function SplitAtDot(s: string): (parts: (string, Option<string>))
    ensures s == UnsignedText(parts.0, parts.1)
    ensures forall j :: 0 <= j < |parts.0| ==> parts.0[j] != '.'
  {
    var i := DotIndex(s);
    if i < |s| then
      assert s == s[..i] + [s[i]] + s[i + 1..];
      (s[..i], Some(s[i + 1..]))
    else
      (s, None)
  }

  /** A text cut after its leading '+' or '-', if it has one. */
  function SplitSign(s: string): (parts: (string, string))
    ensures s == parts.0 + parts.1
    ensures parts.0 == "" || parts.0 == "+" || parts.0 == "-"
    ensures parts.0 == "" ==> |parts.1| == 0 || (parts.1[0] != '+' && parts.1[0] != '-')
  {
    if |s| > 0 && (s[0] == '-' || s[0] == '+') then
      assert s == s[..1] + s[1..];
      (s[..1], s[1..])
    else
      ("", s)
  }

  /** Unsigned decimal literal: digits, optionally followed by '.' and more digits, with at
      least one digit in all. */
  function ParseUnsigned(s: string): Option<real> {
    var (whole, fraction) := SplitAtDot(s);
    if WellFormedLiteral("", whole, fraction) then Some(UnsignedValue(whole, fraction)) else None
  }

  /** The part of Python's `float(text)` the device's values use: an optional sign followed
      by an unsigned decimal literal. `None` stands for the ValueError `float` raises. */
  function ParseNumber(s: string): Option<real> {
    var (sign, rest) := SplitSign(s);
    match ParseUnsigned(rest)
    case None => None
    case Some(x) => Some(if sign == "-" then -x else x)
  }

  /** Cutting an unsigned literal at its first '.' gives back its two parts. */
  lemma SplitUnsignedText(whole: string, fraction: Option<string>)
    requires AllDigits(whole)
    ensures SplitAtDot(UnsignedText(whole, fraction)) == (whole, fraction)
  {
    var t := UnsignedText(whole, fraction);
    var parts := SplitAtDot(t);
    assert forall j :: 0 <= j < |whole| ==> t[j] == whole[j] && t[j] != '.';
    if fraction.Some? {
      assert t[|whole|] == '.';
    }
    assert DotIndex(t) == |whole|;
    assert t[..|whole|] == whole;
    if fraction.Some? {
      assert t[|whole| + 1..] == fraction.value;
    }
  }

  /** Cutting a literal after its sign gives back the sign and the unsigned part: an
      unsigned literal starts with a digit or '.', never with a sign. */
  lemma SplitLiteralText(sign: string, whole: string, fraction: Option<string>)
    requires WellFormedLiteral(sign, whole, fraction)
    ensures SplitSign(LiteralText(sign, whole, fraction)) == (sign, UnsignedText(whole, fraction))
  {
    var t := UnsignedText(whole, fraction);
    if |whole| >= 1 {
      assert t[0] == whole[0];
    } else {
      assert t[0] == '.';
    }
    if sign != "" {
      assert (sign + t)[0] == sign[0];
      assert (sign + t)[..1] == sign && (sign + t)[1..] == t;
    } else {
      assert sign + t == t;
    }
  }

  /** Every decimal literal parses to the value it denotes: "42.5", "-.5", "5." and "+7"
      included. */
  lemma ParseNumberLiteral(sign: string, whole: string, fraction: Option<string>)
    requires WellFormedLiteral(sign, whole, fraction)
    ensures ParseNumber(LiteralText(sign, whole, fraction)) == Some(LiteralValue(sign, whole, fraction))
  {
    SplitLiteralText(sign, whole, fraction);
    SplitUnsignedText(whole, fraction);
  }

  /** Conversely, every text that parses is a decimal literal and parses to its value; any
      other text is the ValueError. */
  lemma ParseNumberOnlyLiterals(s: string)
    requires ParseNumber(s).Some?
    ensures exists sign, whole, fraction ::
              && WellFormedLiteral(sign, whole, fraction)
              && s == LiteralText(sign, whole, fraction)
              && ParseNumber(s).value == LiteralValue(sign, whole, fraction)
  {
    var (sign, rest) := SplitSign(s);
    var (whole, fraction) := SplitAtDot(rest);
    assert s == LiteralText(sign, whole, fraction);
    assert ParseNumber(s).value == LiteralValue(sign, whole, fraction);
  }

  /** A run of digits after an optional '-' is a literal without a fraction. */
  lemma DigitsLiteral(sign: string, digits: string)
    requires sign == "" || sign == "-"
    requires |digits| >= 1 && AllDigits(digits)
    ensures WellFormedLiteral(sign, digits, None)
    ensures LiteralText(sign, digits, None) == sign + digits
    ensures LiteralValue(sign, digits, None) ==
              if sign == "-" then -(DigitsValue(digits) as real) else DigitsValue(digits) as real
  {
    assert UnsignedText(digits, None) == digits;
  }

  /** A run of digits, after an optional '-', parses to its value with that sign. */
  lemma ParseSignedDigits(sign: string, digits: string)
    requires sign == "" || sign == "-"
    requires |digits| >= 1 && AllDigits(digits)
    ensures ParseNumber(sign + digits) ==
              Some(if sign == "-" then -(DigitsValue(digits) as real) else DigitsValue(digits) as real)
  {
    DigitsLiteral(sign, digits);
    ParseNumberLiteral(sign, digits, None);
  }

  /** A decimal rendering of an integer parses back to that integer. */
  lemma IntToStringParses(n: int)
    ensures ParseNumber(IntToString(n)) == Some(n as real)
  {
    var m: nat := if n < 0 then -n else n;
    var sign := if n < 0 then "-" else "";
    NatToStringRoundTrip(m);
    assert IntToString(n) == sign + NatToString(m);
    ParseSignedDigits(sign, NatToString(m));
  }

  /** Python's `int(x)` on a float: truncation toward zero. */
  function TruncateTowardZero(x: real): (r: int)
    ensures 0.0 <= x ==> 0 <= r && r as real <= x < r as real + 1.0
    ensures x < 0.0 ==> r <= 0 && r as real - 1.0 < x <= r as real
  {
    if x >= 0.0 then x.Floor else -((-x).Floor)
  }

  /** Truncation toward zero is symmetric under negation, unlike floor. */
  lemma TruncateIsSymmetric(x: real)
    ensures TruncateTowardZero(-x) == -TruncateTowardZero(x)
  {
  }

  /** Python's rounding in `format(x, ".0f")`: to the nearest integer, ties to even. */
  function RoundHalfEven(x: real): (r: int)
    ensures -0.5 <= x - r as real <= 0.5
    ensures (x - r as real == 0.5 || r as real - x == 0.5) ==> r % 2 == 0
  {
    var f := x.Floor;
    var d := x - f as real;
    if d < 0.5 then f
    else if d > 0.5 then f + 1
    else if f % 2 == 0 then f
    else f + 1
  }

  /** The two properties in `RoundHalfEven`'s contract determine its result. */
  lemma RoundHalfEvenUnique(x: real, n: int)
    requires -0.5 <= x - n as real <= 0.5
    requires (x - n as real == 0.5 || n as real - x == 0.5) ==> n % 2 == 0
    ensures n == RoundHalfEven(x)
  {
  }

  /** A canonical digit string: non-empty, digits only, and no leading zero unless it is
      "0" itself. */
  predicate Canonical(digits: string) {
    |digits| >= 1 && AllDigits(digits) && (|digits| > 1 ==> digits[0] != '0')
  }

  /** `f"{x:.0f}"`: the magnitude of the rounded integer as canonical digits, after a '-'
      exactly when `x` is negative; Python keeps the sign of a negative value that rounds
      to zero and prints "-0". */
  function FormatNoDecimals(x: real): (s: string)
    ensures |s| >= 1
    ensures s[0] == '-' <==> x < 0.0
    ensures var digits := if x < 0.0 then s[1..] else s;
            && Canonical(digits)
            && DigitsValue(digits) == (if x < 0.0 then -RoundHalfEven(x) else RoundHalfEven(x))
  {
    var n := RoundHalfEven(x);
    var m: nat := if x < 0.0 then -n else n;
    NatToStringRoundTrip(m);
    assert IsDigit(NatToString(m)[0]);
    assert ("-" + NatToString(m))[1..] == NatToString(m);
    if x < 0.0 && n == 0 then "-0" else IntToString(n)
  }

  /** The contract of `FormatNoDecimals` leaves exactly one text: any signed canonical
      rendering of the rounded magnitude is the one written. */
  lemma FormatNoDecimalsUnique(x: real, s: string)
    requires |s| >= 1
    requires s[0] == '-' <==> x < 0.0
    requires var digits := if x < 0.0 then s[1..] else s;
             && Canonical(digits)
             && DigitsValue(digits) == (if x < 0.0 then -RoundHalfEven(x) else RoundHalfEven(x))
    ensures s == FormatNoDecimals(x)
  {
    var f := FormatNoDecimals(x);
    var digits := if x < 0.0 then s[1..] else s;
    var fdigits := if x < 0.0 then f[1..] else f;
    CanonicalDigitsRoundTrip(digits);
    CanonicalDigitsRoundTrip(fdigits);
    assert digits == fdigits;
    if x < 0.0 {
      assert s == [s[0]] + digits && f == [f[0]] + fdigits;
    }
  }

  /** What the number platform writes parses back to the rounded value. */
  lemma FormatNoDecimalsParses(x: real)
    ensures ParseNumber(FormatNoDecimals(x)) == Some(RoundHalfEven(x) as real)
  {
    var s := FormatNoDecimals(x);
    var sign := if x < 0.0 then "-" else "";
    var digits := if x < 0.0 then s[1..] else s;
    assert s == sign + digits by {
      if x < 0.0 {
        assert s == [s[0]] + s[1..];
      }
    }
    ParseSignedDigits(sign, digits);
  }
}
