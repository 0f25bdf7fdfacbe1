// Numbers as the normaliser sees them. A JavaScript number (and a Python
// float) is modelled as an exact decimal, NaN or an infinity; binary
// floating-point rounding is not modelled.

module Numbers {
  import opened Text
  import opened Maybe

  /** The exact value units / 10^scale. */
  datatype Decimal = Decimal(units: int, scale: nat)

  datatype Number = Finite(d: Decimal) | NaN | Infinity(negative: bool)

  const Zero: Decimal := Decimal(0, 0)

  function Pow10(k: nat): (r: nat)
    ensures r >= 1
  {
    if k == 0 then 1 else 10 * Pow10(k - 1)
  }

  predicate IsZero(d: Decimal) { d.units == 0 }

  /** Two decimals denote the same value. */
  predicate SameValue(a: Decimal, b: Decimal) {
    a.units * Pow10(b.scale) == b.units * Pow10(a.scale)
  }

  function Negate(d: Decimal): Decimal { Decimal(-d.units, d.scale) }

  function Abs(x: int): nat { if x < 0 then -x else x }

  function DigitChar(n: nat): (c: char)
    requires n < 10
    ensures IsAsciiDigit(c)
  {
    ('0' as int + n) as char
  }

  function DigitValue(c: char): (n: nat)
    requires IsAsciiDigit(c)
    ensures n < 10
  {
    c as int - '0' as int
  }

  /** The value of a string of decimal digits ("" is 0). */
  function DigitsValue(s: string): nat
    requires AllDigits(s)
  {
    if s == [] then 0 else DigitsValue(s[..|s| - 1]) * 10 + DigitValue(s[|s| - 1])
  }

  /** The decimal digits of `n`, without leading zeros. */
  function NatToString(n: nat): (r: string)
    ensures |r| >= 1 && AllDigits(r)
  {
    if n < 10 then [DigitChar(n)] else NatToString(n / 10) + [DigitChar(n % 10)]
  }

  lemma {:induction false} NatToStringRoundTrip(n: nat)
    ensures DigitsValue(NatToString(n)) == n
  {
    if n >= 10 {
      var r := NatToString(n);
      assert r[..|r| - 1] == NatToString(n / 10);
      NatToStringRoundTrip(n / 10);
    }
  }

  /** The length of the run of digits at the start of `s`. */
  function LeadingDigits(s: string): (n: nat)
    ensures n <= |s| && AllDigits(s[..n])
    ensures n < |s| ==> !IsAsciiDigit(s[n])
  {
    if s == [] || !IsAsciiDigit(s[0]) then 0
    else
      var m := LeadingDigits(s[1..]);
      assert s[..m + 1] == [s[0]] + s[1..][..m];
      1 + m
  }

  /** A run of digits followed by a non-digit, or by nothing: the leading
      run is exactly those digits. */
  lemma LeadingDigitsOfRun(digits: string, rest: string)
    requires AllDigits(digits)
    requires rest == [] || !IsAsciiDigit(rest[0])
    ensures LeadingDigits(digits + rest) == |digits|
  {
    var s := digits + rest;
    var n := LeadingDigits(s);
    assert forall k | 0 <= k < |digits| :: IsAsciiDigit(s[k]);
    if rest != [] {
      assert |digits| < |s| && !IsAsciiDigit(s[|digits|]);
      assert forall m | |digits| < m <= |s| :: s[..m][|digits|] == s[|digits|];
    } else {
      assert s == digits;
    }
  }

  /** The same value with the trailing zeros of the fraction removed. */
  function Canonical(d: Decimal): (c: Decimal)
    ensures SameValue(c, d)
    ensures c.scale == 0 || c.units % 10 != 0
    decreases d.scale
  {
    if d.scale > 0 && d.units % 10 == 0 then
      var c := Canonical(Decimal(d.units / 10, d.scale - 1));
      assert Pow10(d.scale) == 10 * Pow10(d.scale - 1);
      c
    else d
  }

  function Zeros(n: nat): (r: string)
    ensures |r| == n && AllDigits(r)
  {
    seq(n, _ => '0')
  }

  /** JavaScript's `String(x)` for a finite number written in positional
      notation (exponent notation is not modelled). */
  function DecimalToString(d: Decimal): string
  {
    var c := Canonical(d);
    var digits := NatToString(Abs(c.units));
    var padded := if |digits| <= c.scale then Zeros(c.scale + 1 - |digits|) + digits else digits;
    var body :=
      if c.scale == 0 then padded
      else padded[..|padded| - c.scale] + "." + padded[|padded| - c.scale..];
    (if c.units < 0 then "-" else "") + body
  }

  function NumberToString(n: Number): string
  {
    match n
    case Finite(d) => DecimalToString(d)
    case NaN => "NaN"
    case Infinity(neg) => if neg then "-Infinity" else "Infinity"
  }

  /** An optional exponent part `e[+-]digits`; the empty string is exponent 0. */
  function ParseExponent(s: string): Option<int>
  {
    if s == [] then Some(0)
    else if s[0] == 'e' || s[0] == 'E' then
      var t := s[1..];
      var neg := |t| > 0 && t[0] == '-';
      var u := if |t| > 0 && (t[0] == '+' || t[0] == '-') then t[1..] else t;
      if |u| > 0 && AllDigits(u) then Some(if neg then 0 - DigitsValue(u) as int else DigitsValue(u))
      else None
    else None
  }

  /** `d` times ten to the power `e`. */
  function ScaleBy(d: Decimal, e: int): (r: Decimal)
    ensures d.units >= 0 ==> r.units >= 0
  {
    if e >= 0 then Decimal(d.units * Pow10(e), d.scale) else Decimal(d.units, d.scale + (-e))
  }

  /** An unsigned decimal literal: digits with an optional fraction, or a
      fraction alone, then an optional exponent; the whole string must match. */
  function ParseUnsignedDecimal(s: string): (r: Option<Decimal>)
    ensures r.Some? ==> r.value.units >= 0
  {
    var i := LeadingDigits(s);
    var rest := s[i..];
    var hasPoint := |rest| > 0 && rest[0] == '.';
    var j := if hasPoint then LeadingDigits(rest[1..]) else 0;
    var frac := if hasPoint then rest[1..][..j] else "";
    var after := if hasPoint then rest[1..][j..] else rest;
    if i == 0 && j == 0 then None
    else
      match ParseExponent(after)
      case None => None
      case Some(e) => Some(ScaleBy(Decimal(DigitsValue(s[..i] + frac), |frac|), e))
  }
}
