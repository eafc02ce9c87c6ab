/**
 * `parseFloat` applied to a snapshot size such as "2.4MB": the number at the
 * front of the string, read exactly as a `real`, with whatever follows it (the
 * unit) ignored. A string with no number at its front yields `None`, which
 * stands for NaN.
 */
module SizeParse {
  import opened Maybe
  import opened Text

  function SkipWhitespace(s: string): (r: string)
    ensures |r| <= |s| && r == s[|s| - |r|..]
    ensures r == [] || !IsJsWhitespace(r[0])
    decreases |s|
  {
    if s != [] && IsJsWhitespace(s[0]) then SkipWhitespace(s[1..]) else s
  }

  /** The longest prefix of `s` made of decimal digits. */
  function LeadingDigits(s: string): (r: string)
    ensures StartsWith(s, r)
    ensures forall i :: 0 <= i < |r| ==> IsDigit(r[i])
    ensures |r| == |s| || !IsDigit(s[|r|])
    decreases |s|
  {
    if s != [] && IsDigit(s[0]) then [s[0]] + LeadingDigits(s[1..]) else []
  }

  function Pow10(n: nat): (r: nat)
    ensures r > 0
  {
    if n == 0 then 1 else 10 * Pow10(n - 1)
  }

  /** The value of the digits after a decimal point. */
  function FractionValue(d: string): real
    requires forall i :: 0 <= i < |d| ==> IsDigit(d[i])
  {
    if d == [] then 0.0 else DigitsValue(d) as real / Pow10(|d|) as real
  }

  /** The unsigned part of `parseFloat`: digits, and optionally a point followed by more digits; at least one digit in all. */
  function ParseUnsigned(u: string): Option<real>
  {
    var whole := LeadingDigits(u);
    var rest := u[|whole|..];
    var fraction := if |rest| > 0 && rest[0] == '.' then LeadingDigits(rest[1..]) else "";
    if whole == "" && fraction == "" then None
    else Some(DigitsValue(whole) as real + FractionValue(fraction))
  }

  /** `parseFloat(s)`: optional leading whitespace, an optional sign, then an unsigned decimal. */
  function ParseLeadingDecimal(s: string): Option<real>
  {
    var t := SkipWhitespace(s);
    if |t| > 0 && t[0] == '-' then
      match ParseUnsigned(t[1..])
      case Some(m) => Some(-m)
      case None => None
    else if |t| > 0 && t[0] == '+' then ParseUnsigned(t[1..])
    else ParseUnsigned(t)
  }

  /** A string that starts with a digit or a point is read without sign or whitespace. */
  lemma ParseStartingWithNumber(s: string)
    requires s != [] && (IsDigit(s[0]) || s[0] == '.')
    ensures ParseLeadingDecimal(s) == ParseUnsigned(s)
  {
    assert !IsJsWhitespace(s[0]);
    assert SkipWhitespace(s) == s;
  }

  predicate AllDigits(s: string) {
    forall i :: 0 <= i < |s| ==> IsDigit(s[i])
  }

  /** Reading the digits at the front of `digits + rest` reads all of `digits` first. */
  lemma {:induction false} LeadingDigitsAppend(digits: string, rest: string)
    requires AllDigits(digits)
    ensures LeadingDigits(digits + rest) == digits + LeadingDigits(rest)
    decreases |digits|
  {
    if digits != [] {
      assert (digits + rest)[1..] == digits[1..] + rest;
      LeadingDigitsAppend(digits[1..], rest);
    } else {
      assert digits + rest == rest;
    }
  }

  /** How `ParseUnsigned` reads a string whose digits are followed by a point. */
  lemma ParseUnsignedWithPoint(u: string, whole: string, fraction: string)
    requires LeadingDigits(u) == whole
    requires |u| > |whole| && u[|whole|] == '.' && LeadingDigits(u[|whole| + 1..]) == fraction
    ensures ParseUnsigned(u) ==
            if whole == "" && fraction == "" then None
            else Some(DigitsValue(whole) as real + FractionValue(fraction))
  {
    assert u[|whole|..][1..] == u[|whole| + 1..];
  }

  /** How `ParseUnsigned` reads a string whose digits are followed by anything but a point. */
  lemma ParseUnsignedWithoutPoint(u: string, whole: string)
    requires LeadingDigits(u) == whole && whole != ""
    requires |u| == |whole| || u[|whole|] != '.'
    ensures ParseUnsigned(u) == Some(DigitsValue(whole) as real)
  {
    var rest := u[|whole|..];
    assert |rest| == 0 || rest[0] != '.';
  }

  lemma UnsignedDecimalWithUnit(whole: string, fraction: string, unit: string)
    requires AllDigits(whole) && AllDigits(fraction)
    requires unit == [] || !IsDigit(unit[0])
    ensures ParseUnsigned(whole + ("." + fraction + unit)) ==
            if whole == "" && fraction == "" then None
            else Some(DigitsValue(whole) as real + FractionValue(fraction))
  {
    var tail := "." + fraction + unit;
    var s := whole + tail;
    LeadingDigitsAppend(whole, tail);
    assert LeadingDigits(tail) == [];
    assert s[|whole|] == '.';
    assert s[|whole| + 1..] == fraction + unit;
    LeadingDigitsAppend(fraction, unit);
    assert unit == [] || LeadingDigits(unit) == [];
    ParseUnsignedWithPoint(s, whole, fraction);
  }

  /** A decimal `whole.fraction` followed by a unit that does not start with a digit parses to its value. */
  lemma DecimalWithUnit(whole: string, fraction: string, unit: string)
    requires AllDigits(whole) && AllDigits(fraction)
    requires unit == [] || !IsDigit(unit[0])
    ensures ParseLeadingDecimal(whole + "." + fraction + unit) ==
            if whole == "" && fraction == "" then None
            else Some(DigitsValue(whole) as real + FractionValue(fraction))
  {
    var s := whole + ("." + fraction + unit);
    assert s == whole + "." + fraction + unit;
    assert s[0] == if whole == "" then '.' else whole[0];
    ParseStartingWithNumber(s);
    UnsignedDecimalWithUnit(whole, fraction, unit);
  }

  /** A whole number followed by a unit that starts with neither a digit nor a point parses to that number. */
  lemma WholeWithUnit(whole: string, unit: string)
    requires AllDigits(whole) && whole != ""
    requires unit == [] || (!IsDigit(unit[0]) && unit[0] != '.')
    ensures ParseLeadingDecimal(whole + unit) == Some(DigitsValue(whole) as real)
  {
    var s := whole + unit;
    assert s[0] == whole[0];
    ParseStartingWithNumber(s);
    LeadingDigitsAppend(whole, unit);
    assert unit == [] || LeadingDigits(unit) == [];
    ParseUnsignedWithoutPoint(s, whole);
  }

  /** The unit text after a decimal is ignored: "2.4MB" and "2.4KB" both read as 2.4. */
  lemma UnitIgnored(whole: string, fraction: string, unit: string, otherUnit: string)
    requires AllDigits(whole) && AllDigits(fraction)
    requires unit == [] || !IsDigit(unit[0])
    requires otherUnit == [] || !IsDigit(otherUnit[0])
    ensures ParseLeadingDecimal(whole + "." + fraction + unit) == ParseLeadingDecimal(whole + "." + fraction + otherUnit)
  {
    DecimalWithUnit(whole, fraction, unit);
    DecimalWithUnit(whole, fraction, otherUnit);
  }

  /** parseFloat("2.4MB") is 2.4. */
  lemma ExampleSize()
    ensures ParseLeadingDecimal("2.4MB") == Some(2.4)
  {
    var whole, fraction, unit := "2", "4", "MB";
    assert whole + "." + fraction + unit == "2.4MB";
    assert whole[..0] == "";
    assert DigitsValue(whole) == 2;
    assert fraction[..0] == "";
    assert DigitsValue(fraction) == 4;
    assert Pow10(1) == 10;
    assert FractionValue(fraction) == 0.4;
    DecimalWithUnit(whole, fraction, unit);
  }
}
