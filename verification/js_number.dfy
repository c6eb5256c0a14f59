/**
 * JavaScript's `parseInt(s, 10)` on integers: skip leading whitespace, read an
 * optional sign and the longest run of decimal digits; no digit gives NaN.
 * Doubles are not modelled: results are unbounded integers.
 */
module JsNumber {
  import opened Text

  /** A `parseInt` result: NaN or an integer. */
  datatype JsInt = NaN | Num(value: int)

  predicate IsDigit(c: char) {
    '0' <= c <= '9'
  }

  predicate AllDigits(s: string) {
    forall i :: 0 <= i < |s| ==> IsDigit(s[i])
  }

  function DigitValue(c: char): nat
    requires IsDigit(c)
  {
    c as int - '0' as int
  }

  function DigitChar(d: nat): (c: char)
    requires d < 10
    ensures IsDigit(c) && DigitValue(c) == d
  {
    ('0' as int + d) as char
  }

  /** The longest prefix of `s` made of digits. */
  function LeadingDigits(s: string): (r: string)
    ensures |r| <= |s| && r == s[..|r|]
    ensures AllDigits(r)
    ensures |r| < |s| ==> !IsDigit(s[|r|])
  {
    if |s| > 0 && IsDigit(s[0]) then [s[0]] + LeadingDigits(s[1..]) else ""
  }

  /** The base-10 value of a digit string, most significant digit first. */
  function DigitsValue(ds: string): nat
    requires AllDigits(ds)
  {
    if |ds| == 0 then 0 else DigitsValue(ds[..|ds| - 1]) * 10 + DigitValue(ds[|ds| - 1])
  }

  /** `parseInt(s, 10)`. */
  function ParseInt(s: string): JsInt {
    var t := TrimStart(s);
    var negative := |t| > 0 && t[0] == '-';
    var rest := if |t| > 0 && (t[0] == '-' || t[0] == '+') then t[1..] else t;
    var ds := LeadingDigits(rest);
    if |ds| == 0 then NaN
    else if negative then Num(-(DigitsValue(ds) as int))
    else Num(DigitsValue(ds))
  }

  /** `parseInt(s, 10) || d`: NaN and 0 are falsy and give `d`. */
  function OrDefault(j: JsInt, d: int): int {
    if j.Num? && j.value != 0 then j.value else d
  }

  /** The decimal representation of `n`, as `String(n)` writes it. */
  function Decimal(n: nat): (r: string)
    ensures |r| > 0 && AllDigits(r)
  {
    if n < 10 then [DigitChar(n)] else Decimal(n / 10) + [DigitChar(n % 10)]
  }

  lemma {:induction false} DecimalValue(n: nat)
    ensures DigitsValue(Decimal(n)) == n
  {
    var r := Decimal(n);
    if n >= 10 {
      DecimalValue(n / 10);
      assert r[..|r| - 1] == Decimal(n / 10);
    }
  }

  lemma {:induction false} LeadingOfDigits(s: string)
    requires AllDigits(s)
    ensures LeadingDigits(s) == s
  {
    if |s| > 0 {
      LeadingOfDigits(s[1..]);
    }
  }

  /** A digit string with no sign parses to its own value, never NaN and never negative. */
  lemma ParseDigits(s: string)
    requires |s| > 0 && AllDigits(s)
    ensures ParseInt(s) == Num(DigitsValue(s))
  {
    assert TrimStart(s) == s;
    LeadingOfDigits(s);
  }

  /** `parseInt` undoes `String` on the naturals. */
  lemma ParseDecimal(n: nat)
    ensures ParseInt(Decimal(n)) == Num(n)
  {
    ParseDigits(Decimal(n));
    DecimalValue(n);
  }

  /** A minus sign before the digits negates the value. */
  lemma ParseNegative(n: nat)
    ensures ParseInt("-" + Decimal(n)) == Num(-(n as int))
  {
    var s := "-" + Decimal(n);
    assert TrimStart(s) == s;
    assert s[1..] == Decimal(n);
    LeadingOfDigits(Decimal(n));
    DecimalValue(n);
  }
}
