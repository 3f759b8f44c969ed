/** Python's `str(n)` for integers, and the inverse parse. */
module Decimal {

  predicate IsDigit(c: char) {
    '0' <= c <= '9'
  }

  predicate AllDigits(s: string) {
    forall i :: 0 <= i < |s| ==> IsDigit(s[i])
  }

  /** Decimal text of an integer: an optional '-' and then digits. */
  predicate IsDecimal(s: string) {
    if |s| > 0 && s[0] == '-' then |s| > 1 && AllDigits(s[1..]) else |s| > 0 && AllDigits(s)
  }

  /** Digits with no leading zero (a lone "0" is allowed). */
  predicate NoLeadingZero(d: string) {
    |d| == 1 || (|d| > 0 && d[0] != '0')
  }

  /**
   * The one text Python's `str` gives an integer: an optional '-', then
   * digits without a leading zero, and never "-0".
   */
  predicate IsCanonicalDecimal(s: string) {
    && IsDecimal(s)
    && (if s[0] == '-' then NoLeadingZero(s[1..]) && s[1..] != "0" else NoLeadingZero(s))
  }

  function DigitChar(d: nat): (c: char)
    requires d < 10
    ensures IsDigit(c) && DigitValue(c) == d
  {
    (48 + d) as char
  }

  function DigitValue(c: char): nat
    requires IsDigit(c)
  {
    (c as int) - 48
  }

  /** Digits of `n`, most significant first, without leading zeros. */
  function NatToDecimal(n: nat): (s: string)
    ensures |s| > 0 && AllDigits(s)
    ensures NoLeadingZero(s)
    ensures s == "0" <==> n == 0
  {
    if n < 10 then [DigitChar(n)] else NatToDecimal(n / 10) + [DigitChar(n % 10)]
  }

  /** `str(n)` for a Python int. */
  function IntToDecimal(n: int): (s: string)
    ensures IsCanonicalDecimal(s)
    ensures s[0] == '-' <==> n < 0
  {
    if n < 0 then "-" + NatToDecimal(-n) else NatToDecimal(n)
  }

  function DecimalToNat(s: string): nat
    requires AllDigits(s)
  {
    if s == [] then 0 else DecimalToNat(s[..|s| - 1]) * 10 + DigitValue(s[|s| - 1])
  }

  function DecimalToInt(s: string): int
    requires IsDecimal(s)
  {
    if s[0] == '-' then -(DecimalToNat(s[1..]) as int) else DecimalToNat(s)
  }

  lemma {:induction false} NatRoundTrip(n: nat)
    ensures DecimalToNat(NatToDecimal(n)) == n
  {
    var s := NatToDecimal(n);
    if n >= 10 {
      NatRoundTrip(n / 10);
      assert s[..|s| - 1] == NatToDecimal(n / 10);
    }
  }

  /** `int(str(n)) == n`: the decimal text names the integer it came from. */
  lemma IntRoundTrip(n: int)
    ensures DecimalToInt(IntToDecimal(n)) == n
  {
    if n < 0 {
      NatRoundTrip(-n);
      assert IntToDecimal(n)[1..] == NatToDecimal(-n);
    } else {
      NatRoundTrip(n);
    }
  }

  /** Different integers have different decimal texts. */
  lemma IntToDecimalInjective(m: int, n: int)
    requires m != n
    ensures IntToDecimal(m) != IntToDecimal(n)
  {
    IntRoundTrip(m);
    IntRoundTrip(n);
  }

  /** Value of leading digits that are not all zero. */
  lemma {:induction false} LeadingDigitPositive(d: string)
    requires |d| > 0 && AllDigits(d) && d[0] != '0'
    ensures DecimalToNat(d) > 0
    decreases |d|
  {
    if |d| > 1 {
      LeadingDigitPositive(d[..|d| - 1]);
    }
  }

  /** Digits without a leading zero are the text `NatToDecimal` gives their value. */
  lemma {:induction false} CanonicalNatIsItsText(d: string)
    requires |d| > 0 && AllDigits(d) && NoLeadingZero(d)
    ensures NatToDecimal(DecimalToNat(d)) == d
    decreases |d|
  {
    if |d| > 1 {
      var init := d[..|d| - 1];
      LeadingDigitPositive(init);
      CanonicalNatIsItsText(init);
      var v := DecimalToNat(d);
      assert v / 10 == DecimalToNat(init) && v % 10 == DigitValue(d[|d| - 1]);
      assert DigitChar(DigitValue(d[|d| - 1])) == d[|d| - 1];
    } else {
      assert DigitChar(DigitValue(d[0])) == d[0];
    }
  }

  /**
   * A canonical decimal text is exactly `str` of the integer it reads as:
   * combined with `IntRoundTrip`, `IntToDecimal(n)` is the only canonical
   * text that reads back as `n`.
   */
  lemma CanonicalDecimalIsStr(s: string)
    requires IsCanonicalDecimal(s)
    ensures IntToDecimal(DecimalToInt(s)) == s
  {
    if s[0] == '-' {
      CanonicalNatIsItsText(s[1..]);
      LeadingDigitPositive(s[1..]);
      assert s == "-" + s[1..];
    } else {
      CanonicalNatIsItsText(s);
    }
  }
}
