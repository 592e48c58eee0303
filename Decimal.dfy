/**
  Decimal rendering of integers, as Swift's string interpolation `"\(n)"` prints an `Int64`:
  an optional minus sign followed by the digits, most significant first, with no leading zero.
  `ParseInt` is the independent reading used to state what a rendering means.
*/
module Decimal {
  import opened Wrappers

  predicate IsDigit(c: char) {
    '0' <= c <= '9'
  }

  predicate AllDigits(s: string) {
    forall i :: 0 <= i < |s| ==> IsDigit(s[i])
  }

  function DigitChar(d: nat): (c: char)
    requires d < 10
    ensures IsDigit(c) && c as int - '0' as int == d
  {
    ('0' as int + d) as char
  }

  /** The digits of `n`, most significant first. */
  function NatToDecimal(n: nat): (r: string)
    ensures |r| >= 1 && AllDigits(r)
    ensures r[0] == '0' ==> r == "0"
    decreases n
  {
    if n < 10 then [DigitChar(n)] else NatToDecimal(n / 10) + [DigitChar(n % 10)]
  }

  /** The number a string of digits denotes. */
  function DigitsValue(s: string): nat
    requires AllDigits(s)
  {
    if s == [] then 0 else 10 * DigitsValue(s[..|s| - 1]) + (s[|s| - 1] as int - '0' as int)
  }

  /**
    The form Swift prints: "0", or digits with a non-zero lead, optionally after a minus
    sign (never "-0").
  */
  predicate CanonicalNumeral(s: string) {
    || (|s| >= 1 && AllDigits(s) && (s[0] == '0' ==> s == "0"))
    || (|s| >= 2 && s[0] == '-' && AllDigits(s[1..]) && s[1] != '0')
  }

  /** `"\(n)"` for a signed integer. */
  function IntToDecimal(n: int): (r: string)
    ensures CanonicalNumeral(r)
    ensures r[0] == '-' <==> n < 0
  {
    if n < 0 then "-" + NatToDecimal(-n) else NatToDecimal(n)
  }

  /** Reads an optionally signed decimal numeral; `None` for anything else. */
  function ParseInt(s: string): Option<int> {
    if |s| >= 2 && s[0] == '-' && AllDigits(s[1..]) then Some(0 - DigitsValue(s[1..]) as int)
    else if |s| >= 1 && AllDigits(s) then Some(DigitsValue(s))
    else None
  }

  lemma {:induction false} NatToDecimalValue(n: nat)
    ensures DigitsValue(NatToDecimal(n)) == n
    decreases n
  {
    if n >= 10 {
      var s := NatToDecimal(n / 10);
      NatToDecimalValue(n / 10);
      assert (s + [DigitChar(n % 10)])[..|s|] == s;
    }
  }

  /** Reading back what `IntToDecimal` prints gives the number it printed. */
  lemma IntToDecimalRoundTrip(n: int)
    ensures ParseInt(IntToDecimal(n)) == Some(n)
  {
    var s := IntToDecimal(n);
    if n < 0 {
      var digits := NatToDecimal(-n);
      NatToDecimalValue(-n);
      assert s[1..] == digits;
      assert |s| >= 2 && s[0] == '-' && AllDigits(s[1..]);
    } else {
      NatToDecimalValue(n);
      assert IsDigit(s[0]);
    }
  }

  lemma {:induction false} LeadingDigitPositive(s: string)
    requires |s| >= 1 && AllDigits(s) && s[0] != '0'
    ensures DigitsValue(s) >= 1
    decreases |s|
  {
    if |s| > 1 {
      LeadingDigitPositive(s[..|s| - 1]);
    }
  }

  /** Digits without a leading zero are exactly what `NatToDecimal` prints for their value. */
  lemma {:induction false} CanonicalDigitsArePrinted(s: string)
    requires |s| >= 1 && AllDigits(s) && (s[0] == '0' ==> s == "0")
    ensures NatToDecimal(DigitsValue(s)) == s
    decreases |s|
  {
    if |s| > 1 {
      var init := s[..|s| - 1];
      var d := s[|s| - 1] as int - '0' as int;
      CanonicalDigitsArePrinted(init);
      LeadingDigitPositive(init);
      var v := DigitsValue(init);
      assert DigitsValue(s) == 10 * v + d;
      assert (10 * v + d) / 10 == v && (10 * v + d) % 10 == d;
      assert DigitChar(d) == s[|s| - 1];
      assert s == init + [s[|s| - 1]];
    }
  }

  /** The printed form is the only canonical numeral that denotes `n`. */
  lemma CanonicalNumeralUnique(s: string, n: int)
    requires CanonicalNumeral(s) && ParseInt(s) == Some(n)
    ensures s == IntToDecimal(n)
  {
    if |s| >= 2 && s[0] == '-' && AllDigits(s[1..]) {
      var t := s[1..];
      CanonicalDigitsArePrinted(t);
      LeadingDigitPositive(t);
      assert s == "-" + t;
    } else {
      CanonicalDigitsArePrinted(s);
    }
  }

  /** Distinct numbers print differently. */
  lemma IntToDecimalInjective(a: int, b: int)
    requires IntToDecimal(a) == IntToDecimal(b)
    ensures a == b
  {
    IntToDecimalRoundTrip(a);
    IntToDecimalRoundTrip(b);
  }
}
