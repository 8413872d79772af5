/** Machine integers and the decimal notation both ends of the serial link use. */
module Decimal {

  const UINT32_MAX := 0xFFFF_FFFF

  type uint32 = n: nat | n <= UINT32_MAX

  predicate IsDigit(c: char) {
    '0' <= c <= '9'
  }

  predicate AllDigits(s: string) {
    forall i :: 0 <= i < |s| ==> IsDigit(s[i])
  }

  function DigitValue(c: char): (d: nat)
    requires IsDigit(c)
    ensures d <= 9
  {
    c as int - '0' as int
  }

  function DigitChar(d: nat): (c: char)
    requires d <= 9
    ensures IsDigit(c) && DigitValue(c) == d
  {
    (d + '0' as int) as char
  }

  /** The digits mean what they always mean, and the next digit counts one, the earlier ones ten. */
  lemma DigitsMean(digits: string, k: nat)
    requires AllDigits(digits) && k < 10
    ensures IsDigit("0123456789"[k]) && Value(digits + ["0123456789"[k]]) == 10 * Value(digits) + k
  {
    var longer := digits + ["0123456789"[k]];
    assert longer[..|longer| - 1] == digits;
  }

  /** The number a digit string denotes; leading zeros are allowed. */
  function Value(digits: string): nat
    requires AllDigits(digits)
  {
    if digits == "" then 0
    else Value(digits[..|digits| - 1]) * 10 + DigitValue(digits[|digits| - 1])
  }

  /** `std::to_string` of an unsigned number. */
  function ToString(n: nat): (s: string)
    ensures s != "" && AllDigits(s)
  {
    if n < 10 then [DigitChar(n)] else ToString(n / 10) + [DigitChar(n % 10)]
  }

  lemma {:induction false} ValueOfToString(n: nat)
    ensures Value(ToString(n)) == n
  {
    var s := ToString(n);
    if n < 10 {
      assert s[..|s| - 1] == "";
    } else {
      ValueOfToString(n / 10);
      assert s[..|s| - 1] == ToString(n / 10);
    }
  }

  /** Printed numbers have no leading zeros. */
  lemma {:induction false} NoLeadingZero(n: nat)
    ensures n > 0 ==> ToString(n)[0] != '0'
    ensures ToString(0) == "0"
  {
    if n >= 10 {
      NoLeadingZero(n / 10);
    }
  }

  /** A longer run of digits never denotes a smaller number. */
  lemma {:induction false} ValueOfPrefix(digits: string, k: nat)
    requires AllDigits(digits) && k <= |digits|
    ensures Value(digits[..k]) <= Value(digits)
    decreases |digits|
  {
    if k < |digits| {
      var init := digits[..|digits| - 1];
      ValueOfPrefix(init, k);
      assert init[..k] == digits[..k];
    } else {
      assert digits[..k] == digits;
    }
  }

  lemma {:induction false} LengthOfToString(n: nat, width: nat)
    requires n < Pow10(width) && width > 0
    ensures |ToString(n)| <= width
    decreases width
  {
    if n >= 10 {
      LengthOfToString(n / 10, width - 1);
    }
  }

  function Pow10(e: nat): nat {
    if e == 0 then 1 else 10 * Pow10(e - 1)
  }
}
