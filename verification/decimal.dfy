/** Decimal rendering of a count, as Rust's `{}` formats an unsigned
    integer: digits only, no sign and no leading zero. */
module Decimal {

  predicate IsDigit(c: char) {
    '0' <= c <= '9'
  }

  function DigitChar(d: nat): (c: char)
    requires d < 10
    ensures IsDigit(c)
  {
    (('0' as int) + d) as char
  }

  function DigitValue(c: char): (d: nat)
    requires IsDigit(c)
    ensures d < 10
  {
    (c as int) - ('0' as int)
  }

  function DecimalString(n: nat): string
    decreases n
  {
    if n < 10 then [DigitChar(n)] else DecimalString(n / 10) + [DigitChar(n % 10)]
  }

  /** The rendering is a non-empty digit string without a leading zero, and
      a single digit exactly for the counts below ten. */
  lemma {:induction false} DecimalStringWellFormed(n: nat)
    ensures var s := DecimalString(n);
      && |s| > 0
      && (forall i :: 0 <= i < |s| ==> IsDigit(s[i]))
      && (|s| > 1 ==> s[0] != '0')
      && (n < 10 <==> |s| == 1)
    decreases n
  {
    if n >= 10 {
      DecimalStringWellFormed(n / 10);
    }
  }

  /** The number a digit string denotes. */
  function DecimalValue(s: string): nat
    requires forall i :: 0 <= i < |s| ==> IsDigit(s[i])
  {
    if |s| == 0 then 0 else 10 * DecimalValue(s[..|s| - 1]) + DigitValue(s[|s| - 1])
  }

  /** Reading the rendered digits back yields the count. */
  lemma {:induction false} DecimalRoundTrip(n: nat)
    ensures var s := DecimalString(n);
      (forall i :: 0 <= i < |s| ==> IsDigit(s[i])) && DecimalValue(s) == n
    decreases n
  {
    var s := DecimalString(n);
    DecimalStringWellFormed(n);
    if n >= 10 {
      DecimalRoundTrip(n / 10);
      DecimalStringWellFormed(n / 10);
      assert s[..|s| - 1] == DecimalString(n / 10);
    }
  }
}
