/**
 * Decimal rendering of integers, as `sprintf` prints them for the `%d` and
 * `%s` conversions used in the writer's log lines (batch numbers, elapsed
 * milliseconds, CSV line numbers), and the parse that inverts it.
 */
module Format {

  import opened Wrappers

  predicate IsDigit(c: char) {
    '0' <= c <= '9'
  }

  function DigitChar(d: nat): (c: char)
    requires d < 10
    ensures IsDigit(c) && c as int - '0' as int == d
  {
    ('0' as int + d) as char
  }

  function NatToDecimal(n: nat): (s: string)
    ensures |s| >= 1 && forall j | 0 <= j < |s| :: IsDigit(s[j])
    decreases n
  {
    if n < 10 then [DigitChar(n)] else NatToDecimal(n / 10) + [DigitChar(n % 10)]
  }

  /** `%d` of a PHP integer: an optional minus sign, then the digits of the magnitude. */
  function IntToDecimal(n: int): string {
    if n < 0 then "-" + NatToDecimal(-n) else NatToDecimal(n)
  }

  function DigitsValue(s: string): nat
    requires forall j | 0 <= j < |s| :: IsDigit(s[j])
    decreases |s|
  {
    if s == [] then 0
    else
      assert IsDigit(s[|s| - 1]);
      DigitsValue(s[..|s| - 1]) * 10 + (s[|s| - 1] as int - '0' as int)
  }

  /** Reads back a decimal integer; None for text that is not one. */
  function ParseDecimal(s: string): Option<int> {
    if |s| >= 2 && s[0] == '-' && (forall j | 1 <= j < |s| :: IsDigit(s[j])) then Some(0 - DigitsValue(s[1..]) as int)
    else if |s| >= 1 && forall j | 0 <= j < |s| :: IsDigit(s[j]) then Some(DigitsValue(s))
    else None
  }

  lemma {:induction false} NatToDecimalRoundTrip(n: nat)
    ensures DigitsValue(NatToDecimal(n)) == n
    decreases n
  {
    var s := NatToDecimal(n);
    if n >= 10 {
      NatToDecimalRoundTrip(n / 10);
      assert s[..|s| - 1] == NatToDecimal(n / 10);
    }
  }

  /** Rendering loses nothing: distinct numbers give distinct log text. */
  lemma IntToDecimalRoundTrip(n: int)
    ensures ParseDecimal(IntToDecimal(n)) == Some(n)
  {
    if n < 0 {
      var digits := NatToDecimal(-n);
      var s := "-" + digits;
      assert s[1..] == digits;
      forall j | 1 <= j < |s|
        ensures IsDigit(s[j])
      {
        assert s[j] == digits[j - 1];
      }
      NatToDecimalRoundTrip(-n);
    } else {
      var s := NatToDecimal(n);
      assert IsDigit(s[0]);
      NatToDecimalRoundTrip(n);
    }
  }
}
