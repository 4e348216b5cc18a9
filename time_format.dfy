/**
 * The three display helpers of the timer screen (Timer/TimerView.swift):
 * a millisecond count split into whole minutes, the seconds within the
 * minute and the milliseconds within the second, each rendered through
 * `String(format:)` with `%01d` or `%03d`.
 */
module TimeFormat {
  import SwiftInt

  // ---------------------------------------------------------------------
  // Components
  // ---------------------------------------------------------------------

  /** `time / 60000` */
  function MinutesOf(time: int): int {
    SwiftInt.Div(time, 60000)
  }

  /** `(time % 60000) / 1000` */
  function SecondsOf(time: int): int {
    SwiftInt.Div(SwiftInt.Rem(time, 60000), 1000)
  }

  /** `time % 1000` */
  function MillisecondsOf(time: int): int {
    SwiftInt.Rem(time, 1000)
  }

  /** For a non-negative time the components are the usual quotient and remainders, in range. */
  lemma ComponentsOfNonNegative(time: int)
    requires time >= 0
    ensures MinutesOf(time) == time / 60000
    ensures SecondsOf(time) == (time % 60000) / 1000 && 0 <= SecondsOf(time) <= 59
    ensures MillisecondsOf(time) == time % 1000 && 0 <= MillisecondsOf(time) <= 999
  {
    SwiftInt.AgreesOnNonNegative(time, 60000);
    SwiftInt.AgreesOnNonNegative(time % 60000, 1000);
    SwiftInt.AgreesOnNonNegative(time, 1000);
  }

  /**
   * The three components rebuild the time they were taken from. With Swift's
   * truncating operators this holds for negative times as well: every
   * component then carries the sign of the time.
   */
  lemma ComponentsRebuild(time: int)
    ensures MinutesOf(time) * 60000 + SecondsOf(time) * 1000 + MillisecondsOf(time) == time
    ensures -59 <= SecondsOf(time) <= 59 && -999 <= MillisecondsOf(time) <= 999
  {
    var r := SwiftInt.Rem(time, 60000);
    SwiftInt.DivRem(time, 60000);
    SwiftInt.DivRem(r, 1000);
    assert SecondsOf(time) * 1000 + SwiftInt.Rem(r, 1000) == r;
    if time >= 0 {
      RemOfRem(time);
    } else {
      RemOfRem(-time);
    }
    assert SwiftInt.Rem(r, 1000) == MillisecondsOf(time);
  }

  /** Taking the remainder modulo a minute first does not change the remainder modulo a second. */
  lemma RemOfRem(n: int)
    requires n >= 0
    ensures (n % 60000) % 1000 == n % 1000
  {
    var m := n % 60000;
    var k := 60 * (n / 60000) + m / 1000;
    assert n == 1000 * k + m % 1000;
    ModUnique(n, k, m % 1000);
  }

  /** Euclidean division by 1000 has only one quotient and remainder. */
  lemma ModUnique(n: int, k: int, r: int)
    requires n == 1000 * k + r && 0 <= r < 1000
    ensures n % 1000 == r
  {
    var k' := n / 1000;
    assert n == 1000 * k' + n % 1000;
    assert 1000 * (k - k') == n % 1000 - r;
  }

  // ---------------------------------------------------------------------
  // Decimal strings
  // ---------------------------------------------------------------------

  predicate IsDigit(c: char) {
    '0' <= c <= '9'
  }

  predicate AllDigits(s: string) {
    forall i :: 0 <= i < |s| ==> IsDigit(s[i])
  }

  function DigitChar(d: int): (c: char)
    requires 0 <= d <= 9
    ensures IsDigit(c) && c as int - '0' as int == d
  {
    (d + '0' as int) as char
  }

  function DigitValue(c: char): int {
    c as int - '0' as int
  }

  /** The shortest decimal spelling of `n`. */
  function DecimalDigits(n: nat): (s: string)
    ensures 1 <= |s|
  {
    if n < 10 then [DigitChar(n)] else DecimalDigits(n / 10) + [DigitChar(n % 10)]
  }

  /** Reads a string of decimal digits back as a number (the most significant digit first). */
  function ParseDecimal(s: string): int {
    if s == [] then 0 else ParseDecimal(s[..|s| - 1]) * 10 + DigitValue(s[|s| - 1])
  }

  function Zeros(k: nat): (z: string) {
    seq(k, _ => '0')
  }

  /** Left-pads with '0' up to `width` characters. */
  function ZeroPad(s: string, width: nat): string {
    if |s| >= width then s else Zeros(width - |s|) + s
  }

  /** C's `%0<width>d`: the sign counts towards the width and the zeros go after it. */
  function FormatInt(n: int, width: nat): string {
    if n < 0 then "-" + ZeroPad(DecimalDigits(-n), if width > 0 then width - 1 else 0)
    else ZeroPad(DecimalDigits(n), width)
  }

  /** `String(format: "%01d", minutes)` */
  function FormatTimeMinutes(time: int): string {
    FormatInt(MinutesOf(time), 1)
  }

  /** `String(format: "%01d", seconds)` */
  function FormatTimeSeconds(time: int): string {
    FormatInt(SecondsOf(time), 1)
  }

  /** `String(format: "%03d", milliseconds)` */
  function FormatTimeMilliseconds(time: int): string {
    FormatInt(MillisecondsOf(time), 3)
  }

  // ---------------------------------------------------------------------
  // Properties of the strings
  // ---------------------------------------------------------------------

  /** The decimal spelling is all digits, has no leading zero and parses back to the number. */
  lemma {:induction false} DecimalRoundTrip(n: nat)
    ensures AllDigits(DecimalDigits(n))
    ensures |DecimalDigits(n)| > 1 ==> DecimalDigits(n)[0] != '0'
    ensures ParseDecimal(DecimalDigits(n)) == n
  {
    var s := DecimalDigits(n);
    if n >= 10 {
      DecimalRoundTrip(n / 10);
      var p := DecimalDigits(n / 10);
      assert s[..|s| - 1] == p;
      assert s[0] == p[0];
    }
  }

  /** A number below 10^k needs at most k digits. */
  lemma {:induction false} DecimalLength(n: nat, k: nat)
    requires n < Pow10(k)
    requires k >= 1
    ensures |DecimalDigits(n)| <= k
  {
    if n >= 10 {
      assert k >= 2;
      DecimalLength(n / 10, k - 1);
    }
  }

  function Pow10(k: nat): nat {
    if k == 0 then 1 else 10 * Pow10(k - 1)
  }

  lemma {:induction false} ZerosParse(k: nat)
    ensures ParseDecimal(Zeros(k)) == 0
  {
    if k > 0 {
      assert Zeros(k)[..k - 1] == Zeros(k - 1);
      ZerosParse(k - 1);
    }
  }

  /** Leading zeros do not change the value read back. */
  lemma {:induction false} LeadingZerosParse(k: nat, s: string)
    ensures ParseDecimal(Zeros(k) + s) == ParseDecimal(s)
  {
    if s == [] {
      assert Zeros(k) + s == Zeros(k);
      ZerosParse(k);
    } else {
      var t := Zeros(k) + s;
      assert t[..|t| - 1] == Zeros(k) + s[..|s| - 1];
      LeadingZerosParse(k, s[..|s| - 1]);
    }
  }

  lemma ZerosAreDigits(k: nat, s: string)
    requires AllDigits(s)
    ensures AllDigits(Zeros(k) + s)
  {
  }

  /** For a non-negative time the minutes string is the unpadded decimal of `time / 60000`. */
  lemma MinutesString(time: int)
    requires time >= 0
    ensures FormatTimeMinutes(time) == DecimalDigits(time / 60000)
    ensures AllDigits(FormatTimeMinutes(time)) && ParseDecimal(FormatTimeMinutes(time)) == time / 60000
  {
    ComponentsOfNonNegative(time);
    DecimalRoundTrip(time / 60000);
  }

  /** For a non-negative time the seconds string is one or two digits, unpadded, of the seconds in the minute. */
  lemma SecondsString(time: int)
    requires time >= 0
    ensures FormatTimeSeconds(time) == DecimalDigits((time % 60000) / 1000)
    ensures 1 <= |FormatTimeSeconds(time)| <= 2 && AllDigits(FormatTimeSeconds(time))
    ensures ParseDecimal(FormatTimeSeconds(time)) == (time % 60000) / 1000
  {
    ComponentsOfNonNegative(time);
    DecimalRoundTrip((time % 60000) / 1000);
    DecimalLength((time % 60000) / 1000, 2);
  }

  /** For a non-negative time the milliseconds string is exactly three digits and reads back as `time % 1000`. */
  lemma MillisecondsString(time: int)
    requires time >= 0
    ensures |FormatTimeMilliseconds(time)| == 3 && AllDigits(FormatTimeMilliseconds(time))
    ensures ParseDecimal(FormatTimeMilliseconds(time)) == time % 1000
  {
    ComponentsOfNonNegative(time);
    var ms := time % 1000;
    var d := DecimalDigits(ms);
    DecimalRoundTrip(ms);
    DecimalLength(ms, 3);
    if |d| < 3 {
      LeadingZerosParse(3 - |d|, d);
      ZerosAreDigits(3 - |d|, d);
    }
  }
}
