/**
 * The `mm:ss` rendering shared by the countdown timer (src/components/Timer.tsx)
 * and the Pomodoro timer (src/components/Pomodoro.tsx): whole minutes by
 * `Math.floor(s / 60)`, seconds by JavaScript's `%`, each left-padded with
 * zeros to two characters.
 */
module Clock {
  import Text

  /** `Math.floor(s / 60)`: for a positive divisor Dafny's `/` already rounds down. */
  function Minutes(s: int): (m: int)
    ensures m * 60 <= s < m * 60 + 60
  {
    s / 60
  }

  /** JavaScript `s % 60`: the remainder takes the sign of `s` (it truncates toward zero). */
  function Seconds(s: int): (r: int)
    ensures -60 < r < 60
    ensures s >= 0 ==> r >= 0
    ensures s <= 0 ==> r <= 0
    ensures -60 < s < 60 ==> r == s
  {
    if s >= 0 then s % 60 else 0 - (0 - s) % 60
  }

  /** `n.toString().padStart(2, '0')`. */
  function TwoDigits(n: int): string {
    Text.PadStart(Text.IntToString(n), 2, '0')
  }

  /** `formatTime(seconds)`. */
  function FormatTime(seconds: int): (r: string)
    ensures |r| >= 5
    ensures ':' in r
  {
    TwoDigits(Minutes(seconds)) + ":" + TwoDigits(Seconds(seconds))
  }

  /** The value of one decimal digit. */
  function DigitValue(c: char): int {
    c as int - '0' as int
  }

  /** Reads an `mm:ss` string back as a number of seconds. */
  function ParseClock(r: string): int
    requires |r| == 5
  {
    (DigitValue(r[0]) * 10 + DigitValue(r[1])) * 60 + DigitValue(r[3]) * 10 + DigitValue(r[4])
  }

  /** A number below 100 pads to two digits: its tens digit, then its units digit. */
  lemma PaddedTwoDigits(n: int)
    requires 0 <= n < 100
    ensures |TwoDigits(n)| == 2 && Text.AllDigits(TwoDigits(n))
    ensures DigitValue(TwoDigits(n)[0]) * 10 + DigitValue(TwoDigits(n)[1]) == n
  {
    if n >= 10 {
      assert Text.NatToString(n) == Text.NatToString(n / 10) + [Text.DigitChar(n % 10)];
    }
  }

  /** Below 100 minutes the display is five characters `mm:ss` and reads back as the same number of seconds. */
  lemma FormatTimeRoundTrip(s: int)
    requires 0 <= s < 6000
    ensures |FormatTime(s)| == 5 && FormatTime(s)[2] == ':'
    ensures forall k :: 0 <= k < 5 && k != 2 ==> Text.IsDigit(FormatTime(s)[k])
    ensures ParseClock(FormatTime(s)) == s
  {
    var m, r := Minutes(s), Seconds(s);
    assert m == s / 60 && r == s % 60;
    var a, b := TwoDigits(m), TwoDigits(r);
    assert FormatTime(s) == a + ":" + b;
    PaddedTwoDigits(m);
    PaddedTwoDigits(r);
    Layout(a, b);
  }

  /** Two two-digit fields around a colon: where the characters land and what the five characters read as. */
  lemma Layout(a: string, b: string)
    requires |a| == 2 && |b| == 2 && Text.AllDigits(a) && Text.AllDigits(b)
    ensures var f := a + ":" + b;
      && |f| == 5 && f[2] == ':'
      && (forall k :: 0 <= k < 5 && k != 2 ==> Text.IsDigit(f[k]))
      && ParseClock(f) == (DigitValue(a[0]) * 10 + DigitValue(a[1])) * 60 + DigitValue(b[0]) * 10 + DigitValue(b[1])
  {
    var f := a + ":" + b;
    assert f[0] == a[0] && f[1] == a[1] && f[3] == b[0] && f[4] == b[1];
  }

  /** Two non-negative times below 100 minutes never share a display. */
  lemma FormatTimeInjective(s: int, t: int)
    requires 0 <= s < 6000 && 0 <= t < 6000
    requires FormatTime(s) == FormatTime(t)
    ensures s == t
  {
    FormatTimeRoundTrip(s);
    FormatTimeRoundTrip(t);
  }

  /** From 100 minutes on, the minutes take three or more characters and the display grows past five. */
  lemma FormatTimeWidens(s: int)
    requires s >= 6000
    ensures |FormatTime(s)| > 5
  {
    var m := s / 60;
    assert Text.NatToString(m) == Text.NatToString(m / 10) + [Text.DigitChar(m % 10)];
  }

  /** A negative time keeps JavaScript's signs: one second below zero reads "-1:-1". */
  lemma FormatTimeNegative(s: int)
    requires -60 < s < 0
    ensures FormatTime(s) == "-1:-" + Text.NatToString(0 - s)
  {
    assert Minutes(s) == -1;
    assert Seconds(s) == s;
  }
}
