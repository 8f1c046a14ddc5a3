/** The clock's time text (components/Clock.tsx): two-digit fields and the 12h/24h hour. */
module Clock {

  predicate IsDigit(c: char) {
    '0' <= c <= '9'
  }

  predicate AllDigits(s: string) {
    forall i :: 0 <= i < |s| ==> IsDigit(s[i])
  }

  /** The character of a decimal digit. */
  function DigitChar(d: nat): (c: char)
    requires d < 10
    ensures IsDigit(c)
    ensures (c as int) - ('0' as int) == d
  {
    (('0' as int) + d) as char
  }

  /** The value of a string of decimal digits, most significant first. */
  function DecimalValue(s: string): nat
    requires AllDigits(s)
  {
    if s == [] then 0
    else 10 * DecimalValue(s[..|s| - 1]) + ((s[|s| - 1] as int) - ('0' as int))
  }

  /** `Number.prototype.toString()` on a non-negative integer: its decimal digits, with no leading zero. */
  function DecimalString(n: nat): (r: string)
    ensures |r| >= 1
    ensures AllDigits(r)
    ensures r[0] == '0' ==> n == 0
    decreases n
  {
    if n < 10 then [DigitChar(n)] else DecimalString(n / 10) + [DigitChar(n % 10)]
  }

  /** Reading the decimal text of `n` back gives `n`; one digit exactly below 10, two exactly from 10 to 99. */
  lemma {:induction false} DecimalRoundTrip(n: nat)
    ensures DecimalValue(DecimalString(n)) == n
    ensures |DecimalString(n)| == 1 <==> n < 10
    ensures |DecimalString(n)| == 2 <==> 10 <= n < 100
    decreases n
  {
    var r := DecimalString(n);
    if n >= 10 {
      DecimalRoundTrip(n / 10);
      assert r[..|r| - 1] == DecimalString(n / 10);
    }
  }

  /** `s.padStart(width, fill)` with a one-character fill: `fill` repeated in front up to `width` characters. */
  function PadStart(s: string, width: nat, fill: char): (r: string)
    ensures |r| == if |s| < width then width else |s|
    ensures r[|r| - |s|..] == s
    ensures forall i :: 0 <= i < |r| - |s| ==> r[i] == fill
  {
    if |s| < width then seq(width - |s|, _ => fill) + s else s
  }

  /** `format`: the decimal text of `num`, zero-padded to at least two characters. */
  function Format(n: nat): string {
    PadStart(DecimalString(n), 2, '0')
  }

  /** Below 10, `format` is "0" and the digit; from 10 it is the plain decimal; below 100 it is the
      tens and the units digit, exactly two characters, and reads back as `n`. */
  lemma FormatFacts(n: nat)
    ensures n < 10 ==> Format(n) == ['0', DigitChar(n)]
    ensures n >= 10 ==> Format(n) == DecimalString(n)
    ensures n < 100 ==> Format(n) == [DigitChar(n / 10), DigitChar(n % 10)]
    ensures AllDigits(Format(n)) && DecimalValue(Format(n)) == n
  {
    DecimalRoundTrip(n);
    if n >= 10 && n < 100 {
      assert DecimalString(n / 10) == [DigitChar(n / 10)];
    }
    if n < 10 {
      assert Format(n) == ['0'] + DecimalString(n);
      assert DecimalValue(Format(n)[..1]) == 0;
    }
  }

  /** `hours % 12 || 12` in 12h mode, the hour itself in 24h mode. */
  function DisplayHour(hours: nat, use24h: bool): (r: nat)
    ensures use24h ==> r == hours
    ensures !use24h ==> 1 <= r <= 12 && r % 12 == hours % 12
  {
    if use24h then hours
    else if hours % 12 == 0 then 12
    else hours % 12
  }

  /** The 12h hours of a day: midnight and noon show 12, the afternoon hours show `h - 12`, the morning hours themselves. */
  lemma TwelveHourClock(h: nat)
    requires h < 24
    ensures h == 0 || h == 12 ==> DisplayHour(h, false) == 12
    ensures 1 <= h <= 11 ==> DisplayHour(h, false) == h
    ensures 13 <= h <= 23 ==> DisplayHour(h, false) == h - 12
  {
  }

  /** The clock's heading text: hours and minutes, then `:` and the seconds when `showSeconds` is on. */
  function ClockText(hours: nat, minutes: nat, seconds: nat, use24h: bool, showSeconds: bool): string {
    HoursMinutes(hours, minutes, use24h) + (if showSeconds then [':'] + Format(seconds) else [])
  }

  /** `{format(hours)}:{minutes}`. */
  function HoursMinutes(hours: nat, minutes: nat, use24h: bool): string {
    Format(DisplayHour(hours, use24h)) + [':'] + Format(minutes)
  }

  /** For a time of day, the text is `HH:MM` or `HH:MM:SS`, and each field reads back as the hour shown, the minutes and the seconds. */
  lemma ClockTextShape(hours: nat, minutes: nat, seconds: nat, use24h: bool, showSeconds: bool)
    requires hours < 24 && minutes < 60 && seconds < 60
    ensures var t := ClockText(hours, minutes, seconds, use24h, showSeconds);
      |t| == (if showSeconds then 8 else 5) && t[2] == ':' &&
      AllDigits(t[..2]) && DecimalValue(t[..2]) == DisplayHour(hours, use24h) &&
      AllDigits(t[3..5]) && DecimalValue(t[3..5]) == minutes &&
      (showSeconds ==> t[5] == ':' && AllDigits(t[6..8]) && DecimalValue(t[6..8]) == seconds)
  {
    TwoDigitField(DisplayHour(hours, use24h));
    TwoDigitField(minutes);
    TwoDigitField(seconds);
    FieldLayout(Format(DisplayHour(hours, use24h)), Format(minutes), Format(seconds), showSeconds);
  }

  /** Where the fields sit in `hh:mm` or `hh:mm:ss` when each is two characters long. */
  lemma FieldLayout(hh: string, mm: string, ss: string, showSeconds: bool)
    requires |hh| == 2 && |mm| == 2 && |ss| == 2
    ensures var t := hh + [':'] + mm + (if showSeconds then [':'] + ss else []);
      |t| == (if showSeconds then 8 else 5) && t[2] == ':' && t[..2] == hh && t[3..5] == mm &&
      (showSeconds ==> t[5] == ':' && t[6..8] == ss)
  {
    var t := hh + [':'] + mm + (if showSeconds then [':'] + ss else []);
    assert t[..2] == hh;
    assert t[3..5] == mm;
    if showSeconds {
      assert t[6..8] == ss;
    }
  }

  /** A field below 100 is two digits that read back as its value. */
  lemma TwoDigitField(n: nat)
    requires n < 100
    ensures |Format(n)| == 2 && AllDigits(Format(n)) && DecimalValue(Format(n)) == n
  {
    FormatFacts(n);
  }

  /** The seconds take part only when shown: without them the text ignores the seconds, with them it is that text plus `:SS`. */
  lemma SecondsSegment(hours: nat, minutes: nat, seconds: nat, other: nat, use24h: bool)
    ensures ClockText(hours, minutes, seconds, use24h, false) == ClockText(hours, minutes, other, use24h, false)
    ensures ClockText(hours, minutes, seconds, use24h, true)
         == ClockText(hours, minutes, seconds, use24h, false) + [':'] + Format(seconds)
  {
    var base := HoursMinutes(hours, minutes, use24h);
    assert ClockText(hours, minutes, seconds, use24h, false) == base + [] == base;
    assert ClockText(hours, minutes, other, use24h, false) == base + [] == base;
    assert base + ([':'] + Format(seconds)) == base + [':'] + Format(seconds);
  }
}
