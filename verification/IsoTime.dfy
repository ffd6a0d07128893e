/** Calendar dates and UTC instants in their one canonical ISO 8601 text form. */
module IsoTime {
  import opened Wrappers

  datatype Date = Date(year: nat, month: nat, day: nat)

  datatype Clock = Clock(hour: nat, minute: nat, second: nat)

  datatype Instant = Instant(date: Date, clock: Clock, micro: nat)

  predicate Leap(year: nat) {
    year % 4 == 0 && (year % 100 != 0 || year % 400 == 0)
  }

  function DaysIn(year: nat, month: nat): nat {
    if month == 2 then if Leap(year) then 29 else 28
    else if month in {4, 6, 9, 11} then 30 else 31
  }

  predicate DateOk(d: Date) {
    1 <= d.year <= 9999 && 1 <= d.month <= 12 && 1 <= d.day <= DaysIn(d.year, d.month)
  }

  predicate ClockOk(c: Clock) {
    c.hour < 24 && c.minute < 60 && c.second < 60
  }

  predicate InstantOk(t: Instant) {
    DateOk(t.date) && ClockOk(t.clock) && t.micro < 1_000_000
  }

  // ---------------------------------------------------------------- digits

  predicate IsDigit(c: char) {
    '0' <= c <= '9'
  }

  function Power(width: nat): nat {
    if width == 0 then 1 else 10 * Power(width - 1)
  }

  /** `n` in exactly `width` decimal digits. */
  function Digits(n: nat, width: nat): (s: string)
    ensures |s| == width
  {
    if width == 0 then ""
    else Digits(n / 10, width - 1) + [('0' as int + n % 10) as char]
  }

  function Number(s: string): nat {
    if s == "" then 0
    else 10 * Number(s[..|s| - 1]) + (if IsDigit(s[|s| - 1]) then s[|s| - 1] as int - '0' as int else 0)
  }

  predicate AllDigits(s: string) {
    forall i :: 0 <= i < |s| ==> IsDigit(s[i])
  }

  lemma {:induction false} NumberOfDigits(n: nat, width: nat)
    requires n < Power(width)
    ensures AllDigits(Digits(n, width)) && Number(Digits(n, width)) == n
  {
    if width > 0 {
      NumberOfDigits(n / 10, width - 1);
      var s := Digits(n, width);
      assert s[..|s| - 1] == Digits(n / 10, width - 1);
    }
  }

  lemma {:induction false} DigitsOfNumber(s: string)
    requires AllDigits(s)
    ensures Number(s) < Power(|s|) && Digits(Number(s), |s|) == s
  {
    if s != "" {
      var front := s[..|s| - 1];
      DigitsOfNumber(front);
      assert Number(s) / 10 == Number(front);
      assert s == front + [s[|s| - 1]];
    }
  }

  // ---------------------------------------------------------------- dates

  function FormatDate(d: Date): string {
    Digits(d.year, 4) + "-" + Digits(d.month, 2) + "-" + Digits(d.day, 2)
  }

  function ParseDate(s: string): Option<Date> {
    if |s| != 10 || s[4] != '-' || s[7] != '-'
       || !AllDigits(s[..4]) || !AllDigits(s[5..7]) || !AllDigits(s[8..10]) then None
    else
      var d := Date(Number(s[..4]), Number(s[5..7]), Number(s[8..10]));
      if DateOk(d) then Some(d) else None
  }

  lemma PowersOfTen()
    ensures Power(2) == 100 && Power(4) == 10_000 && Power(6) == 1_000_000
  {
    assert Power(2) == 10 * Power(1);
    assert Power(4) == 10 * Power(3) && Power(3) == 10 * Power(2);
    assert Power(6) == 10 * Power(5) && Power(5) == 10 * Power(4);
  }

  /** A text is a date's exactly when it is the date's canonical form. */
  lemma DateRoundTrip(s: string, d: Date)
    ensures ParseDate(s) == Some(d) <==> DateOk(d) && s == FormatDate(d)
  {
    PowersOfTen();
    if DateOk(d) && s == FormatDate(d) {
      NumberOfDigits(d.year, 4);
      NumberOfDigits(d.month, 2);
      NumberOfDigits(d.day, 2);
      assert s[..4] == Digits(d.year, 4) && s[5..7] == Digits(d.month, 2) && s[8..10] == Digits(d.day, 2);
    }
    if ParseDate(s) == Some(d) {
      DigitsOfNumber(s[..4]);
      DigitsOfNumber(s[5..7]);
      DigitsOfNumber(s[8..10]);
      assert s == s[..4] + "-" + s[5..7] + "-" + s[8..10];
    }
  }

  // ---------------------------------------------------------------- instants

  function FormatClock(c: Clock): string {
    Digits(c.hour, 2) + ":" + Digits(c.minute, 2) + ":" + Digits(c.second, 2)
  }

  function ParseClock(s: string): Option<Clock> {
    if |s| != 8 || s[2] != ':' || s[5] != ':'
       || !AllDigits(s[..2]) || !AllDigits(s[3..5]) || !AllDigits(s[6..8]) then None
    else
      var c := Clock(Number(s[..2]), Number(s[3..5]), Number(s[6..8]));
      if ClockOk(c) then Some(c) else None
  }

  function FormatFraction(micro: nat): string {
    if micro == 0 then "" else "." + Digits(micro, 6)
  }

  /** `isoformat` of a UTC instant, up to its offset. */
  function FormatInstant(t: Instant): string {
    FormatDate(t.date) + "T" + FormatClock(t.clock) + FormatFraction(t.micro)
  }

  function ParseFraction(s: string): Option<nat> {
    if s == "" then Some(0)
    else if |s| != 7 || s[0] != '.' || !AllDigits(s[1..]) || Number(s[1..]) == 0 then None
    else Some(Number(s[1..]))
  }

  function ParseInstant(s: string): Option<Instant> {
    if |s| < 19 || s[10] != 'T' then None
    else
      match (ParseDate(s[..10]), ParseClock(s[11..19]), ParseFraction(s[19..]))
      case (Some(d), Some(c), Some(micro)) =>
        if micro < 1_000_000 then Some(Instant(d, c, micro)) else None
      case _ => None
  }

  lemma FractionRoundTrip(s: string, micro: nat)
    requires micro < 1_000_000
    ensures ParseFraction(s) == Some(micro) <==> s == FormatFraction(micro)
  {
    PowersOfTen();
    if s == FormatFraction(micro) && micro != 0 {
      NumberOfDigits(micro, 6);
      assert s[1..] == Digits(micro, 6);
    }
    if ParseFraction(s) == Some(micro) && s != "" {
      DigitsOfNumber(s[1..]);
      assert s == "." + s[1..];
    }
  }

  lemma ClockRoundTrip(s: string, c: Clock)
    ensures ParseClock(s) == Some(c) <==> ClockOk(c) && s == FormatClock(c)
  {
    PowersOfTen();
    if ClockOk(c) && s == FormatClock(c) {
      NumberOfDigits(c.hour, 2);
      NumberOfDigits(c.minute, 2);
      NumberOfDigits(c.second, 2);
      assert s[..2] == Digits(c.hour, 2) && s[3..5] == Digits(c.minute, 2) && s[6..8] == Digits(c.second, 2);
    }
    if ParseClock(s) == Some(c) {
      DigitsOfNumber(s[..2]);
      DigitsOfNumber(s[3..5]);
      DigitsOfNumber(s[6..8]);
      assert s == s[..2] + ":" + s[3..5] + ":" + s[6..8];
    }
  }

  /** A text is an instant's exactly when it is the instant's canonical form. */
  lemma InstantRoundTrip(s: string, t: Instant)
    ensures ParseInstant(s) == Some(t) <==> InstantOk(t) && s == FormatInstant(t)
  {
    if |s| >= 19 {
      var day, clock, fraction := s[..10], s[11..19], s[19..];
      assert s == day + [s[10]] + clock + fraction;
      DateRoundTrip(day, t.date);
      ClockRoundTrip(clock, t.clock);
      if t.micro < 1_000_000 {
        FractionRoundTrip(fraction, t.micro);
      }
      if InstantOk(t) && s == FormatInstant(t) {
        assert day == FormatDate(t.date) && clock == FormatClock(t.clock) && fraction == FormatFraction(t.micro);
      }
    }
  }
}
