/**
 * Calendar dates, timestamps with a time of day, their order, and the
 * canonical `YYYY-MM-DD` text form with its parser.
 */
module Dates {
  import opened Wrappers

  datatype Date = Date(year: int, month: int, day: int)

  predicate IsLeapYear(y: int) {
    y % 4 == 0 && (y % 100 != 0 || y % 400 == 0)
  }

  function DaysInMonth(y: int, m: int): (n: int)
    requires 1 <= m <= 12
    ensures 28 <= n <= 31
  {
    if m == 2 then (if IsLeapYear(y) then 29 else 28)
    else if m == 4 || m == 6 || m == 9 || m == 11 then 30
    else 31
  }

  /** A real day of the proleptic Gregorian calendar with a four-digit year. */
  predicate ValidDate(d: Date) {
    1 <= d.year <= 9999 && 1 <= d.month <= 12 && 1 <= d.day <= DaysInMonth(d.year, d.month)
  }

  type CalendarDate = d: Date | ValidDate(d) witness Date(2000, 1, 1)

  const NANOS_PER_DAY: int := 86_400_000_000_000

  /** A date with the nanoseconds elapsed since its midnight. */
  datatype Timestamp = Timestamp(date: CalendarDate, nanos: int)

  type Instant = t: Timestamp | 0 <= t.nanos < NANOS_PER_DAY witness Timestamp(Date(2000, 1, 1), 0)

  function Midnight(d: CalendarDate): (start: Instant) {
    Timestamp(d, 0)
  }

  /** Lexicographic order on (year, month, day). */
  predicate DateLt(a: Date, b: Date) {
    a.year < b.year ||
    (a.year == b.year && (a.month < b.month || (a.month == b.month && a.day < b.day)))
  }

  predicate DateLe(a: Date, b: Date) {
    DateLt(a, b) || a == b
  }

  /** Chronological order of timestamps: by date, then by time of day. */
  predicate InstantLe(a: Timestamp, b: Timestamp) {
    DateLt(a.date, b.date) || (a.date == b.date && a.nanos <= b.nanos)
  }

  /** The lower bound of the accepted sale dates: 2000-01-01 at midnight. */
  const MIN_DATE: CalendarDate := Date(2000, 1, 1)
  const MIN_INSTANT: Instant := Midnight(MIN_DATE)

  /** Inclusive at both ends: MIN_INSTANT <= t <= now. */
  predicate InRange(t: Timestamp, now: Timestamp) {
    InstantLe(MIN_INSTANT, t) && InstantLe(t, now)
  }

  /** A timestamp in range lies, as a calendar day, between 2000-01-01 and the day of `now`. */
  lemma InRangeDays(t: Timestamp, now: Timestamp)
    requires InRange(t, now)
    ensures DateLe(MIN_DATE, t.date) && DateLe(t.date, now.date)
  {
  }

  /**
   * A date between 2000-01-01 and today's date is in range at midnight:
   * a date-only value on today's date passes the upper bound whatever
   * the time of day of `now`.
   */
  lemma MidnightInRange(d: CalendarDate, now: Instant)
    requires DateLe(MIN_DATE, d) && DateLe(d, now.date)
    ensures InRange(Midnight(d), now)
  {
  }

  /** On today's date, a timestamp passes the upper bound exactly when it is not later than now. */
  lemma SameDayBound(t: Instant, now: Instant)
    requires t.date == now.date && DateLe(MIN_DATE, now.date)
    ensures InRange(t, now) <==> t.nanos <= now.nanos
  {
  }

  // ---------------------------------------------------------------------
  // Decimal digits

  predicate IsDigit(c: char) {
    '0' <= c <= '9'
  }

  predicate AllDigits(s: string) {
    forall i :: 0 <= i < |s| ==> IsDigit(s[i])
  }

  function DigitChar(v: int): (c: char)
    requires 0 <= v < 10
    ensures IsDigit(c)
  {
    (('0' as int) + v) as char
  }

  function DigitValue(c: char): (v: int)
    requires IsDigit(c)
    ensures 0 <= v < 10
  {
    (c as int) - ('0' as int)
  }

  function Pow10(n: nat): (p: nat)
    ensures p >= 1
  {
    if n == 0 then 1 else 10 * Pow10(n - 1)
  }

  /** The last `width` decimal digits of `n`, zero-padded on the left. */
  function PadDigits(n: nat, width: nat): (s: string)
    ensures |s| == width && AllDigits(s)
  {
    if width == 0 then [] else PadDigits(n / 10, width - 1) + [DigitChar(n % 10)]
  }

  /** The number a string of decimal digits denotes. */
  function DigitsValue(s: string): (v: nat)
    requires AllDigits(s)
    ensures v < Pow10(|s|)
  {
    if s == [] then 0 else 10 * DigitsValue(s[..|s| - 1]) + DigitValue(s[|s| - 1])
  }

  lemma {:induction false} PadDigitsValue(n: nat, width: nat)
    requires n < Pow10(width)
    ensures DigitsValue(PadDigits(n, width)) == n
  {
    if width > 0 {
      var s := PadDigits(n, width);
      PadDigitsValue(n / 10, width - 1);
      assert s[..|s| - 1] == PadDigits(n / 10, width - 1);
      assert DigitValue(s[|s| - 1]) == n % 10;
    }
  }

  lemma {:induction false} DigitsValuePad(s: string)
    requires AllDigits(s)
    ensures PadDigits(DigitsValue(s), |s|) == s
  {
    if s != [] {
      var init, v := s[..|s| - 1], DigitsValue(s);
      DigitsValuePad(init);
      assert v / 10 == DigitsValue(init) && v % 10 == DigitValue(s[|s| - 1]);
      assert s == init + [s[|s| - 1]];
    }
  }

  // ---------------------------------------------------------------------
  // The canonical text form

  /** Ten characters: four digits, '-', two digits, '-', two digits. */
  predicate IsIsoShape(s: string) {
    |s| == 10 && s[4] == '-' && s[7] == '-' &&
    AllDigits(s[..4]) && AllDigits(s[5..7]) && AllDigits(s[8..])
  }

  /** The `%Y-%m-%d` rendering of a date. */
  function FormatDate(d: CalendarDate): (s: string)
    ensures IsIsoShape(s)
  {
    var s := PadDigits(d.year, 4) + "-" + PadDigits(d.month, 2) + "-" + PadDigits(d.day, 2);
    assert s[..4] == PadDigits(d.year, 4) && s[5..7] == PadDigits(d.month, 2) && s[8..] == PadDigits(d.day, 2);
    s
  }

  /** Reads a `YYYY-MM-DD` string; anything else, or a day the calendar lacks, is None. */
  function ParseIsoDate(s: string): (r: Option<CalendarDate>)
    ensures r.Some? ==> IsIsoShape(s)
  {
    if !IsIsoShape(s) then None
    else
      var d := Date(DigitsValue(s[..4]), DigitsValue(s[5..7]), DigitsValue(s[8..]));
      if ValidDate(d) then Some(d) else None
  }

  /** Formatting a date and reading it back gives the same date. */
  lemma FormatThenParse(d: CalendarDate)
    ensures ParseIsoDate(FormatDate(d)) == Some(d)
  {
    var s := FormatDate(d);
    assert s[..4] == PadDigits(d.year, 4) && s[5..7] == PadDigits(d.month, 2) && s[8..] == PadDigits(d.day, 2);
    PadDigitsValue(d.year, 4);
    PadDigitsValue(d.month, 2);
    PadDigitsValue(d.day, 2);
  }

  /** Re-formatting a canonical date string gives back the same string. */
  lemma ParseThenFormat(s: string)
    requires ParseIsoDate(s).Some?
    ensures FormatDate(ParseIsoDate(s).value) == s
  {
    DigitsValuePad(s[..4]);
    DigitsValuePad(s[5..7]);
    DigitsValuePad(s[8..]);
    assert s == s[..4] + "-" + s[5..7] + "-" + s[8..];
  }
}
