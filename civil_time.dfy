/** Calendar dates and wall-clock times as Python's `datetime` holds them, already in
    Asia/Seoul local time, plus the injected clock the runner calls. */
module CivilTime {
  import opened Text

  predicate IsLeapYear(y: int) {
    y % 4 == 0 && (y % 100 != 0 || y % 400 == 0)
  }

  function DaysInMonth(y: int, m: int): (d: int)
    requires 1 <= m <= 12
    ensures 28 <= d <= 31
  {
    if m == 2 then (if IsLeapYear(y) then 29 else 28)
    else if m == 4 || m == 6 || m == 9 || m == 11 then 30
    else 31
  }

  /** `datetime.date`. */
  datatype Date = Date(year: int, month: int, day: int) {
    predicate Valid() {
      1 <= year <= 9999 && 1 <= month <= 12 && 1 <= day <= DaysInMonth(year, month)
    }
  }

  /** The fields of a `datetime` in Seoul local time, to the second. */
  datatype LocalDateTime = LocalDateTime(date: Date, hour: int, minute: int, second: int) {
    predicate Valid() {
      date.Valid() && 0 <= hour < 24 && 0 <= minute < 60 && 0 <= second < 60
    }
  }

  type DateTime = t: LocalDateTime | t.Valid() witness LocalDateTime(Date(1970, 1, 1), 0, 0, 0)

  /** A `datetime` that is either timezone-aware (`aware`) or naive; its fields are the
      Seoul wall-clock reading in both cases. */
  datatype Instant = Instant(local: DateTime, aware: bool)

  /** `hour * 3600 + minute * 60 + second`. */
  function SecondsOfDay(t: DateTime): (s: int)
    ensures 0 <= s < 86400
  {
    t.hour * 3600 + t.minute * 60 + t.second
  }

  function DaysBeforeMonth(y: int, m: int): (n: int)
    requires 1 <= m <= 12
    ensures n >= 0
    decreases m
  {
    if m == 1 then 0 else DaysBeforeMonth(y, m - 1) + DaysInMonth(y, m - 1)
  }

  /** Days since 0001-01-01, `date.toordinal() - 1`. */
  function DayNumber(d: Date): (n: int)
    requires d.Valid()
    ensures n >= 0
  {
    var y := d.year - 1;
    365 * y + y / 4 - y / 100 + y / 400 + DaysBeforeMonth(d.year, d.month) + d.day - 1
  }

  /** Whole seconds since 0001-01-01 00:00:00 local time. */
  function AbsoluteSeconds(t: DateTime): int {
    DayNumber(t.date) * 86400 + SecondsOfDay(t)
  }

  /** `(a - b).total_seconds()` in whole seconds. */
  function ElapsedSeconds(a: DateTime, b: DateTime): int {
    AbsoluteSeconds(a) - AbsoluteSeconds(b)
  }

  /** On one calendar day the elapsed time is the difference of the seconds of day. */
  lemma SameDayElapsed(a: DateTime, b: DateTime)
    requires a.date == b.date
    ensures ElapsedSeconds(a, b) == SecondsOfDay(a) - SecondsOfDay(b)
  {
  }

  /** The calendar day after `d`; `date.max` has none. */
  function NextDay(d: Date): (n: Date)
    requires d.Valid() && d != Date(9999, 12, 31)
    ensures n.Valid()
  {
    if d.day < DaysInMonth(d.year, d.month) then Date(d.year, d.month, d.day + 1)
    else if d.month < 12 then Date(d.year, d.month + 1, 1)
    else Date(d.year + 1, 1, 1)
  }

  /** The twelve months of a year add up to 365 days, or 366 in a leap year. */
  lemma DaysInYear(y: int)
    ensures DaysBeforeMonth(y, 12) + DaysInMonth(y, 12) == (if IsLeapYear(y) then 366 else 365)
  {
    var f := if IsLeapYear(y) then 1 else 0;
    assert DaysBeforeMonth(y, 2) == 31;
    assert DaysBeforeMonth(y, 3) == 59 + f;
    assert DaysBeforeMonth(y, 4) == 90 + f;
    assert DaysBeforeMonth(y, 5) == 120 + f;
    assert DaysBeforeMonth(y, 6) == 151 + f;
    assert DaysBeforeMonth(y, 7) == 181 + f;
    assert DaysBeforeMonth(y, 8) == 212 + f;
    assert DaysBeforeMonth(y, 9) == 243 + f;
    assert DaysBeforeMonth(y, 10) == 273 + f;
    assert DaysBeforeMonth(y, 11) == 304 + f;
    assert DaysBeforeMonth(y, 12) == 334 + f;
  }

  /** Going from `y - 1` to `y`, the count of multiples of 4, 100 and 400 each grows by one
      exactly when that number divides `y`. */
  lemma MultiplesStep(y: int)
    ensures y / 4 - (y - 1) / 4 == (if y % 4 == 0 then 1 else 0)
    ensures y / 100 - (y - 1) / 100 == (if y % 100 == 0 then 1 else 0)
    ensures y / 400 - (y - 1) / 400 == (if y % 400 == 0 then 1 else 0)
  {
  }

  /** The leap days counted before year `y + 1` exceed those before year `y` exactly when `y`
      is a leap year. */
  lemma LeapDaysStep(y: int)
    ensures (y / 4 - y / 100 + y / 400) - ((y - 1) / 4 - (y - 1) / 100 + (y - 1) / 400)
      == (if IsLeapYear(y) then 1 else 0)
  {
    MultiplesStep(y);
    DivisorsNest(y);
  }

  /** A multiple of 400 is a multiple of 100, and a multiple of 100 one of 4. */
  lemma DivisorsNest(y: int)
    ensures y % 400 == 0 ==> y % 100 == 0
    ensures y % 100 == 0 ==> y % 4 == 0
  {
    if y % 400 == 0 {
      HundredsOfFourHundreds(y / 400);
    }
    if y % 100 == 0 {
      FoursOfHundreds(y / 100);
    }
  }
  lemma HundredsOfFourHundreds(q: int)
    ensures (400 * q) % 100 == 0
  {
    assert 400 * q == 100 * (4 * q);
  }
  lemma FoursOfHundreds(q: int)
    ensures (100 * q) % 4 == 0
  {
    assert 100 * q == 4 * (25 * q);
  }

  /** Consecutive calendar days have consecutive day numbers, across month and year ends. */
  lemma NextDayNumber(d: Date)
    requires d.Valid() && d != Date(9999, 12, 31)
    ensures DayNumber(NextDay(d)) == DayNumber(d) + 1
  {
    if d.day < DaysInMonth(d.year, d.month) {
      assert NextDay(d) == Date(d.year, d.month, d.day + 1);
    } else if d.month < 12 {
      assert NextDay(d) == Date(d.year, d.month + 1, 1);
      assert DaysBeforeMonth(d.year, d.month + 1) == DaysBeforeMonth(d.year, d.month) + d.day;
    } else {
      NewYearNumber(d.year);
    }
  }

  /** January 1st follows December 31st by one day number. */
  lemma NewYearNumber(y: int)
    requires 1 <= y < 9999
    ensures DayNumber(Date(y + 1, 1, 1)) == DayNumber(Date(y, 12, 31)) + 1
  {
    DaysInYear(y);
    LeapDaysStep(y);
    assert DaysBeforeMonth(y + 1, 1) == 0;
  }

  /** Across midnight, `(a - b).total_seconds()` is a full day plus the difference of the
      seconds of day. */
  lemma MidnightElapsed(a: DateTime, b: DateTime)
    requires b.date != Date(9999, 12, 31) && a.date == NextDay(b.date)
    ensures ElapsedSeconds(a, b) == 86400 + SecondsOfDay(a) - SecondsOfDay(b)
  {
    NextDayNumber(b.date);
  }

  /** `strftime("%Y%m%d_%H%M%S")`; the year is written with four digits. */
  function FormatCompact(t: DateTime): (s: string)
    ensures |s| == 15 && s[8] == '_'
    ensures forall i :: 0 <= i < 15 && i != 8 ==> IsDigit(s[i])
  {
    FixedDigits(t.date.year, 4) + FixedDigits(t.date.month, 2) + FixedDigits(t.date.day, 2) + "_"
    + FixedDigits(t.hour, 2) + FixedDigits(t.minute, 2) + FixedDigits(t.second, 2)
  }

  /** Different instants get different compact names. */
  lemma FormatCompactInjective(a: DateTime, b: DateTime)
    requires FormatCompact(a) == FormatCompact(b)
    ensures a == b
  {
    var sa, sb := FormatCompact(a), FormatCompact(b);
    assert sa[0..4] == FixedDigits(a.date.year, 4) && sb[0..4] == FixedDigits(b.date.year, 4);
    assert sa[4..6] == FixedDigits(a.date.month, 2) && sb[4..6] == FixedDigits(b.date.month, 2);
    assert sa[6..8] == FixedDigits(a.date.day, 2) && sb[6..8] == FixedDigits(b.date.day, 2);
    assert sa[9..11] == FixedDigits(a.hour, 2) && sb[9..11] == FixedDigits(b.hour, 2);
    assert sa[11..13] == FixedDigits(a.minute, 2) && sb[11..13] == FixedDigits(b.minute, 2);
    assert sa[13..15] == FixedDigits(a.second, 2) && sb[13..15] == FixedDigits(b.second, 2);
    assert Pow10(2) == 100 && Pow10(4) == 10000;
    FixedDigitsInjective(a.date.year, b.date.year, 4);
    FixedDigitsInjective(a.date.month, b.date.month, 2);
    FixedDigitsInjective(a.date.day, b.date.day, 2);
    FixedDigitsInjective(a.hour, b.hour, 2);
    FixedDigitsInjective(a.minute, b.minute, 2);
    FixedDigitsInjective(a.second, b.second, 2);
  }

  /** The injected `clock` callable: the k-th call returns `readings(k)`. */
  class Clock {
    const readings: nat -> DateTime
    var ticks: nat

    constructor (readings: nat -> DateTime)
      ensures this.readings == readings && ticks == 0
    {
      this.readings := readings;
      ticks := 0;
    }

    method Now() returns (t: DateTime)
      modifies this
      ensures t == readings(old(ticks)) && ticks == old(ticks) + 1
    {
      t := readings(ticks);
      ticks := ticks + 1;
    }
  }
}
