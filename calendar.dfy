/** The part of the proleptic Gregorian calendar that the timesheet filler
    uses through its date library: calendar dates, stepping a date forward
    one day at a time, ISO 8601 week dates (ISO 8601:2004 section 4.1.4) and
    the extended calendar-date text form `YYYY-MM-DD`.

    Dates are numbered by `DayNumber`, the count of days since 0001-01-01.
    That day is a Monday, so `DayNumber(d) % 7` is the weekday of `d` with
    0 for Monday and 6 for Sunday. */
module Calendar {
  import opened Results
  import opened Decimal

  datatype Date = Date(year: int, month: int, day: int)

  predicate IsLeapYear(y: int) {
    y % 4 == 0 && (y % 100 != 0 || y % 400 == 0)
  }

  function DaysInYear(y: int): int {
    if IsLeapYear(y) then 366 else 365
  }

  function DaysInMonth(y: int, m: int): int
    requires 1 <= m <= 12
  {
    if m == 2 then (if IsLeapYear(y) then 29 else 28)
    else if m == 4 || m == 6 || m == 9 || m == 11 then 30
    else 31
  }

  /** A date that exists in the calendar. */
  predicate Valid(d: Date) {
    1 <= d.month <= 12 && 1 <= d.day <= DaysInMonth(d.year, d.month)
  }

  /** Days of year `y` that come before the first of month `m`. */
  function DaysBeforeMonth(y: int, m: int): int
    requires 1 <= m <= 12
  {
    [0, 31, 59, 90, 120, 151, 181, 212, 243, 273, 304, 334][m - 1]
      + (if m > 2 && IsLeapYear(y) then 1 else 0)
  }

  /** Day number of January 1 of year `y` (floor division counts the leap
      years before `y`, also for years before 1). */
  function YearStart(y: int): int {
    365 * (y - 1) + (y - 1) / 4 - (y - 1) / 100 + (y - 1) / 400
  }

  /** Days from 0001-01-01 to `d`; 0001-01-01 itself is day 0. */
  function DayNumber(d: Date): int
    requires Valid(d)
  {
    YearStart(d.year) + DaysBeforeMonth(d.year, d.month) + d.day - 1
  }

  /** Weekday of a day number: 0 is Monday, 6 is Sunday. */
  function Weekday(n: int): int {
    n % 7
  }

  /** The calendar day after `d`. */
  function NextDay(d: Date): Date
    requires Valid(d)
  {
    if d.day < DaysInMonth(d.year, d.month) then Date(d.year, d.month, d.day + 1)
    else if d.month < 12 then Date(d.year, d.month + 1, 1)
    else Date(d.year + 1, 1, 1)
  }

  /** The date `k` days after `d`, reached one day at a time as the date
      library's day iterator does. */
  function AddDays(d: Date, k: nat): (r: Date)
    requires Valid(d)
    ensures Valid(r)
  {
    if k == 0 then d
    else
      var before := AddDays(d, k - 1);
      NextDayFacts(before);
      NextDay(before)
  }

  lemma YearStartStep(y: int)
    ensures YearStart(y + 1) == YearStart(y) + DaysInYear(y)
  {
    assert y / 4 - (y - 1) / 4 == (if y % 4 == 0 then 1 else 0);
    assert y / 100 - (y - 1) / 100 == (if y % 100 == 0 then 1 else 0);
    assert y / 400 - (y - 1) / 400 == (if y % 400 == 0 then 1 else 0);
  }

  /** Stepping one day keeps a date valid and advances its number by one. */
  lemma NextDayFacts(d: Date)
    requires Valid(d)
    ensures Valid(NextDay(d))
    ensures DayNumber(NextDay(d)) == DayNumber(d) + 1
  {
    if d.day == DaysInMonth(d.year, d.month) && d.month == 12 {
      YearStartStep(d.year);
    }
  }

  /** `AddDays` moves exactly `k` day numbers forward. */
  lemma {:induction false} AddDaysNumber(d: Date, k: nat)
    requires Valid(d)
    ensures DayNumber(AddDays(d, k)) == DayNumber(d) + k
  {
    if k > 0 {
      AddDaysNumber(d, k - 1);
      NextDayFacts(AddDays(d, k - 1));
    }
  }

  /** Two valid dates with the same number are the same date. */
  lemma DayNumberInjective(a: Date, b: Date)
    requires Valid(a) && Valid(b)
    requires DayNumber(a) == DayNumber(b)
    ensures a == b
  {
    YearBounds(a);
    YearBounds(b);
    if a.year < b.year {
      YearStartMonotone(a.year + 1, b.year);
    } else if b.year < a.year {
      YearStartMonotone(b.year + 1, a.year);
    }
    assert a.year == b.year;
    if a.month < b.month {
      DaysBeforeMonthMonotone(a.year, a.month, b.month);
    } else if b.month < a.month {
      DaysBeforeMonthMonotone(a.year, b.month, a.month);
    }
  }

  lemma DaysBeforeMonthMonotone(y: int, m: int, m': int)
    requires 1 <= m < m' <= 12
    ensures DaysBeforeMonth(y, m) + DaysInMonth(y, m) <= DaysBeforeMonth(y, m')
  {
  }

  /** A date's number lies in its own year. */
  lemma YearBounds(d: Date)
    requires Valid(d)
    ensures YearStart(d.year) <= DayNumber(d) < YearStart(d.year + 1)
  {
    YearStartStep(d.year);
  }

  lemma {:induction false} YearStartMonotone(y: int, y': int)
    requires y <= y'
    ensures YearStart(y) + 365 * (y' - y) <= YearStart(y')
    decreases y' - y
  {
    if y < y' {
      YearStartMonotone(y, y' - 1);
      YearStartStep(y' - 1);
    }
  }

  // ISO 8601 week dates

  datatype IsoWeek = IsoWeek(year: int, week: int)

  /** Day number of the Monday that starts week 1 of ISO week-year `y`:
      the Monday on or before January 4. */
  function WeekOneStart(y: int): int {
    var jan4 := YearStart(y) + 3;
    jan4 - Weekday(jan4)
  }

  /** Number of ISO weeks in week-year `y` (52 or 53, see `WeeksInYearRange`). */
  function WeeksInYear(y: int): int {
    (WeekOneStart(y + 1) - WeekOneStart(y)) / 7
  }

  /** Stepping back to the Monday on or before day `n`. */
  lemma MondayOnOrBefore(n: int)
    ensures Weekday(n - Weekday(n)) == 0
    ensures n - 6 <= n - Weekday(n) <= n
    ensures n - Weekday(n) == 7 * (n / 7)
  {
  }

  lemma WeekOneStartFacts(y: int)
    ensures Weekday(WeekOneStart(y)) == 0
    ensures WeekOneStart(y) == 7 * (WeekOneStart(y) / 7)
    ensures YearStart(y) - 3 <= WeekOneStart(y) <= YearStart(y) + 3
  {
    MondayOnOrBefore(YearStart(y) + 3);
  }

  /** Consecutive week-one Mondays are a whole number of weeks apart,
      52 or 53 of them. */
  lemma WeeksInYearRange(y: int)
    ensures WeekOneStart(y + 1) - WeekOneStart(y) == 7 * WeeksInYear(y)
    ensures 52 <= WeeksInYear(y) <= 53
  {
    WeekOneStartFacts(y);
    WeekOneStartFacts(y + 1);
    YearStartStep(y);
    WholeWeeksBetween(WeekOneStart(y), WeekOneStart(y + 1));
  }

  /** Two Mondays between 359 and 373 days apart are 52 or 53 weeks apart. */
  lemma WholeWeeksBetween(a: int, b: int)
    requires a == 7 * (a / 7) && b == 7 * (b / 7)
    requires 359 <= b - a <= 373
    ensures b - a == 7 * ((b - a) / 7)
    ensures 52 <= (b - a) / 7 <= 53
  {
    assert b - a == 7 * (b / 7 - a / 7);
  }

  /** A date lies between the week-one Mondays of the year before its own
      and of the year after next. */
  lemma IsoYearWindow(d: Date)
    requires Valid(d)
    ensures WeekOneStart(d.year - 1) <= DayNumber(d) < WeekOneStart(d.year + 2)
  {
    var y := d.year;
    YearBounds(d);
    YearStartStep(y + 1);
    YearStartStep(y - 1);
    WeekOneStartFacts(y - 1);
    WeekOneStartFacts(y + 2);
    var previous, next := YearStart(y - 1), YearStart(y + 2);
    assert previous + 366 >= YearStart(y);
    assert next >= YearStart(y + 1) + 365;
  }

  /** Whole weeks from a Monday `start` to day `n`, for `n` before the
      Monday `next` that is `weeks` weeks after `start`. */
  lemma WeekIndexBounds(n: int, start: int, next: int, weeks: int)
    requires start <= n < next && next - start == 7 * weeks
    ensures 0 <= (n - start) / 7 < weeks
    ensures n - 6 <= start + 7 * ((n - start) / 7) <= n
  {
    var offset := n - start;
    assert offset == 7 * (offset / 7) + offset % 7;
  }

  /** Day `n` falls in ISO week `w`: on or after the week-one Monday of
      week-year `w.year` and before the next year's, in an existing week
      whose Monday is at most six days before day `n`. */
  predicate InIsoWeek(n: int, w: IsoWeek) {
    && WeekOneStart(w.year) <= n < WeekOneStart(w.year + 1)
    && 1 <= w.week <= WeeksInYear(w.year)
    && n - 6 <= WeekOneStart(w.year) + 7 * (w.week - 1) <= n
  }

  /** The ISO week-year and week number of a date (what the date library's
      `iso_week()` returns). */
  function IsoWeekOf(d: Date): (w: IsoWeek)
    requires Valid(d)
    ensures InIsoWeek(DayNumber(d), w)
    ensures w.year - 1 <= d.year <= w.year + 1
  {
    IsoYearWindow(d);
    WeekOfDay(DayNumber(d), d.year)
  }

  /** The ISO week of a date is the only week the date falls in. */
  lemma IsoWeekOfUnique(d: Date, w: IsoWeek)
    requires Valid(d) && InIsoWeek(DayNumber(d), w)
    ensures IsoWeekOf(d) == w
  {
    InIsoWeekUnique(DayNumber(d), IsoWeekOf(d), w);
  }

  /** A day falls in at most one ISO week. */
  lemma InIsoWeekUnique(n: int, w: IsoWeek, w': IsoWeek)
    requires InIsoWeek(n, w) && InIsoWeek(n, w')
    ensures w == w'
  {
    if w.year < w'.year {
      WeekOneStartsOrdered(w.year + 1, w'.year);
    } else if w'.year < w.year {
      WeekOneStartsOrdered(w'.year + 1, w.year);
    }
  }

  /** Week-one Mondays come in year order. */
  lemma WeekOneStartsOrdered(y: int, y': int)
    requires y <= y'
    ensures WeekOneStart(y) <= WeekOneStart(y')
  {
    if y < y' {
      YearStartMonotone(y, y');
      WeekOneStartFacts(y);
      WeekOneStartFacts(y');
    }
  }

  /** The ISO week of day `n`, for `n` from the week-one Monday of
      `year - 1` up to that of `year + 2`. The ISO week-year is the year
      whose week-one Monday is the last one on or before day `n`. */
  function WeekOfDay(n: int, year: int): (w: IsoWeek)
    requires WeekOneStart(year - 1) <= n < WeekOneStart(year + 2)
    ensures InIsoWeek(n, w)
    ensures year - 1 <= w.year <= year + 1
  {
    if n >= WeekOneStart(year + 1) then IsoWeek(year + 1, WeekNumber(n, year + 1))
    else if n >= WeekOneStart(year) then IsoWeek(year, WeekNumber(n, year))
    else IsoWeek(year - 1, WeekNumber(n, year - 1))
  }

  /** The number of the week of ISO week-year `y` that holds day `n`:
      `(n - start) / 7 + 1`, where `start` is the week-one Monday. */
  function WeekNumber(n: int, y: int): (k: int)
    requires WeekOneStart(y) <= n < WeekOneStart(y + 1)
    ensures InIsoWeek(n, IsoWeek(y, k))
  {
    var start := WeekOneStart(y);
    WeeksInYearRange(y);
    WeekIndexBounds(n, start, WeekOneStart(y + 1), WeeksInYear(y));
    (n - start) / 7 + 1
  }

  /** The date of the Monday of week 1 of ISO week-year `y`: between
      December 29 of the previous year and January 4. */
  function WeekOneMonday(y: int): (r: Date)
    ensures Valid(r) && DayNumber(r) == WeekOneStart(y)
  {
    var wd := Weekday(YearStart(y) + 3);
    if wd <= 3 then Date(y, 1, 4 - wd)
    else
      YearStartStep(y - 1);
      Date(y - 1, 12, 35 - wd)
  }

  /** The Monday of ISO week `week` of week-year `year`, or `None` when that
      year has no such week (the date library's `from_isoywd_opt` with
      `Weekday::Mon`). */
  function MondayOfIsoWeek(year: int, week: int): (r: Option<Date>)
    ensures r.Some? <==> 1 <= week <= WeeksInYear(year)
    ensures r.Some? ==> Valid(r.value)
    ensures r.Some? ==> DayNumber(r.value) == WeekOneStart(year) + 7 * (week - 1)
    ensures r.Some? ==> Weekday(DayNumber(r.value)) == 0
  {
    if 1 <= week <= WeeksInYear(year) then
      MondayOfWeekFacts(year, week);
      Some(AddDays(WeekOneMonday(year), 7 * (week - 1)))
    else None
  }

  lemma MondayOfWeekFacts(year: int, week: int)
    requires 1 <= week
    ensures DayNumber(AddDays(WeekOneMonday(year), 7 * (week - 1))) == WeekOneStart(year) + 7 * (week - 1)
    ensures Weekday(WeekOneStart(year) + 7 * (week - 1)) == 0
  {
    AddDaysNumber(WeekOneMonday(year), 7 * (week - 1));
    WeekOneStartFacts(year);
    WholeWeeksLater(WeekOneStart(year), week - 1);
  }

  /** Whole weeks after a Monday is a Monday. */
  lemma WholeWeeksLater(monday: int, weeks: int)
    requires Weekday(monday) == 0
    ensures Weekday(monday + 7 * weeks) == 0
  {
    assert monday == 7 * (monday / 7);
    assert monday + 7 * weeks == 7 * (monday / 7 + weeks);
  }

  // The `%Y-%m-%d` text form

  /** `%Y`: four digits for years 0 to 9999; otherwise a sign followed by at
      least four digits. */
  function FormatYear(y: int): string {
    if 0 <= y <= 9999 then PadDigits(y, 4)
    else
      var magnitude: nat := if y < 0 then -y else y;
      (if y < 0 then "-" else "+")
        + (if magnitude < 10000 then PadDigits(magnitude, 4) else Digits(magnitude))
  }

  /** `%Y-%m-%d`, month and day zero-padded to two digits. */
  function FormatDate(d: Date): string
    requires Valid(d)
  {
    FormatYear(d.year) + "-" + PadDigits(d.month, 2) + "-" + PadDigits(d.day, 2)
  }

  /** Reads back a date written as `YYYY-MM-DD` with a year from 0 to 9999. */
  function ParseDate(s: string): Option<Date> {
    if |s| == 10 && s[4] == '-' && s[7] == '-'
       && AllDigits(s[..4]) && AllDigits(s[5..7]) && AllDigits(s[8..])
    then
      var d := Date(DigitsValue(s[..4]), DigitsValue(s[5..7]), DigitsValue(s[8..]));
      if Valid(d) then Some(d) else None
    else None
  }

  /** Round trip of the text form: a date from year 0 to 9999 formats as ten
      characters that read back as the same date. */
  lemma FormatDateRoundTrip(d: Date)
    requires Valid(d)
    ensures 0 <= d.year <= 9999 ==> |FormatDate(d)| == 10 && ParseDate(FormatDate(d)) == Some(d)
  {
    if !(0 <= d.year <= 9999) {
      return;
    }
    var y, m, dd := PadDigits(d.year, 4), PadDigits(d.month, 2), PadDigits(d.day, 2);
    assert Pow10(4) == 10000 && Pow10(2) == 100;
    PadDigitsValue(d.year, 4);
    PadDigitsValue(d.month, 2);
    PadDigitsValue(d.day, 2);
    var s := FormatDate(d);
    assert s == y + "-" + m + "-" + dd;
    assert s[..4] == y && s[5..7] == m && s[8..] == dd;
  }
}
