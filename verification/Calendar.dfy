/** The proleptic Gregorian calendar of Python's datetime: years 1 to 9999, the leap
    rule and the month lengths of RFC 3339 (Appendix C and section 5.7). Instants
    are whole microseconds since the start of year 1. */
module Calendar {
  /** Whole days in microseconds. */
  function Days(n: int): int {
    n * 86_400_000_000
  }

  predicate Leap(year: int) {
    year % 4 == 0 && (year % 100 != 0 || year % 400 == 0)
  }

  function MonthLength(year: int, month: int): int
    requires 1 <= month <= 12
  {
    if month == 2 then (if Leap(year) then 29 else 28)
    else if month == 4 || month == 6 || month == 9 || month == 11 then 30
    else 31
  }

  function YearLength(year: int): int {
    if Leap(year) then 366 else 365
  }

  /** Days before 1 January of `year`, counted from 1 January of year 1. */
  function DaysBeforeYear(year: int): int {
    var y := year - 1;
    365 * y + y / 4 - y / 100 + y / 400
  }

  function DaysBeforeMonth(year: int, month: int): int
    requires 1 <= month <= 12
  {
    if month == 1 then 0 else DaysBeforeMonth(year, month - 1) + MonthLength(year, month - 1)
  }

  /** A date and time of day without its year. */
  datatype Reading = Reading(month: int, day: int, hour: int, minute: int, second: int, micro: int)

  datatype DateTime = DateTime(year: int, reading: Reading)

  predicate ClockValid(r: Reading) {
    0 <= r.hour < 24 && 0 <= r.minute < 60 && 0 <= r.second < 60 && 0 <= r.micro < 1_000_000
  }

  /** Exactly the arguments from which a datetime can be built. */
  predicate Valid(d: DateTime) {
    && 1 <= d.year <= 9999
    && 1 <= d.reading.month <= 12
    && 1 <= d.reading.day <= MonthLength(d.year, d.reading.month)
    && ClockValid(d.reading)
  }

  function TimeOfDay(r: Reading): int {
    ((r.hour * 60 + r.minute) * 60 + r.second) * 1_000_000 + r.micro
  }

  /** Microseconds into the year. */
  function WithinYear(d: DateTime): int
    requires Valid(d)
  {
    Days(DaysBeforeMonth(d.year, d.reading.month) + d.reading.day - 1) + TimeOfDay(d.reading)
  }

  function Instant(d: DateTime): int
    requires Valid(d)
  {
    Days(DaysBeforeYear(d.year)) + WithinYear(d)
  }

  lemma StepBy4(y: int)
    ensures (y + 1) / 4 == y / 4 + (if (y + 1) % 4 == 0 then 1 else 0)
  {
  }

  lemma StepBy100(y: int)
    ensures (y + 1) / 100 == y / 100 + (if (y + 1) % 100 == 0 then 1 else 0)
  {
  }

  lemma StepBy400(y: int)
    ensures (y + 1) / 400 == y / 400 + (if (y + 1) % 400 == 0 then 1 else 0)
  {
  }

  lemma MultipleOfFour(y: int, k: int)
    requires y == 4 * k
    ensures y % 4 == 0
  {
  }

  lemma MultipleOfHundred(y: int, k: int)
    requires y == 100 * k
    ensures y % 100 == 0
  {
  }

  lemma Centuries(y: int)
    ensures y % 100 == 0 ==> y % 4 == 0
    ensures y % 400 == 0 ==> y % 100 == 0
  {
    if y % 100 == 0 {
      MultipleOfFour(y, 25 * (y / 100));
    }
    if y % 400 == 0 {
      MultipleOfHundred(y, 4 * (y / 400));
    }
  }

  /** The closed form of the year's start agrees with the lengths of the years. */
  lemma YearsAreConsecutive(year: int)
    ensures DaysBeforeYear(year + 1) == DaysBeforeYear(year) + YearLength(year)
  {
    StepBy4(year - 1);
    StepBy100(year - 1);
    StepBy400(year - 1);
    Centuries(year);
  }

  lemma MonthTable(year: int)
    ensures var leap := if Leap(year) then 1 else 0;
      && DaysBeforeMonth(year, 1) == 0 && DaysBeforeMonth(year, 2) == 31
      && DaysBeforeMonth(year, 3) == 59 + leap && DaysBeforeMonth(year, 4) == 90 + leap
      && DaysBeforeMonth(year, 5) == 120 + leap && DaysBeforeMonth(year, 6) == 151 + leap
      && DaysBeforeMonth(year, 7) == 181 + leap && DaysBeforeMonth(year, 8) == 212 + leap
      && DaysBeforeMonth(year, 9) == 243 + leap && DaysBeforeMonth(year, 10) == 273 + leap
      && DaysBeforeMonth(year, 11) == 304 + leap && DaysBeforeMonth(year, 12) == 334 + leap
  {
    assert DaysBeforeMonth(year, 2) == DaysBeforeMonth(year, 1) + 31;
    assert DaysBeforeMonth(year, 3) == 31 + MonthLength(year, 2);
    assert DaysBeforeMonth(year, 5) == DaysBeforeMonth(year, 3) + 61;
    assert DaysBeforeMonth(year, 7) == DaysBeforeMonth(year, 5) + 61;
    assert DaysBeforeMonth(year, 9) == DaysBeforeMonth(year, 7) + 62;
    assert DaysBeforeMonth(year, 11) == DaysBeforeMonth(year, 9) + 61;
  }

  /** A year's instants lie between its own start and the next year's. */
  lemma InstantLiesInItsYear(d: DateTime)
    requires Valid(d)
    ensures Days(DaysBeforeYear(d.year)) <= Instant(d) < Days(DaysBeforeYear(d.year + 1))
  {
    YearsAreConsecutive(d.year);
    MonthTable(d.year);
  }

  /** The last day of a month, by the table of RFC 3339, section 5.7, and its Appendix C. */
  function LastDay(year: int, month: int): int {
    if month in {4, 6, 9, 11} then 30
    else if month != 2 then 31
    else if year % 400 == 0 || (year % 4 == 0 && year % 100 != 0) then 29
    else 28
  }

  /** The clock one microsecond later, carrying into the next unit where one is full. */
  function Tick(d: DateTime): DateTime {
    var r := d.reading;
    if r.micro < 999_999 then DateTime(d.year, r.(micro := r.micro + 1))
    else if r.second < 59 then DateTime(d.year, r.(micro := 0, second := r.second + 1))
    else if r.minute < 59 then DateTime(d.year, r.(micro := 0, second := 0, minute := r.minute + 1))
    else if r.hour < 23 then DateTime(d.year, Reading(r.month, r.day, r.hour + 1, 0, 0, 0))
    else if r.day < LastDay(d.year, r.month) then DateTime(d.year, Reading(r.month, r.day + 1, 0, 0, 0, 0))
    else if r.month < 12 then DateTime(d.year, Reading(r.month + 1, 1, 0, 0, 0, 0))
    else DateTime(d.year + 1, Reading(1, 1, 0, 0, 0, 0))
  }

  lemma LastDayIsTheMonthLength(year: int, month: int)
    requires 1 <= month <= 12
    ensures LastDay(year, month) == MonthLength(year, month)
  {
    Centuries(year);
  }

  predicate EndOfDay(r: Reading) {
    r.hour == 23 && r.minute == 59 && r.second == 59 && r.micro == 999_999
  }

  lemma TickWithinTheDay(d: DateTime)
    requires Valid(d) && !EndOfDay(d.reading)
    ensures Valid(Tick(d)) && Instant(Tick(d)) == Instant(d) + 1
  {
    var r := Tick(d).reading;
    assert r.month == d.reading.month && r.day == d.reading.day && TimeOfDay(r) == TimeOfDay(d.reading) + 1;
  }

  lemma TickAtMidnight(d: DateTime)
    requires Valid(d) && EndOfDay(d.reading) && Tick(d).year == d.year
    ensures Valid(Tick(d)) && Instant(Tick(d)) == Instant(d) + 1
  {
    var r := d.reading;
    LastDayIsTheMonthLength(d.year, r.month);
    if r.day == LastDay(d.year, r.month) {
      assert DaysBeforeMonth(d.year, r.month + 1) == DaysBeforeMonth(d.year, r.month) + r.day;
    }
  }

  lemma DecemberEndsTheYear(d: DateTime)
    requires Valid(d) && EndOfDay(d.reading) && d.reading.month == 12 && d.reading.day == 31
    ensures WithinYear(d) + 1 == Days(YearLength(d.year))
  {
    MonthTable(d.year);
  }

  lemma InstantAtNewYear(d: DateTime)
    requires 1 <= d.year <= 9999 && d.reading == Reading(1, 1, 0, 0, 0, 0)
    ensures Valid(d) && Instant(d) == Days(DaysBeforeYear(d.year))
  {
  }

  lemma InstantAtYearEnd(d: DateTime, next: int)
    requires Valid(d) && EndOfDay(d.reading) && d.reading.month == 12 && d.reading.day == 31 && next == d.year + 1
    ensures Instant(d) + 1 == Days(DaysBeforeYear(next))
  {
    DecemberEndsTheYear(d);
    YearsAreConsecutive(d.year);
  }

  lemma TickOfTheYearEnd(d: DateTime)
    requires EndOfDay(d.reading) && d.reading.month == 12 && d.reading.day == 31
    ensures Tick(d) == DateTime(d.year + 1, Reading(1, 1, 0, 0, 0, 0))
  {
  }

  lemma TickAtNewYear(d: DateTime, next: DateTime)
    requires Valid(d) && EndOfDay(d.reading) && d.reading.month == 12 && d.reading.day == 31 && d.year < 9999
    requires next == DateTime(d.year + 1, Reading(1, 1, 0, 0, 0, 0))
    ensures Valid(next) && Instant(next) == Instant(d) + 1
  {
    InstantAtNewYear(next);
    InstantAtYearEnd(d, next.year);
  }

  /** Instants count the microseconds from the start of year 1: it is zero, and each tick of
      the clock adds one, across every hour, month, leap day and year. */
  lemma InstantsCountMicroseconds(d: DateTime)
    requires Valid(d) && d != DateTime(9999, Reading(12, 31, 23, 59, 59, 999_999))
    ensures Valid(Tick(d)) && Instant(Tick(d)) == Instant(d) + 1
    ensures Valid(DateTime(1, Reading(1, 1, 0, 0, 0, 0))) && Instant(DateTime(1, Reading(1, 1, 0, 0, 0, 0))) == 0
  {
    if !EndOfDay(d.reading) {
      TickWithinTheDay(d);
    } else if Tick(d).year == d.year {
      TickAtMidnight(d);
    } else {
      LastDayIsTheMonthLength(d.year, 12);
      TickOfTheYearEnd(d);
      TickAtNewYear(d, Tick(d));
    }
  }

  predicate EarlierClock(a: Reading, b: Reading) {
    || a.hour < b.hour
    || (a.hour == b.hour && a.minute < b.minute)
    || (a.hour == b.hour && a.minute == b.minute && a.second < b.second)
    || (a.hour == b.hour && a.minute == b.minute && a.second == b.second && a.micro < b.micro)
  }

  predicate Earlier(a: DateTime, b: DateTime) {
    || a.year < b.year
    || (a.year == b.year && a.reading.month < b.reading.month)
    || (a.year == b.year && a.reading.month == b.reading.month && a.reading.day < b.reading.day)
    || (a.year == b.year && a.reading.month == b.reading.month && a.reading.day == b.reading.day
        && EarlierClock(a.reading, b.reading))
  }

  lemma EarlierWithinTheYear(a: DateTime, b: DateTime)
    requires Valid(a) && Valid(b) && a.year == b.year && Earlier(a, b)
    ensures WithinYear(a) < WithinYear(b)
  {
    MonthTable(a.year);
  }

  /** A valid date earlier in the calendar is an earlier instant, so no two are the same. */
  lemma EarlierIsLess(a: DateTime, b: DateTime)
    requires Valid(a) && Valid(b) && Earlier(a, b)
    ensures Instant(a) < Instant(b)
  {
    if a.year == b.year {
      EarlierWithinTheYear(a, b);
    } else {
      InstantLiesInItsYear(a);
      InstantLiesInItsYear(b);
      YearStartsGrow(a.year + 1, b.year);
    }
  }

  lemma MonthStartsNextYear(year: int, month: int)
    requires 1 <= month <= 12
    ensures DaysBeforeMonth(year + 1, month) - DaysBeforeMonth(year, month) ==
      if month <= 2 then 0 else YearLength(year + 1) - YearLength(year)
  {
    MonthTable(year);
    MonthTable(year + 1);
  }

  /** The same reading one year later is 365 or 366 days later. */
  lemma SameReadingNextYear(r: Reading, year: int)
    requires Valid(DateTime(year, r)) && Valid(DateTime(year + 1, r))
    ensures Days(365) <= Instant(DateTime(year + 1, r)) - Instant(DateTime(year, r)) <= Days(366)
  {
    YearsAreConsecutive(year);
    MonthStartsNextYear(year, r.month);
  }

  lemma {:induction false} YearStartsGrow(early: int, late: int)
    requires early <= late
    ensures DaysBeforeYear(early) + 365 * (late - early) <= DaysBeforeYear(late)
    decreases late - early
  {
    if early < late {
      YearStartsGrow(early, late - 1);
      YearsAreConsecutive(late - 1);
    }
  }

  /** Instants less than 365 days apart are in the same or in neighbouring years. */
  lemma NearInstantsNearYears(a: DateTime, b: DateTime)
    requires Valid(a) && Valid(b)
    requires Days(-365) < Instant(a) - Instant(b) < Days(365)
    ensures b.year - 1 <= a.year <= b.year + 1
  {
    InstantLiesInItsYear(a);
    InstantLiesInItsYear(b);
    if a.year > b.year + 1 {
      YearStartsGrow(b.year + 1, a.year);
    }
    if a.year < b.year - 1 {
      YearStartsGrow(a.year + 1, b.year);
    }
  }
}
