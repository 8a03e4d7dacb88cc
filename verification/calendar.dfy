/** Calendar fields of an integer epoch time in the proleptic Gregorian
    calendar, without leap seconds: the year, month, day of month, hour,
    minute, second and day of year (julday) that the time library reports for
    an origin time. */
module Calendar {

  const SecondsPerDay := 86400
  const EpochYear := 1970

  predicate IsLeapYear(y: int) {
    y % 4 == 0 && (y % 100 != 0 || y % 400 == 0)
  }

  function DaysInYear(y: int): int {
    if IsLeapYear(y) then 366 else 365
  }

  /** Days from 1970-01-01 to January 1st of year y (negative before 1970). */
  function DaysBeforeYear(y: int): int
    decreases if y < EpochYear then EpochYear - y else y - EpochYear
  {
    if y == EpochYear then 0
    else if y > EpochYear then DaysBeforeYear(y - 1) + DaysInYear(y - 1)
    else DaysBeforeYear(y + 1) - DaysInYear(y)
  }

  lemma DaysBeforeNextYear(y: int)
    ensures DaysBeforeYear(y + 1) == DaysBeforeYear(y) + DaysInYear(y)
  {
  }

  /** Years start further from the epoch the later they are. */
  lemma {:induction false} DaysBeforeYearIncreasing(a: int, b: int)
    requires a < b
    ensures DaysBeforeYear(a) + DaysInYear(a) <= DaysBeforeYear(b)
    decreases b - a
  {
    DaysBeforeNextYear(a);
    if a + 1 < b {
      DaysBeforeYearIncreasing(a + 1, b);
      DaysBeforeNextYear(a + 1);
    }
  }

  /** At most one year contains a given day number. */
  lemma YearUnique(y1: int, y2: int, d: int)
    requires DaysBeforeYear(y1) <= d < DaysBeforeYear(y1 + 1)
    requires DaysBeforeYear(y2) <= d < DaysBeforeYear(y2 + 1)
    ensures y1 == y2
  {
    DaysBeforeNextYear(y1);
    DaysBeforeNextYear(y2);
    if y1 < y2 {
      DaysBeforeYearIncreasing(y1, y2);
    } else if y2 < y1 {
      DaysBeforeYearIncreasing(y2, y1);
    }
  }

  /** Days of a common year before the first of each month, and the year's length. */
  const CommonMonthStarts: seq<int> := [0, 31, 59, 90, 120, 151, 181, 212, 243, 273, 304, 334, 365]

  /** Days of year y before the first of month m; m == 13 gives the year's length. */
  function MonthStart(y: int, m: int): int
    requires 1 <= m <= 13
  {
    CommonMonthStarts[m - 1] + (if m > 2 && IsLeapYear(y) then 1 else 0)
  }

  function DaysInMonth(y: int, m: int): (n: int)
    requires 1 <= m <= 12
    ensures 28 <= n <= 31
  {
    MonthStart(y, m + 1) - MonthStart(y, m)
  }

  /** Every month is at least 28 days long, so month starts grow with the month. */
  lemma {:induction false} MonthStartIncreasing(y: int, i: int, j: int)
    requires 1 <= i <= j <= 13
    ensures MonthStart(y, i) + 28 * (j - i) <= MonthStart(y, j)
    decreases j - i
  {
    if i < j {
      MonthStartIncreasing(y, i + 1, j);
      assert DaysInMonth(y, i) >= 28;
    }
  }

  datatype MonthDay = MonthDay(month: int, day: int)

  /** The month and day of month of the 0-based day of year ord, walking the
      months from month m on. */
  function MonthDayFrom(y: int, ord: int, m: int): (r: MonthDay)
    requires 1 <= m <= 12 && MonthStart(y, m) <= ord < DaysInYear(y)
    ensures m <= r.month <= 12 && 1 <= r.day <= 31
    decreases 12 - m
  {
    if ord < MonthStart(y, m + 1) then MonthDay(m, ord - MonthStart(y, m) + 1) else MonthDayFrom(y, ord, m + 1)
  }

  /** The month found is the one whose days hold ord, and the day counts from its first. */
  lemma {:induction false} MonthDayFromFacts(y: int, ord: int, m: int)
    requires 1 <= m <= 12 && MonthStart(y, m) <= ord < DaysInYear(y)
    ensures var r := MonthDayFrom(y, ord, m);
      && MonthStart(y, r.month) <= ord < MonthStart(y, r.month + 1)
      && r.day == ord - MonthStart(y, r.month) + 1
    decreases 12 - m
  {
    if ord >= MonthStart(y, m + 1) {
      MonthDayFromFacts(y, ord, m + 1);
    }
  }

  datatype Date = Date(year: int, month: int, day: int, julday: int)

  /** The calendar date of day number d, searching for its year from year y. */
  function DateFrom(d: int, y: int): (r: Date)
    ensures 1 <= r.month <= 12 && 1 <= r.day <= 31 && 1 <= r.julday <= 366
    decreases (if d < DaysBeforeYear(y) then 1 else 0),
              (if d < DaysBeforeYear(y) then DaysBeforeYear(y) - d else d - DaysBeforeYear(y))
  {
    DaysBeforeNextYear(y);
    DaysBeforeNextYear(y - 1);
    if d < DaysBeforeYear(y) then DateFrom(d, y - 1)
    else if d >= DaysBeforeYear(y + 1) then DateFrom(d, y + 1)
    else
      var ord := d - DaysBeforeYear(y);
      var md := MonthDayFrom(y, ord, 1);
      Date(y, md.month, md.day, ord + 1)
  }

  /** The year found holds day d, and the date is that day of the year. */
  lemma {:induction false} DateFromFacts(d: int, y: int)
    ensures var r := DateFrom(d, y);
      && DaysBeforeYear(r.year) <= d < DaysBeforeYear(r.year + 1)
      && r.julday == d - DaysBeforeYear(r.year) + 1
      && r.julday <= DaysInYear(r.year)
      && MonthDay(r.month, r.day) == MonthDayFrom(r.year, r.julday - 1, 1)
    decreases (if d < DaysBeforeYear(y) then 1 else 0),
              (if d < DaysBeforeYear(y) then DaysBeforeYear(y) - d else d - DaysBeforeYear(y))
  {
    DaysBeforeNextYear(y);
    DaysBeforeNextYear(y - 1);
    if d < DaysBeforeYear(y) {
      DateFromFacts(d, y - 1);
    } else if d >= DaysBeforeYear(y + 1) {
      DateFromFacts(d, y + 1);
    }
  }

  /** The calendar date of day number d (day 0 is 1970-01-01). */
  function DateOfDay(d: int): (r: Date)
    ensures 1 <= r.month <= 12 && 1 <= r.day <= 31 && 1 <= r.julday <= 366
  {
    DateFrom(d, EpochYear)
  }

  /** The date's year holds day d, its month holds the day of year, and the
      day of month and day of year agree. */
  lemma DateOfDayFacts(d: int)
    ensures var r := DateOfDay(d);
      && 1 <= r.day <= DaysInMonth(r.year, r.month)
      && 1 <= r.julday <= DaysInYear(r.year)
      && r.julday == MonthStart(r.year, r.month) + r.day
      && DaysBeforeYear(r.year) + r.julday - 1 == d
  {
    var r := DateFrom(d, EpochYear);
    DateFromFacts(d, EpochYear);
    var ord := r.julday - 1;
    MonthDayFromFacts(r.year, ord, 1);
    var m := MonthDayFrom(r.year, ord, 1).month;
    assert r.month == m && r.day == ord - MonthStart(r.year, m) + 1;
    DayInMonth(r.year, m, ord, r.day);
  }

  /** The day of month of a day of year inside month m fits that month. */
  lemma DayInMonth(y: int, m: int, ord: int, day: int)
    requires 1 <= m <= 12 && MonthStart(y, m) <= ord < MonthStart(y, m + 1)
    requires day == ord - MonthStart(y, m) + 1
    ensures 1 <= day <= DaysInMonth(y, m) && ord + 1 == MonthStart(y, m) + day
  {
  }

  /** Within a year, consecutive days of the year have different days of month. */
  lemma DayOfMonthChangesWithinYear(y: int, o: int, m1: int, m2: int)
    requires 1 <= m1 <= 12 && MonthStart(y, m1) <= o < MonthStart(y, m1 + 1)
    requires 1 <= m2 <= 12 && MonthStart(y, m2) <= o + 1 < MonthStart(y, m2 + 1)
    ensures o + 1 - MonthStart(y, m2) != o - MonthStart(y, m1)
  {
    if m2 < m1 {
      MonthStartIncreasing(y, m2 + 1, m1);
    } else if m1 < m2 {
      MonthStartIncreasing(y, m1 + 1, m2);
      MonthStartIncreasing(y, m1, m1 + 1);
    }
  }

  /** The last day of a year is the 31st, the first day of a year the 1st. */
  lemma DayOfMonthChangesAtNewYear(y: int, m1: int, y2: int, m2: int)
    requires 1 <= m1 <= 12 && MonthStart(y, m1) <= DaysInYear(y) - 1 < MonthStart(y, m1 + 1)
    requires 1 <= m2 <= 12 && MonthStart(y2, m2) <= 0 < MonthStart(y2, m2 + 1)
    ensures DaysInYear(y) - 1 - MonthStart(y, m1) != 0 - MonthStart(y2, m2)
  {
    MonthStartIncreasing(y, m1 + 1, 13);
    MonthStartIncreasing(y2, 1, m2);
  }

  /** Before the last day of a year, the next day is the next day of the same year. */
  lemma NextDateWithinYear(d: int)
    requires DateOfDay(d).julday < DaysInYear(DateOfDay(d).year)
    ensures DateOfDay(d + 1).year == DateOfDay(d).year
    ensures DateOfDay(d + 1).julday == DateOfDay(d).julday + 1
    ensures DateOfDay(d + 1).day != DateOfDay(d).day
  {
    var a, b := DateOfDay(d), DateOfDay(d + 1);
    DateOfDayFacts(d);
    DateOfDayFacts(d + 1);
    DaysBeforeNextYear(a.year);
    DaysBeforeNextYear(b.year);
    YearUnique(a.year, b.year, d + 1);
    assert MonthStart(a.year, a.month) <= a.julday - 1 < MonthStart(a.year, a.month + 1);
    assert MonthStart(b.year, b.month) <= b.julday - 1 < MonthStart(b.year, b.month + 1);
    DayOfMonthChangesWithinYear(a.year, a.julday - 1, a.month, b.month);
  }

  /** After the last day of a year comes January 1st of the next year. */
  lemma NextDateAtNewYear(d: int)
    requires DateOfDay(d).julday == DaysInYear(DateOfDay(d).year)
    ensures DateOfDay(d + 1).year == DateOfDay(d).year + 1
    ensures DateOfDay(d + 1).julday == 1
    ensures DateOfDay(d + 1).day != DateOfDay(d).day
  {
    var a, b := DateOfDay(d), DateOfDay(d + 1);
    DateOfDayFacts(d);
    DateOfDayFacts(d + 1);
    DaysBeforeNextYear(a.year);
    DaysBeforeNextYear(a.year + 1);
    DaysBeforeNextYear(b.year);
    YearUnique(a.year + 1, b.year, d + 1);
    assert MonthStart(a.year, a.month) <= a.julday - 1 < MonthStart(a.year, a.month + 1);
    assert MonthStart(b.year, b.month) <= b.julday - 1 < MonthStart(b.year, b.month + 1);
    DayOfMonthChangesAtNewYear(a.year, a.month, b.year, b.month);
  }

  /** The day after a date is the next day of the year, or January 1st of the
      next year after the last day; either way its day of month differs. */
  lemma NextDate(d: int)
    ensures var a, b := DateOfDay(d), DateOfDay(d + 1);
      && (if a.julday < DaysInYear(a.year) then b.year == a.year && b.julday == a.julday + 1
          else b.year == a.year + 1 && b.julday == 1)
      && b.day != a.day
  {
    DateOfDayFacts(d);
    if DateOfDay(d).julday < DaysInYear(DateOfDay(d).year) {
      NextDateWithinYear(d);
    } else {
      NextDateAtNewYear(d);
    }
  }

  datatype DateTime = DateTime(year: int, month: int, day: int,
                               hour: int, minute: int, second: int, julday: int)

  /** The calendar fields of epoch time t (whole seconds, floor division). */
  function FieldsOf(t: int): (r: DateTime)
    ensures 1 <= r.month <= 12 && 1 <= r.day <= 31 && 1 <= r.julday <= 366
    ensures 0 <= r.hour < 24 && 0 <= r.minute < 60 && 0 <= r.second < 60
  {
    // 86400 is SecondsPerDay, written as a literal so that the division stays linear
    var date := DateOfDay(t / 86400);
    var sod := t % 86400;
    DateTime(date.year, date.month, date.day, sod / 3600, sod % 3600 / 60, sod % 60, date.julday)
  }

  /** The epoch time a set of calendar fields names (julday is not consulted). */
  function EpochOf(f: DateTime): int
    requires 1 <= f.month <= 12
  {
    (DaysBeforeYear(f.year) + MonthStart(f.year, f.month) + f.day - 1) * SecondsPerDay
      + f.hour * 3600 + f.minute * 60 + f.second
  }

  /** The calendar fields determine the time they were computed from. */
  lemma FieldsRoundTrip(t: int)
    ensures EpochOf(FieldsOf(t)) == t
  {
    var d, sod := t / SecondsPerDay, t % SecondsPerDay;
    var date := DateOfDay(d);
    DateOfDayFacts(d);
    assert DaysBeforeYear(date.year) + MonthStart(date.year, date.month) + date.day - 1 == d;
    assert sod == sod / 3600 * 3600 + sod % 3600 / 60 * 60 + sod % 60;
  }

  /** The date a day later: the next day of the year, or the first day of the next year. */
  lemma FieldsOneDayLater(t: int)
    ensures var f, g := FieldsOf(t), FieldsOf(t + SecondsPerDay);
      if f.julday < DaysInYear(f.year) then g.year == f.year && g.julday == f.julday + 1
      else g.year == f.year + 1 && g.julday == 1
  {
    assert (t + SecondsPerDay) / SecondsPerDay == t / SecondsPerDay + 1;
    NextDate(t / SecondsPerDay);
  }
}
