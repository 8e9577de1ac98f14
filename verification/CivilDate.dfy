/**
 Dates as ECMA-262 5.1 computes them (sections 15.9.1.2 to 15.9.1.5 and 15.9.1.12 to 15.9.1.14): days since
 1970-01-01, the proleptic Gregorian calendar, and the way back from a year, month and date to a day number.
 Dafny's `/` and `%` with a positive divisor are the standard's floor and modulo.
 */
module CivilDate {
  import opened Wrappers

  const MS_PER_DAY := 86_400_000
  const MAX_TIME := 8_640_000_000_000_000

  function Day(t: int): int {
    t / MS_PER_DAY
  }

  function TimeWithinDay(t: int): int {
    t % MS_PER_DAY
  }

  /** The day number of January 1st. */
  function DayFromYear(y: int): int {
    365 * (y - 1970) + (y - 1969) / 4 - (y - 1901) / 100 + (y - 1601) / 400
  }

  predicate IsLeap(y: int) {
    y % 4 == 0 && (y % 100 == 0 ==> y % 400 == 0)
  }

  function DaysInYear(y: int): int {
    if IsLeap(y) then 366 else 365
  }

  lemma FourthYears(y: int)
    ensures (y - 1968) / 4 == (y - 1969) / 4 + if y % 4 == 0 then 1 else 0
  {
    assert y - 1968 == 4 * (y / 4 - 492) + y % 4;
  }

  lemma Centuries(y: int)
    ensures (y - 1900) / 100 == (y - 1901) / 100 + if y % 100 == 0 then 1 else 0
  {
    assert y - 1900 == 100 * (y / 100 - 19) + y % 100;
  }

  lemma FourthCenturies(y: int)
    ensures (y - 1600) / 400 == (y - 1601) / 400 + if y % 400 == 0 then 1 else 0
  {
    assert y - 1600 == 400 * (y / 400 - 4) + y % 400;
  }

  lemma DivisibilityChain(y: int)
    ensures (y % 400 == 0 ==> y % 100 == 0) && (y % 100 == 0 ==> y % 4 == 0)
  {
    if y % 400 == 0 {
      var q := y / 400;
      assert y == 100 * (4 * q);
    }
    if y % 100 == 0 {
      var q := y / 100;
      assert y == 4 * (25 * q);
    }
  }

  /** The closed formula and the leap-year rule agree. */
  lemma YearLength(y: int)
    ensures DayFromYear(y + 1) - DayFromYear(y) == DaysInYear(y)
  {
    FourthYears(y);
    Centuries(y);
    FourthCenturies(y);
    DivisibilityChain(y);
  }

  lemma {:induction false} YearsGrow(y1: int, y2: int)
    requires y1 <= y2
    ensures DayFromYear(y2) - DayFromYear(y1) >= 365 * (y2 - y1)
    decreases y2 - y1
  {
    if y1 < y2 {
      YearsGrow(y1, y2 - 1);
      YearLength(y2 - 1);
    }
  }

  /** The year of a day, searched upwards from a year that has begun. */
  function YearFrom(day: int, y: int): int
    requires DayFromYear(y) <= day
    decreases day - DayFromYear(y)
  {
    YearLength(y);
    if day < DayFromYear(y + 1) then y else YearFrom(day, y + 1)
  }

  function YearFromDay(day: int): int {
    var y := if day >= 0 then 1970 else 1970 + day / 365;
    YearsGrow(if y <= 1970 then y else 1970, 1970);
    YearFrom(day, y)
  }

  lemma {:induction false} YearFromBrackets(day: int, y: int)
    requires DayFromYear(y) <= day
    ensures DayFromYear(YearFrom(day, y)) <= day < DayFromYear(YearFrom(day, y) + 1)
    decreases day - DayFromYear(y)
  {
    YearLength(y);
    if day >= DayFromYear(y + 1) {
      YearFromBrackets(day, y + 1);
    }
  }

  lemma YearBrackets(day: int)
    ensures DayFromYear(YearFromDay(day)) <= day < DayFromYear(YearFromDay(day) + 1)
  {
    var y := if day >= 0 then 1970 else 1970 + day / 365;
    YearsGrow(if y <= 1970 then y else 1970, 1970);
    YearFromBrackets(day, y);
  }

  /** The standard's definition: the year of a day is the largest year that has begun by then. */
  lemma YearIsLargestBegun(day: int, y: int)
    ensures DayFromYear(y) <= day <==> y <= YearFromDay(day)
  {
    var z := YearFromDay(day);
    YearBrackets(day);
    if y <= z {
      YearsGrow(y, z);
    } else {
      YearsGrow(z + 1, y);
    }
  }

  function DayWithinYear(day: int): int {
    day - DayFromYear(YearFromDay(day))
  }

  /** Days of the year before the given month, January being month 0. */
  function MonthStart(month: int, leap: bool): int
    requires 0 <= month <= 12
  {
    var l := if leap then 1 else 0;
    match month
    case 0 => 0
    case 1 => 31
    case 2 => 59 + l
    case 3 => 90 + l
    case 4 => 120 + l
    case 5 => 151 + l
    case 6 => 181 + l
    case 7 => 212 + l
    case 8 => 243 + l
    case 9 => 273 + l
    case 10 => 304 + l
    case 11 => 334 + l
    case _ => 365 + l
  }

  function DaysInMonth(month: int, leap: bool): int
    requires 0 <= month < 12
  {
    MonthStart(month + 1, leap) - MonthStart(month, leap)
  }

  function MonthOf(dayWithinYear: int, leap: bool): (m: int)
    ensures 0 <= m < 12
  {
    if dayWithinYear < MonthStart(1, leap) then 0
    else if dayWithinYear < MonthStart(2, leap) then 1
    else if dayWithinYear < MonthStart(3, leap) then 2
    else if dayWithinYear < MonthStart(4, leap) then 3
    else if dayWithinYear < MonthStart(5, leap) then 4
    else if dayWithinYear < MonthStart(6, leap) then 5
    else if dayWithinYear < MonthStart(7, leap) then 6
    else if dayWithinYear < MonthStart(8, leap) then 7
    else if dayWithinYear < MonthStart(9, leap) then 8
    else if dayWithinYear < MonthStart(10, leap) then 9
    else if dayWithinYear < MonthStart(11, leap) then 10
    else 11
  }

  function MonthFromDay(day: int): (m: int)
    ensures 0 <= m < 12
  {
    MonthOf(DayWithinYear(day), IsLeap(YearFromDay(day)))
  }

  function DateFromDay(day: int): int {
    DayWithinYear(day) - MonthStart(MonthFromDay(day), IsLeap(YearFromDay(day))) + 1
  }

  /** MakeDay of section 15.9.1.12; months outside 0..11 carry into the year, and any date is allowed. */
  function MakeDay(year: int, month: int, date: int): int {
    var y, m := year + month / 12, month % 12;
    DayFromYear(y) + MonthStart(m, IsLeap(y)) + date - 1
  }

  function MakeDate(day: int, time: int): int {
    day * MS_PER_DAY + time
  }

  function TimeClip(t: int): Option<int> {
    if -MAX_TIME <= t <= MAX_TIME then Some(t) else None
  }

  lemma MonthBounds(dayWithinYear: int, leap: bool)
    requires 0 <= dayWithinYear < MonthStart(12, leap)
    ensures var m := MonthOf(dayWithinYear, leap);
            MonthStart(m, leap) <= dayWithinYear < MonthStart(m + 1, leap)
  {
  }

  lemma MonthIsUnique(dayWithinYear: int, leap: bool, m: int)
    requires 0 <= m < 12 && MonthStart(m, leap) <= dayWithinYear < MonthStart(m + 1, leap)
    ensures MonthOf(dayWithinYear, leap) == m
  {
  }

  lemma YearIsUnique(day: int, y: int)
    requires DayFromYear(y) <= day < DayFromYear(y + 1)
    ensures YearFromDay(day) == y
  {
    YearIsLargestBegun(day, y);
    YearIsLargestBegun(day, y + 1);
  }

  lemma MakeDayInYear(year: int, month: int, date: int)
    requires 0 <= month < 12
    ensures MakeDay(year, month, date) == DayFromYear(year) + MonthStart(month, IsLeap(year)) + date - 1
  {
    assert month / 12 == 0 && month % 12 == month;
  }

  lemma DayIsInYear(day: int)
    ensures 0 <= DayWithinYear(day) < MonthStart(12, IsLeap(YearFromDay(day)))
  {
    YearBrackets(day);
    YearLength(YearFromDay(day));
  }

  /** A day has a year, a month and a date that name it: they are a real calendar date and lead back to the day. */
  lemma CivilRoundTrip(day: int)
    ensures MakeDay(YearFromDay(day), MonthFromDay(day), DateFromDay(day)) == day
    ensures 1 <= DateFromDay(day) <= DaysInMonth(MonthFromDay(day), IsLeap(YearFromDay(day)))
  {
    var y, m := YearFromDay(day), MonthFromDay(day);
    DayIsInYear(day);
    MonthBounds(DayWithinYear(day), IsLeap(y));
    MakeDayInYear(y, m, DateFromDay(day));
  }

  /** And every calendar date names one day, whose fields it is. */
  lemma CivilDateIsFound(year: int, month: int, date: int)
    requires 0 <= month < 12 && 1 <= date <= DaysInMonth(month, IsLeap(year))
    ensures var day := MakeDay(year, month, date);
            YearFromDay(day) == year && MonthFromDay(day) == month && DateFromDay(day) == date
  {
    var leap := IsLeap(year);
    var day := MakeDay(year, month, date);
    MakeDayInYear(year, month, date);
    YearLength(year);
    MonthStartsWithin(month, leap);
    YearIsUnique(day, year);
    MonthIsUnique(day - DayFromYear(year), leap, month);
  }

  lemma MonthStartsWithin(month: int, leap: bool)
    requires 0 <= month < 12
    ensures 0 <= MonthStart(month, leap) < MonthStart(month + 1, leap) <= if leap then 366 else 365
  {
  }

  /** The requirement section 15.9.1.12 puts on MakeDay: day 1 is the first of the carried year and month. */
  lemma MakeDayMeetsStandard(year: int, month: int, date: int)
    ensures var first := MakeDay(year, month, 1);
            && YearFromDay(first) == year + month / 12 && MonthFromDay(first) == month % 12
            && DateFromDay(first) == 1 && MakeDay(year, month, date) == first + date - 1
  {
    var y, m := year + month / 12, month % 12;
    MonthStartsWithin(m, IsLeap(y));
    CivilDateIsFound(y, m, 1);
    assert MakeDay(y, m, 1) == MakeDay(year, month, 1);
  }

  /** Splitting a time value into its day and the time within it loses nothing. */
  lemma DayAndTime(t: int)
    ensures MakeDate(Day(t), TimeWithinDay(t)) == t && 0 <= TimeWithinDay(t) < MS_PER_DAY
  {
  }

  lemma DayShifts(t: int, days: int)
    ensures Day(t + days * MS_PER_DAY) == Day(t) + days
  {
  }

  /** Day 0 is 1 January 1970. */
  lemma Epoch()
    ensures YearFromDay(0) == 1970 && MonthFromDay(0) == 0 && DateFromDay(0) == 1
  {
    hide YearFromDay, MonthFromDay, DateFromDay;
    CivilDateIsFound(1970, 0, 1);
  }

  /** Day 11 016 is the leap day of 2000. */
  lemma LeapDay2000()
    ensures YearFromDay(11_016) == 2000 && MonthFromDay(11_016) == 1 && DateFromDay(11_016) == 29
  {
    hide YearFromDay, MonthFromDay, DateFromDay;
    CivilDateIsFound(2000, 1, 29);
  }

  /** 1900 had none: the day after 28 February is 1 March, day -25 508. */
  lemma NoLeapDay1900()
    ensures YearFromDay(-25_508) == 1900 && MonthFromDay(-25_508) == 2 && DateFromDay(-25_508) == 1
    ensures YearFromDay(-25_509) == 1900 && MonthFromDay(-25_509) == 1 && DateFromDay(-25_509) == 28
  {
    hide YearFromDay, MonthFromDay, DateFromDay;
    CivilDateIsFound(1900, 2, 1);
    CivilDateIsFound(1900, 1, 28);
  }

  /** The lengths of the months, and the years in which February has 29 days. */
  lemma MonthLengths(year: int)
    ensures forall m | m in [0, 2, 4, 6, 7, 9, 11] :: DaysInMonth(m, IsLeap(year)) == 31
    ensures forall m | m in [3, 5, 8, 10] :: DaysInMonth(m, IsLeap(year)) == 30
    ensures DaysInMonth(1, IsLeap(year))
            == if year % 400 == 0 || (year % 4 == 0 && year % 100 != 0) then 29 else 28
  {
    DivisibilityChain(year);
  }

  /** A day has 86 400 000 milliseconds, and time values end a hundred million days from the epoch. */
  lemma Milliseconds(t: int)
    ensures t == Day(t) * 86_400_000 + TimeWithinDay(t) && 0 <= TimeWithinDay(t) < 86_400_000
    ensures TimeClip(t).Some? <==> -100_000_000 * 86_400_000 <= t <= 100_000_000 * 86_400_000
    ensures TimeClip(t).Some? ==> TimeClip(t).value == t
  {
  }
}
