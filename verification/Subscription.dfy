/**
 Subscription end dates of `lib/admin/billing-utils.ts`: days remaining and extension by whole days, in UTC.
 A date text is represented by what `new Date(text)` makes of it; the clock is a parameter.
 */
module Subscription {
  import opened Wrappers
  import opened CivilDate

  /** An end date as stored: nothing, a text that is no date, or a time value in milliseconds. */
  datatype EndsAt = Absent | Unparsable | At(t: int)

  predicate InRange(t: int) {
    -MAX_TIME <= t <= MAX_TIME
  }

  predicate Valid(ends: EndsAt) {
    ends.At? ==> InRange(ends.t)
  }

  /** `Date.UTC(y, m, d)`: the years 0 to 99 stand for 1900 to 1999 (ECMA-262 5.1, section 15.9.4.3). */
  function DateUtc(year: int, month: int, date: int): int {
    var full := if 0 <= year <= 99 then 1900 + year else year;
    MakeDate(MakeDay(full, month, date), 0)
  }

  /** Midnight of the day as `computeDaysRemaining` rebuilds it from the UTC fields. */
  function RebuiltMidnight(t: int): int {
    DateUtc(YearFromDay(Day(t)), MonthFromDay(Day(t)), DateFromDay(Day(t)))
  }

  function DaysRemaining(now: int, ends: EndsAt): Option<nat> {
    if !ends.At? then None
    else
      var days := (RebuiltMidnight(ends.t) - RebuiltMidnight(now)) / MS_PER_DAY;
      Some(if days < 0 then 0 else days)
  }

  /** `date.setUTCDate(d)` on the time value `t`. */
  function SetUtcDate(t: int, date: int): Option<int> {
    TimeClip(MakeDate(MakeDay(YearFromDay(Day(t)), MonthFromDay(Day(t)), date), TimeWithinDay(t)))
  }

  datatype RangeError = InvalidTimeValue

  /** The moment an extension counts from: the stored end if it lies ahead, the present otherwise. */
  function Base(now: int, ends: EndsAt): int {
    if ends.At? && ends.t > now then ends.t else now
  }

  /** The end an extension by `days` should give: that many whole days after the base, or an error out of range. */
  function Extended(now: int, ends: EndsAt, days: int): Result<int, RangeError> {
    var t := Base(now, ends) + days * MS_PER_DAY;
    if InRange(t) then Ok(t) else Err(InvalidTimeValue)
  }

  /** Setting the date `k` days further moves the time value by exactly `k` days, across months and leap years. */
  lemma SetUtcDateShifts(t: int, k: int)
    ensures SetUtcDate(t, DateFromDay(Day(t)) + k) == TimeClip(t + k * MS_PER_DAY)
  {
    hide YearFromDay, MonthFromDay, DateFromDay;
    var y, m, d := YearFromDay(Day(t)), MonthFromDay(Day(t)), DateFromDay(Day(t));
    CivilRoundTrip(Day(t));
    assert MakeDay(y, m, d + k) == MakeDay(y, m, d) + k;
    DayAndTime(t);
    MakeDateShifts(Day(t), TimeWithinDay(t), k);
  }

  lemma MakeDateShifts(day: int, time: int, k: int)
    ensures MakeDate(day + k, time) == MakeDate(day, time) + k * MS_PER_DAY
  {
  }

  /** `next.setUTCDate(next.getUTCDate() + days)`. */
  method AdvanceUtcDate(t: int, days: int) returns (next: Option<int>)
    ensures next == TimeClip(t + days * MS_PER_DAY)
  {
    SetUtcDateShifts(t, days);
    next := SetUtcDate(t, DateFromDay(Day(t)) + days);
  }

  /** `extendEndsAtIso`, its ISO text represented by the time value; `toISOString` fails on an invalid date. */
  method ExtendEndsAt(now: int, currentEndsAt: EndsAt, days: int) returns (r: Result<int, RangeError>)
    ensures r == Extended(now, currentEndsAt, days)
  {
    var base := now;
    if !currentEndsAt.Absent? {
      if !currentEndsAt.Unparsable? && currentEndsAt.t > base { base := currentEndsAt.t; }
    }
    var next := AdvanceUtcDate(base, days);
    if next.None? { return Err(InvalidTimeValue); }
    return Ok(next.value);
  }

  // ---- days remaining ----

  function DayCount(now: int, ends: EndsAt): nat {
    DaysRemaining(now, ends).GetOr(0)
  }

  lemma MidnightAfterYear99(t: int)
    requires YearFromDay(Day(t)) >= 100
    ensures RebuiltMidnight(t) == Day(t) * MS_PER_DAY
  {
    CivilRoundTrip(Day(t));
  }

  lemma LaterYear(t1: int, t2: int)
    requires t1 <= t2
    ensures YearFromDay(Day(t1)) <= YearFromDay(Day(t2))
  {
    hide YearFromDay;
    YearBrackets(Day(t1));
    YearIsLargestBegun(Day(t2), YearFromDay(Day(t1)));
  }

  lemma WholeDays(a: int, b: int)
    ensures (a * MS_PER_DAY - b * MS_PER_DAY) / MS_PER_DAY == a - b
  {
  }

  /** Away from the years 0 to 99 the days remaining are the difference of the day numbers, floored at 0. */
  lemma DaysRemainingValue(now: int, t: int)
    requires YearFromDay(Day(now)) >= 100 && YearFromDay(Day(t)) >= 100
    ensures DaysRemaining(now, At(t)) == Some(if Day(t) < Day(now) then 0 else Day(t) - Day(now))
  {
    hide YearFromDay, RebuiltMidnight;
    MidnightAfterYear99(now);
    MidnightAfterYear99(t);
    WholeDays(Day(t), Day(now));
  }

  /** 31 December 1999, the latest day a year from 0 to 99 can be mistaken for. */
  const LAST_MISTAKEN_DAY := DayFromYear(2000) - 1

  lemma RebuiltBy1999(t: int)
    requires 0 <= YearFromDay(Day(t)) <= 99
    ensures RebuiltMidnight(t) <= LAST_MISTAKEN_DAY * MS_PER_DAY
  {
    hide YearFromDay, MonthFromDay, DateFromDay, MakeDay;
    var y, m, d := YearFromDay(Day(t)), MonthFromDay(Day(t)), DateFromDay(Day(t));
    CivilRoundTrip(Day(t));
    DateFitsAnyYear(1900 + y, m, d, IsLeap(y));
    YearsGrow(1901 + y, 2000);
    var day := MakeDay(1900 + y, m, d);
    assert day <= LAST_MISTAKEN_DAY;
    assert RebuiltMidnight(t) == day * MS_PER_DAY;
  }

  /** A calendar date taken into any other year stays in that year. */
  lemma DateFitsAnyYear(year: int, month: int, date: int, leap: bool)
    requires 0 <= month < 12 && 1 <= date <= DaysInMonth(month, leap)
    ensures MakeDay(year, month, date) < DayFromYear(year + 1)
  {
    MakeDayInYear(year, month, date);
    YearLength(year);
    MonthFits(month, date, leap, IsLeap(year));
  }

  lemma MonthFits(month: int, date: int, leap: bool, other: bool)
    requires 0 <= month < 12 && 1 <= date <= DaysInMonth(month, leap)
    ensures MonthStart(month, other) + date <= if other then 366 else 365
  {
  }

  lemma MidnightBeforeYear0(t: int)
    requires YearFromDay(Day(t)) < 0
    ensures RebuiltMidnight(t) == Day(t) * MS_PER_DAY
  {
    CivilRoundTrip(Day(t));
  }

  lemma DayIsMonotone(t1: int, t2: int)
    requires t1 <= t2
    ensures Day(t1) <= Day(t2)
  {
  }

  /** From 31 December 1999 on, an end that is absent, no date or not ahead counts as no days. */
  lemma ExpiredCountsNothing(now: int, ends: EndsAt)
    requires Day(now) >= LAST_MISTAKEN_DAY && YearFromDay(Day(now)) >= 100
    requires ends.At? ==> ends.t <= now
    ensures DayCount(now, ends) == 0
  {
    if ends.At? {
      var t := ends.t;
      DayIsMonotone(t, now);
      MidnightAfterYear99(now);
      if YearFromDay(Day(t)) >= 100 {
        MidnightAfterYear99(t);
      } else if YearFromDay(Day(t)) < 0 {
        MidnightBeforeYear0(t);
      } else {
        RebuiltBy1999(t);
      }
      assert RebuiltMidnight(t) <= RebuiltMidnight(now);
    }
  }

  lemma Year1999(now: int)
    requires Day(now) >= LAST_MISTAKEN_DAY
    ensures YearFromDay(Day(now)) >= 1999
  {
    YearLength(1999);
    YearIsLargestBegun(Day(now), 1999);
  }

  lemma DayCountOfBase(now: int, ends: EndsAt)
    requires Day(now) >= LAST_MISTAKEN_DAY
    ensures DayCount(now, ends) == Day(Base(now, ends)) - Day(now)
  {
    hide YearFromDay, DayFromYear;
    Year1999(now);
    if ends.At? && ends.t > now {
      LaterYear(now, ends.t);
      DayIsMonotone(now, ends.t);
      DaysRemainingValue(now, ends.t);
    } else {
      ExpiredCountsNothing(now, ends);
    }
  }

  /** An extension by `days` adds exactly that many days to the days remaining. */
  lemma ExtensionAddsDays(now: int, ends: EndsAt, days: nat)
    requires Day(now) >= LAST_MISTAKEN_DAY && Extended(now, ends, days).Ok?
    ensures DaysRemaining(now, At(Extended(now, ends, days).value)) == Some(DayCount(now, ends) + days)
  {
    hide YearFromDay, DaysRemaining, DayFromYear;
    var base := Base(now, ends);
    var next := Extended(now, ends, days).value;
    DayCountOfBase(now, ends);
    DayShifts(base, days);
    assert now <= next;
    Year1999(now);
    LaterYear(now, next);
    DaysRemainingValue(now, next);
  }

  /** The law for one clock: extending by one or more days adds exactly those days, for every stored end. */
  ghost predicate ExtensionsAddUp(now: int) {
    forall ends: EndsAt, days: nat | Valid(ends) && days >= 1 && Extended(now, ends, days).Ok? ::
      DaysRemaining(now, At(Extended(now, ends, days).value)) == Some(DayCount(now, ends) + days)
  }

  lemma MidnightOfYear(year: int)
    requires year >= 100
    ensures RebuiltMidnight(DayFromYear(year) * MS_PER_DAY) == DayFromYear(year) * MS_PER_DAY
    ensures Day(DayFromYear(year) * MS_PER_DAY) == DayFromYear(year)
  {
    var t := DayFromYear(year) * MS_PER_DAY;
    assert Day(t) == DayFromYear(year);
    YearLength(year);
    YearIsUnique(Day(t), year);
    MidnightAfterYear99(t);
  }

  /** In years 0 to 99 the clock is read as a day of the twentieth century. */
  lemma MistakenClock(now: int)
    requires 0 <= YearFromDay(Day(now)) <= 99
    ensures RebuiltMidnight(now) >= DayFromYear(1900) * MS_PER_DAY
  {
    hide YearFromDay, MonthFromDay, DateFromDay, DayFromYear, MakeDay;
    var y := YearFromDay(Day(now));
    CivilRoundTrip(Day(now));
    MakeDayInYear(1900 + y, MonthFromDay(Day(now)), DateFromDay(Day(now)));
    YearsGrow(1900, 1900 + y);
    MonthStartsWithin(MonthFromDay(Day(now)), IsLeap(1900 + y));
  }

  lemma QuotientBounds(a: int, day: int, now: int)
    ensures a >= day * MS_PER_DAY ==> (a - now * MS_PER_DAY) / MS_PER_DAY >= day - now
    ensures a < day * MS_PER_DAY ==> (now * MS_PER_DAY - a) / MS_PER_DAY >= now - day
  {
  }

  /** Moving to a later day number: the time value, its day, and that the extension is not out of range. */
  lemma ReachDay(now: int, day: int)
    requires InRange(now) && Day(now) < day <= DayFromYear(2000)
    ensures Extended(now, Absent, day - Day(now)) == Ok(now + (day - Day(now)) * MS_PER_DAY)
    ensures Day(now + (day - Day(now)) * MS_PER_DAY) == day
  {
    DayShifts(now, day - Day(now));
    DayAndTime(now);
  }

  lemma FailsBeforeYear0(now: int) returns (days: nat)
    requires InRange(now) && YearFromDay(Day(now)) < 0
    ensures days >= 1 && Extended(now, Absent, days).Ok?
    ensures DaysRemaining(now, At(Extended(now, Absent, days).value)) != Some(days)
  {
    hide YearFromDay, RebuiltMidnight;
    YearIsLargestBegun(Day(now), 0);
    days := DayFromYear(0) - Day(now);
    ReachDay(now, DayFromYear(0));
    var next := now + days * MS_PER_DAY;
    YearLength(0);
    YearIsUnique(Day(next), 0);
    MistakenClock(next);
    MidnightBeforeYear0(now);
    QuotientBounds(RebuiltMidnight(next), DayFromYear(1900), Day(now));
  }

  lemma FailsBeforeYear100(now: int) returns (days: nat)
    requires InRange(now) && 0 <= YearFromDay(Day(now)) <= 99
    ensures days >= 1 && Extended(now, Absent, days).Ok?
    ensures DaysRemaining(now, At(Extended(now, Absent, days).value)) != Some(days)
  {
    hide YearFromDay, RebuiltMidnight;
    YearIsLargestBegun(Day(now), 100);
    days := DayFromYear(100) - Day(now);
    ReachDay(now, DayFromYear(100));
    MidnightOfYear(100);
    var next := now + days * MS_PER_DAY;
    YearLength(100);
    YearIsUnique(Day(next), 100);
    MidnightAfterYear99(next);
    MistakenClock(now);
    assert RebuiltMidnight(next) < RebuiltMidnight(now);
  }

  /** The last moment of year 99 is rebuilt as 31 December 1999. */
  lemma LastDayOfYear99()
    ensures RebuiltMidnight((DayFromYear(100) - 1) * MS_PER_DAY) == LAST_MISTAKEN_DAY * MS_PER_DAY
  {
    var day := DayFromYear(100) - 1;
    assert Day(day * MS_PER_DAY) == day;
    YearLength(99);
    MakeDayInYear(99, 11, 31);
    CivilDateIsFound(99, 11, 31);
    assert MakeDay(99, 11, 31) == day;
    MakeDayInYear(1999, 11, 31);
    YearLength(1999);
  }

  lemma FailsAfterYear99(now: int)
    requires InRange(now) && YearFromDay(Day(now)) >= 100 && Day(now) < LAST_MISTAKEN_DAY
    ensures var expired := At((DayFromYear(100) - 1) * MS_PER_DAY);
            && Extended(now, expired, 1).Ok?
            && DaysRemaining(now, At(Extended(now, expired, 1).value)) != Some(DayCount(now, expired) + 1)
  {
    hide YearFromDay, RebuiltMidnight;
    var t := (DayFromYear(100) - 1) * MS_PER_DAY;
    YearIsLargestBegun(Day(now), 100);
    DayAndTime(now);
    assert t <= now;
    LastDayOfYear99();
    MidnightAfterYear99(now);
    WholeDays(LAST_MISTAKEN_DAY, Day(now));
    assert DayCount(now, At(t)) == LAST_MISTAKEN_DAY - Day(now);
    ReachDay(now, Day(now) + 1);
    LaterYear(now, now + MS_PER_DAY);
    DaysRemainingValue(now, now + MS_PER_DAY);
  }

  /** A clock before 31 December 1999 breaks the law for some extension. */
  lemma EarlyClockFails(now: int) returns (ends: EndsAt, days: nat)
    requires InRange(now) && Day(now) < LAST_MISTAKEN_DAY
    ensures Valid(ends) && days >= 1 && Extended(now, ends, days).Ok?
    ensures DaysRemaining(now, At(Extended(now, ends, days).value)) != Some(DayCount(now, ends) + days)
  {
    hide YearFromDay, RebuiltMidnight, Extended;
    var y := YearFromDay(Day(now));
    if y < 0 {
      ends := Absent;
      days := FailsBeforeYear0(now);
    } else if y <= 99 {
      ends := Absent;
      days := FailsBeforeYear100(now);
    } else {
      ends, days := At((DayFromYear(100) - 1) * MS_PER_DAY), 1;
      FailsAfterYear99(now);
    }
  }

  // ---- main results ----

  /**
   The clocks for which days remaining and extension agree are those from 31 December 1999 on. Earlier ones meet the
   years 0 to 99, which `Date.UTC` takes for 1900 to 1999.
   */
  lemma ExtensionsAddUpExactly(now: int)
    requires InRange(now)
    ensures ExtensionsAddUp(now) <==> Day(now) >= LAST_MISTAKEN_DAY
  {
    if Day(now) >= LAST_MISTAKEN_DAY {
      forall ends: EndsAt, days: nat | Valid(ends) && days >= 1 && Extended(now, ends, days).Ok?
        ensures DaysRemaining(now, At(Extended(now, ends, days).value)) == Some(DayCount(now, ends) + days)
      {
        ExtensionAddsDays(now, ends, days);
      }
    } else {
      var ends, days := EarlyClockFails(now);
    }
  }

  /** Extending again from the result of an extension, an error staying an error. */
  function ExtendedTwice(now: int, ends: EndsAt, a: int, b: int): Result<int, RangeError> {
    var first := Extended(now, ends, a);
    if first.Err? then first else Extended(now, At(first.value), b)
  }

  /** Extending by `a` days and then by `b` is extending by `a + b`, errors included. */
  lemma ExtensionsCompose(now: int, ends: EndsAt, a: nat, b: nat)
    requires InRange(now)
    ensures ExtendedTwice(now, ends, a, b) == Extended(now, ends, a + b)
  {
    assert (a + b) * MS_PER_DAY == a * MS_PER_DAY + b * MS_PER_DAY;
  }

  /** With negative counts allowed they compose exactly when the first step does not end before the present. */
  lemma SignedExtensionsCompose(now: int, ends: EndsAt, a: int, b: int)
    requires Extended(now, ends, a).Ok? && Extended(now, ends, a + b).Ok?
    ensures ExtendedTwice(now, ends, a, b) == Extended(now, ends, a + b)
            <==> Extended(now, ends, a).value >= now
  {
    assert (a + b) * MS_PER_DAY == a * MS_PER_DAY + b * MS_PER_DAY;
  }

  /** An extension keeps the time of day and moves the day by `days`; it counts from the end only if that lies ahead. */
  lemma ExtensionKeepsTime(now: int, ends: EndsAt, days: int)
    ensures var base := if ends.At? && ends.t > now then ends.t else now;
            var t := base + days * 86_400_000;
            && (Extended(now, ends, days).Ok? <==> -8_640_000_000_000_000 <= t <= 8_640_000_000_000_000)
            && (Extended(now, ends, days).Ok? ==>
                  var next := Extended(now, ends, days).value;
                  Day(next) == Day(base) + days && TimeWithinDay(next) == TimeWithinDay(base))
  {
    var base := if ends.At? && ends.t > now then ends.t else now;
    DayShifts(base, days);
    DayAndTime(base);
    DayAndTime(base + days * MS_PER_DAY);
  }

  /** There is a number of days exactly if there is an end and it is a date. */
  lemma DaysKnownExactly(now: int, ends: EndsAt)
    ensures DaysRemaining(now, ends).None? <==> ends.Absent? || ends.Unparsable?
  {
  }

  /** `Date.UTC` at midnight of a calendar date, whose day it is from the year 100 on. */
  lemma UtcMidnight(year: int, month: int, date: int)
    requires year >= 100 && 0 <= month < 12 && 1 <= date <= DaysInMonth(month, IsLeap(year))
    ensures var t := DateUtc(year, month, date);
            && YearFromDay(Day(t)) == year && MonthFromDay(Day(t)) == month && DateFromDay(Day(t)) == date
            && TimeWithinDay(t) == 0
  {
    hide YearFromDay, MonthFromDay, DateFromDay, MakeDay;
    CivilDateIsFound(year, month, date);
    var day := MakeDay(year, month, date);
    assert Day(MakeDate(day, 0)) == day && TimeWithinDay(MakeDate(day, 0)) == 0;
  }
}
