/** Calendar arithmetic behind pet birthdays: the checks of BirthdayToTime, and the time
    values that both birthday comparators order by.

    A time at midnight UTC is the number of days since 1 January of year 1, so the zero
    time.Time is 0. `DayNumber` is what time.Date computes, overflowing days included, and
    `MonthOf` is what Time.Month recovers by cutting a day number into 400-, 100-, 4- and
    1-year cycles. */
module Calendar {

  datatype Date = Date(year: int, month: int, day: int)

  datatype DateError = BadMonth | BadDay | NoSuchDay

  datatype TimeResult = Ok(time: int) | Err(error: DateError)

  // ---- The Gregorian calendar, section 5.7 and Appendix C of RFC 3339 ----

  predicate IsLeap(year: int) {
    year % 4 == 0 && (year % 100 != 0 || year % 400 == 0)
  }

  function DaysIn(year: int, month: int): int
    requires 1 <= month <= 12
  {
    if month == 2 then (if IsLeap(year) then 29 else 28)
    else if month == 4 || month == 6 || month == 9 || month == 11 then 30
    else 31
  }

  predicate IsRealDate(d: Date) {
    1 <= d.month <= 12 && 1 <= d.day <= DaysIn(d.year, d.month)
  }

  /** Lexicographic order on (year, month, day). */
  predicate Earlier(a: Date, b: Date) {
    || a.year < b.year
    || (a.year == b.year && (a.month < b.month || (a.month == b.month && a.day < b.day)))
  }

  // ---- Day numbers ----

  /** Days in the `years` whole years that follow the start of year 1. */
  function YearDays(years: int): int {
    365 * years + years / 4 - years / 100 + years / 400
  }

  /** Days of a year that come before a month. */
  function MonthDays(year: int, month: int): int
    requires 1 <= month <= 12
  {
    (if month == 1 then 0 else if month == 2 then 31 else if month == 3 then 59
     else if month == 4 then 90 else if month == 5 then 120 else if month == 6 then 151
     else if month == 7 then 181 else if month == 8 then 212 else if month == 9 then 243
     else if month == 10 then 273 else if month == 11 then 304 else 334)
    + (if month > 2 && IsLeap(year) then 1 else 0)
  }

  /** time.Date for a month in range and any day. */
  function DayNumber(d: Date): int
    requires 1 <= d.month <= 12
  {
    YearDays(d.year - 1) + MonthDays(d.year, d.month) + d.day - 1
  }

  /** The year a day number falls in, found by cutting off whole cycles. The last day of a
      400-year or 4-year cycle would start a cycle too many, hence the cap at 3. */
  function YearOf(time: int): int {
    var inEra := time % 146097;
    var century := if inEra / 36524 > 3 then 3 else inEra / 36524;
    var inCentury := inEra - 36524 * century;
    var inCycle := inCentury % 1461;
    var year := if inCycle / 365 > 3 then 3 else inCycle / 365;
    400 * (time / 146097) + 100 * century + 4 * (inCentury / 1461) + year + 1
  }

  /** Time.Month: the last month that starts no later than the day of the year. */
  function MonthOf(time: int): (month: int)
    ensures 1 <= month <= 12
  {
    LastMonth(YearOf(time), time - YearDays(YearOf(time) - 1), 12)
  }

  function LastMonth(year: int, yearDay: int, upTo: int): (month: int)
    requires 1 <= upTo <= 12
    ensures 1 <= month <= upTo
    decreases upTo
  {
    if upTo == 1 || MonthDays(year, upTo) <= yearDay then upTo else LastMonth(year, yearDay, upTo - 1)
  }

  // ---- BirthdayToTime ----

  function BirthdayToTime(d: Date): TimeResult {
    if d.month < 1 || d.month > 12 then Err(BadMonth)
    else if d.day < 1 || d.day > 31 then Err(BadDay)
    else
      var time := DayNumber(d);
      if MonthOf(time) != d.month then Err(NoSuchDay) else Ok(time)
  }

  /** The comparators drop the error of BirthdayToTime and keep the time that came with it,
      which is then the zero time. */
  function SortTime(d: Date): int {
    match BirthdayToTime(d)
    case Ok(time) => time
    case Err(_) => 0
  }

  // ---- Proofs ----

  lemma YearLength(year: int)
    ensures YearDays(year) - YearDays(year - 1) == (if IsLeap(year) then 366 else 365)
  {
    CycleEdges(year);
    LongCycles(year);
  }

  lemma CycleEdges(n: int)
    ensures n / 4 - (n - 1) / 4 == (if n % 4 == 0 then 1 else 0)
    ensures n / 100 - (n - 1) / 100 == (if n % 100 == 0 then 1 else 0)
    ensures n / 400 - (n - 1) / 400 == (if n % 400 == 0 then 1 else 0)
  {
  }

  lemma LongCycles(n: int)
    ensures n % 400 == 0 ==> n % 100 == 0
    ensures n % 100 == 0 ==> n % 4 == 0
  {
  }

  lemma {:induction false} YearsAreOrdered(a: int, b: int)
    requires a <= b
    ensures YearDays(a) + 365 * (b - a) <= YearDays(b)
    decreases b - a
  {
    if a < b {
      YearLength(b);
      YearsAreOrdered(a, b - 1);
    }
  }

  /** The cycles that a day number is cut into. */
  lemma Cut(time: int) returns (era: int, century: int, cycle: int, year: int, rest: int)
    ensures time == 146097 * era + 36524 * century + 1461 * cycle + 365 * year + rest
    ensures YearOf(time) == 400 * era + 100 * century + 4 * cycle + year + 1
    ensures 0 <= century <= 3 && 0 <= cycle <= 24 && 0 <= year <= 3 && 0 <= rest <= 365
    ensures rest == 365 ==> year == 3 && (cycle == 24 ==> century == 3)
  {
    era := time / 146097;
    var inEra := time % 146097;
    century := if inEra / 36524 > 3 then 3 else inEra / 36524;
    var inCentury := inEra - 36524 * century;
    cycle := inCentury / 1461;
    var inCycle := inCentury % 1461;
    year := if inCycle / 365 > 3 then 3 else inCycle / 365;
    rest := inCycle - 365 * year;
  }

  /** Cutting into cycles finds the one year whose days contain the day number. */
  lemma YearOfBounds(time: int)
    ensures YearDays(YearOf(time) - 1) <= time < YearDays(YearOf(time))
  {
    hide YearOf, YearDays, IsLeap;
    var era, century, cycle, year, rest := Cut(time);
    CycleDays(era, century, cycle, year);
    YearLength(YearOf(time));
    if rest == 365 {
      LastYearIsLeap(era, century, cycle);
    }
  }

  /** Only the fourth year of a cycle has a 366th day, and the 25th cycle of a century has
      it only in the fourth century. */
  lemma LastYearIsLeap(era: int, century: int, cycle: int)
    requires 0 <= cycle <= 24 && 0 <= century <= 3
    requires cycle == 24 ==> century == 3
    ensures IsLeap(400 * era + 100 * century + 4 * cycle + 4)
  {
    var y := 400 * era + 100 * century + 4 * cycle + 4;
    assert y == 4 * (100 * era + 25 * century + cycle + 1);
    if cycle == 24 {
      assert y == 400 * (era + 1);
    } else {
      assert y == 100 * (4 * era + century) + (4 * cycle + 4);
    }
  }

  lemma CycleDays(era: int, century: int, cycle: int, year: int)
    requires 0 <= century <= 3 && 0 <= cycle <= 24 && 0 <= year <= 3
    ensures YearDays(400 * era + 100 * century + 4 * cycle + year)
         == 146097 * era + 36524 * century + 1461 * cycle + 365 * year
  {
    var n := 400 * era + 100 * century + 4 * cycle + year;
    assert n / 4 == 100 * era + 25 * century + cycle;
    assert n / 100 == 4 * era + century;
    assert n / 400 == era;
  }

  lemma YearOfIsUnique(time: int, year: int)
    requires YearDays(year - 1) <= time < YearDays(year)
    ensures YearOf(time) == year
  {
    YearOfBounds(time);
    if YearOf(time) < year {
      YearsAreOrdered(YearOf(time), year - 1);
    } else if YearOf(time) > year {
      YearsAreOrdered(year, YearOf(time) - 1);
    }
  }

  lemma MonthsAreOrdered(year: int, a: int, b: int)
    requires 1 <= a < b <= 12
    ensures MonthDays(year, a) + DaysIn(year, a) <= MonthDays(year, b)
    ensures b == a + 1 ==> MonthDays(year, a) + DaysIn(year, a) == MonthDays(year, b)
  {
  }

  lemma DayOfYear(d: Date)
    requires IsRealDate(d)
    ensures 0 <= MonthDays(d.year, d.month) + d.day - 1 < if IsLeap(d.year) then 366 else 365
  {
  }

  lemma {:induction false} LastMonthFound(year: int, yearDay: int, month: int, upTo: int)
    requires 1 <= month <= upTo <= 12
    requires MonthDays(year, month) <= yearDay < MonthDays(year, month) + DaysIn(year, month)
    ensures LastMonth(year, yearDay, upTo) == month
    decreases upTo
  {
    if month < upTo {
      MonthsAreOrdered(year, month, upTo);
      LastMonthFound(year, yearDay, month, upTo - 1);
    }
  }

  lemma InItsYear(d: Date)
    requires IsRealDate(d)
    ensures YearDays(d.year - 1) <= DayNumber(d) < YearDays(d.year)
  {
    YearLength(d.year);
    DayOfYear(d);
    hide YearDays, IsLeap, MonthDays;
  }

  lemma MonthInItsYear(d: Date)
    requires IsRealDate(d) && YearOf(DayNumber(d)) == d.year
    ensures MonthOf(DayNumber(d)) == d.month
  {
    hide YearDays, YearOf, MonthDays, DaysIn, LastMonth;
    LastMonthFound(d.year, MonthDays(d.year, d.month) + d.day - 1, d.month, 12);
  }

  /** Reading a real date back from its day number gives its own year and month. */
  lemma RealDateRoundTrip(d: Date)
    requires IsRealDate(d)
    ensures YearOf(DayNumber(d)) == d.year && MonthOf(DayNumber(d)) == d.month
  {
    hide YearDays, YearOf, MonthDays, MonthOf, DayNumber, DaysIn;
    InItsYear(d);
    YearOfIsUnique(DayNumber(d), d.year);
    MonthInItsYear(d);
  }

  /** A day past the end of its month spills into the next month only. */
  lemma OverflowMovesOneMonth(d: Date)
    requires 1 <= d.month <= 12 && DaysIn(d.year, d.month) < d.day <= 31
    ensures d.month < 12 && MonthOf(DayNumber(d)) == d.month + 1
  {
    var spill := Date(d.year, d.month + 1, d.day - DaysIn(d.year, d.month));
    MonthsAreOrdered(d.year, d.month, d.month + 1);
    assert DayNumber(d) == DayNumber(spill);
    RealDateRoundTrip(spill);
  }

  /** BirthdayToTime accepts exactly the dates that exist in the calendar. */
  lemma AcceptsExactlyRealDates(d: Date)
    ensures BirthdayToTime(d).Ok? <==> IsRealDate(d)
    ensures IsRealDate(d) ==> BirthdayToTime(d) == Ok(DayNumber(d))
  {
    if IsRealDate(d) {
      RealDateRoundTrip(d);
    } else if 1 <= d.month <= 12 && 1 <= d.day <= 31 {
      OverflowMovesOneMonth(d);
    }
  }

  /** A comparator takes a date that is refused for the zero time, which is the first day of year 1. */
  lemma RefusedSortsAsZeroTime(d: Date)
    requires !IsRealDate(d)
    ensures SortTime(d) == SortTime(Date(1, 1, 1)) == 0
  {
    hide BirthdayToTime;
    AcceptsExactlyRealDates(d);
    AcceptsExactlyRealDates(Date(1, 1, 1));
  }

  lemma EarlierIsSmaller(a: Date, b: Date)
    requires IsRealDate(a) && IsRealDate(b) && Earlier(a, b)
    ensures DayNumber(a) < DayNumber(b)
  {
    hide YearDays;
    if a.year < b.year {
      InItsYear(a);
      InItsYear(b);
      YearsAreOrdered(a.year, b.year - 1);
    } else if a.month < b.month {
      MonthsAreOrdered(a.year, a.month, b.month);
    }
  }

  /** On accepted dates, time order is lexicographic order and equal times are equal dates. */
  lemma TimeOrderIsDateOrder(a: Date, b: Date)
    requires BirthdayToTime(a).Ok? && BirthdayToTime(b).Ok?
    ensures BirthdayToTime(a).time < BirthdayToTime(b).time <==> Earlier(a, b)
    ensures BirthdayToTime(a).time == BirthdayToTime(b).time <==> a == b
  {
    AcceptsExactlyRealDates(a);
    AcceptsExactlyRealDates(b);
    if Earlier(a, b) {
      EarlierIsSmaller(a, b);
    } else if Earlier(b, a) {
      EarlierIsSmaller(b, a);
    }
  }
}
