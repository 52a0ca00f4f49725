/** Day numbers and civil dates as `Date` computes them (section 21.4.1 of ECMA-262), unbounded. */
module Gregorian {
  /** `m` is 1 to 12, `d` from 1. */
  datatype Civil = Civil(y: int, m: int, d: int)

  predicate IsLeap(y: int) { y % 4 == 0 && (y % 100 != 0 || y % 400 == 0) }

  function DaysInYear(y: int): (n: int)
    ensures 365 <= n <= 366
  {
    if IsLeap(y) then 366 else 365
  }

  /** The day number of the first of January, year by year from 1970. */
  function DayFromYear(y: int): int
    decreases if y >= 1970 then y - 1970 else 1970 - y
  {
    if y == 1970 then 0
    else if y > 1970 then DayFromYear(y - 1) + DaysInYear(y - 1)
    else DayFromYear(y + 1) - DaysInYear(y)
  }

  function MonthLength(m: int, leap: bool): (n: int)
    requires 1 <= m <= 12
    ensures 28 <= n <= 31
  {
    if m == 2 then (if leap then 29 else 28) else if m in {4, 6, 9, 11} then 30 else 31
  }

  /** Days of the year before the month after month `m`. */
  function MonthStart(m: int, leap: bool): (n: int)
    requires 0 <= m <= 12
    ensures n >= 0
  {
    if m == 0 then 0 else MonthStart(m - 1, leap) + MonthLength(m, leap)
  }

  function DaysInMonth(y: int, m: int): (n: int)
    requires 1 <= m <= 12
    ensures 28 <= n <= 31
  {
    MonthLength(m, IsLeap(y))
  }

  predicate IsDate(c: Civil) { 1 <= c.m <= 12 && 1 <= c.d <= DaysInMonth(c.y, c.m) }

  /** The day of the year, from 0. */
  function YearDay(c: Civil): (d: int)
    requires IsDate(c)
    ensures 0 <= d < DaysInYear(c.y)
  {
    MonthsApart(c.m, 12, IsLeap(c.y));
    WholeYear(c.y);
    MonthStart(c.m - 1, IsLeap(c.y)) + c.d - 1
  }

  function DayNumber(c: Civil): int
    requires IsDate(c)
  {
    DayFromYear(c.y) + YearDay(c)
  }

  lemma {:induction false} MonthsApart(p: int, q: int, leap: bool)
    requires 0 <= p <= q <= 12
    ensures MonthStart(p, leap) + 28 * (q - p) <= MonthStart(q, leap)
    decreases q - p
  {
    if p < q {
      MonthsApart(p, q - 1, leap);
    }
  }

  lemma WholeYear(y: int)
    ensures MonthStart(12, IsLeap(y)) == DaysInYear(y)
  {
    var leap := IsLeap(y);
    var feb := if leap then 29 else 28;
    assert MonthStart(1, leap) == 31;
    assert MonthStart(2, leap) == 31 + feb;
    assert MonthStart(4, leap) == 92 + feb by { assert MonthStart(3, leap) == 62 + feb; }
    assert MonthStart(6, leap) == 153 + feb by { assert MonthStart(5, leap) == 123 + feb; }
    assert MonthStart(8, leap) == 215 + feb by { assert MonthStart(7, leap) == 184 + feb; }
    assert MonthStart(10, leap) == 276 + feb by { assert MonthStart(9, leap) == 245 + feb; }
    assert MonthStart(11, leap) == 306 + feb;
  }

  /** The first day of each month within the year, as the standard lists them. */
  const MONTH_STARTS := [0, 31, 59, 90, 120, 151, 181, 212, 243, 273, 304, 334, 365]

  lemma MonthsStart(m: int, leap: bool)
    requires 0 <= m <= 12
    ensures MonthStart(m, leap) == MONTH_STARTS[m] + (if leap && m >= 2 then 1 else 0)
  {
    WholeYearTable(leap);
  }

  lemma WholeYearTable(leap: bool)
    ensures forall m | 0 <= m <= 12 :: MonthStart(m, leap) == MONTH_STARTS[m] + (if leap && m >= 2 then 1 else 0)
  {
    assert MonthStart(1, leap) == 31;
    assert MonthStart(3, leap) == 90 + (if leap then 1 else 0) by { assert MonthStart(2, leap) >= 59; }
    assert MonthStart(5, leap) == 151 + (if leap then 1 else 0) by { assert MonthStart(4, leap) >= 120; }
    assert MonthStart(7, leap) == 212 + (if leap then 1 else 0) by { assert MonthStart(6, leap) >= 181; }
    assert MonthStart(9, leap) == 273 + (if leap then 1 else 0) by { assert MonthStart(8, leap) >= 243; }
    assert MonthStart(11, leap) == 334 + (if leap then 1 else 0) by { assert MonthStart(10, leap) >= 304; }
    assert MonthStart(12, leap) == 365 + (if leap then 1 else 0);
  }

  // ---- ECMA-262's own formulas ----

  function EcmaDayFromYear(y: int): int { 365 * (y - 1970) + (y - 1969) / 4 - (y - 1901) / 100 + (y - 1601) / 400 }

  /** MakeDay: a month (from 0) or a date out of its range carries over. */
  function MakeDay(year: int, month: int, date: int): int {
    DayFromYear(year + month / 12) + MonthStart(month % 12, IsLeap(year + month / 12)) + date - 1
  }

  /** Date.UTC: years 0 to 99 mean 1900 to 1999. */
  function UtcDay(year: int, month: int, date: int): int {
    MakeDay(if 0 <= year <= 99 then 1900 + year else year, month, date)
  }

  lemma Step4(y: int)
    ensures (y - 1968) / 4 == (y - 1969) / 4 + (if y % 4 == 0 then 1 else 0)
  {
  }

  lemma Step100(y: int)
    ensures (y - 1900) / 100 == (y - 1901) / 100 + (if y % 100 == 0 then 1 else 0)
  {
  }

  lemma Step400(y: int)
    ensures (y - 1600) / 400 == (y - 1601) / 400 + (if y % 400 == 0 then 1 else 0)
  {
  }

  lemma MultipleOf4(k: int)
    ensures (4 * k) % 4 == 0
  {
  }

  lemma MultipleOf100(k: int)
    ensures (100 * k) % 100 == 0
  {
  }

  lemma LeapDivisors(y: int)
    ensures (y % 400 == 0 ==> y % 100 == 0) && (y % 100 == 0 ==> y % 4 == 0)
  {
    if y % 100 == 0 {
      MultipleOf4(25 * (y / 100));
      assert y == 4 * (25 * (y / 100));
    }
    if y % 400 == 0 {
      MultipleOf100(4 * (y / 400));
      assert y == 100 * (4 * (y / 400));
    }
  }

  lemma EcmaStep(y: int)
    ensures EcmaDayFromYear(y + 1) == EcmaDayFromYear(y) + DaysInYear(y)
  {
    Step4(y);
    Step100(y);
    Step400(y);
    LeapDivisors(y);
  }

  /** Counting year by year is the standard's closed formula, for every year. */
  lemma {:induction false} DayFromYearIsEcma(y: int)
    ensures DayFromYear(y) == EcmaDayFromYear(y)
    decreases if y >= 1970 then y - 1970 else 1970 - y
  {
    if y > 1970 {
      DayFromYearIsEcma(y - 1);
      EcmaStep(y - 1);
    } else if y < 1970 {
      DayFromYearIsEcma(y + 1);
      EcmaStep(y);
    }
  }

  // ---- there and back ----

  lemma YearStep(y: int)
    ensures DayFromYear(y + 1) == DayFromYear(y) + DaysInYear(y)
  {
  }

  lemma {:induction false} YearsApart(x: int, y: int)
    requires x <= y
    ensures DayFromYear(x) + 365 * (y - x) <= DayFromYear(y) <= DayFromYear(x) + 366 * (y - x)
    decreases y - x
  {
    if x < y {
      YearStep(y - 1);
      YearsApart(x, y - 1);
    }
  }

  /** A year that is not after day `n`. */
  function EarlyYear(n: int): (y: int)
    ensures DayFromYear(y) <= n
  {
    if n >= 0 then 1970
    else
      YearsApart(1970 + n, 1970);
      1970 + n
  }

  function YearFrom(n: int, early: int): (y: int)
    requires DayFromYear(early) <= n
    ensures DayFromYear(y) <= n < DayFromYear(y) + DaysInYear(y)
    decreases n - DayFromYear(early)
  {
    YearStep(early);
    if DayFromYear(early + 1) <= n then YearFrom(n, early + 1) else early
  }

  /** The first month from `early` on that ends after day `day` of the year. */
  function MonthFrom(day: int, leap: bool, early: int): (m: int)
    requires 1 <= early <= 12
    ensures 1 <= m <= 12
    decreases 12 - early
  {
    if early == 12 || day < MonthStart(early, leap) then early else MonthFrom(day, leap, early + 1)
  }

  lemma {:induction false} MonthFound(day: int, leap: bool, early: int)
    requires 1 <= early <= 12 && MonthStart(early - 1, leap) <= day < MonthStart(12, leap)
    ensures var m := MonthFrom(day, leap, early); MonthStart(m - 1, leap) <= day < MonthStart(m, leap)
    decreases 12 - early
  {
    hide MonthStart;
    if early < 12 && day >= MonthStart(early, leap) {
      MonthFound(day, leap, early + 1);
    }
  }

  /** The civil date with this day of the year, from 0. */
  function CivilInYear(y: int, day: int): Civil {
    var m := MonthFrom(day, IsLeap(y), 1);
    Civil(y, m, day - MonthStart(m - 1, IsLeap(y)) + 1)
  }

  lemma MonthStep(m: int, leap: bool)
    requires 1 <= m <= 12
    ensures MonthStart(m, leap) == MonthStart(m - 1, leap) + MonthLength(m, leap) && MonthStart(0, leap) == 0
  {
  }

  lemma CivilInYearIs(y: int, day: int)
    requires 0 <= day < DaysInYear(y)
    ensures IsDate(CivilInYear(y, day)) && DayNumber(CivilInYear(y, day)) == DayFromYear(y) + day
  {
    hide MonthStart;
    hide DayFromYear;
    hide IsLeap;
    hide MonthLength;
    WholeYear(y);
    MonthStep(1, IsLeap(y));
    MonthFound(day, IsLeap(y), 1);
    MonthStep(MonthFrom(day, IsLeap(y), 1), IsLeap(y));
  }

  /** The civil date of a day number: YearFromTime, MonthFromTime and DateFromTime. */
  function CivilOf(n: int): (c: Civil)
    ensures IsDate(c) && DayNumber(c) == n
  {
    var y := YearFrom(n, EarlyYear(n));
    CivilInYearIs(y, n - DayFromYear(y));
    CivilInYear(y, n - DayFromYear(y))
  }

  predicate Before(a: Civil, b: Civil) { a.y < b.y || (a.y == b.y && (a.m < b.m || (a.m == b.m && a.d < b.d))) }

  lemma YearDayOrder(a: Civil, b: Civil)
    requires IsDate(a) && IsDate(b) && a.y == b.y && Before(a, b)
    ensures YearDay(a) < YearDay(b)
  {
    if a.m < b.m {
      MonthsApart(a.m, b.m - 1, IsLeap(a.y));
    }
  }

  /** Day numbers run in the order of the calendar. */
  lemma DayNumberOrder(a: Civil, b: Civil)
    requires IsDate(a) && IsDate(b) && Before(a, b)
    ensures DayNumber(a) < DayNumber(b)
  {
    if a.y < b.y {
      YearStep(a.y);
      YearsApart(a.y + 1, b.y);
    } else {
      YearDayOrder(a, b);
    }
  }

  /** And so the two directions are inverse: a date and its day number determine each other. */
  lemma CivilOfDayNumber(c: Civil)
    requires IsDate(c)
    ensures CivilOf(DayNumber(c)) == c
  {
    var back := CivilOf(DayNumber(c));
    if Before(back, c) {
      DayNumberOrder(back, c);
    } else if Before(c, back) {
      DayNumberOrder(c, back);
    }
  }

  lemma CivilOfIs(n: int, c: Civil)
    requires IsDate(c) && DayNumber(c) == n
    ensures CivilOf(n) == c
  {
    CivilOfDayNumber(c);
  }

  /** Chronological order is calendar order, both ways. */
  lemma BeforeIffEarlier(a: Civil, b: Civil)
    requires IsDate(a) && IsDate(b)
    ensures Before(a, b) <==> DayNumber(a) < DayNumber(b)
  {
    if Before(a, b) {
      DayNumberOrder(a, b);
    } else if a != b {
      DayNumberOrder(b, a);
    }
  }

  /** A month within the year, any date. */
  lemma MakeDayInYear(y: int, month: int, date: int)
    requires 0 <= month < 12
    ensures MakeDay(y, month, date) == DayFromYear(y) + MonthStart(month, IsLeap(y)) + date - 1
  {
    assert month / 12 == 0 && month % 12 == month;
  }

  lemma MakeDayOfDate(c: Civil, days: int)
    requires IsDate(c)
    ensures MakeDay(c.y, c.m - 1, c.d + days) == DayNumber(c) + days
  {
    MakeDayInYear(c.y, c.m - 1, c.d + days);
  }

  lemma UtcDayOfDate(c: Civil, days: int)
    requires IsDate(c) && !(0 <= c.y <= 99)
    ensures UtcDay(c.y, c.m - 1, c.d + days) == DayNumber(c) + days
  {
    MakeDayOfDate(c, days);
  }

  lemma YearAtLeast(n: int, y: int)
    requires DayFromYear(y) <= n
    ensures CivilOf(n).y >= y
  {
    var c := CivilOf(n);
    if c.y < y {
      YearStep(c.y);
      YearsApart(c.y + 1, y);
      assert false;
    }
  }

  /** Two digits of a year never come back as that year. */
  lemma TwoDigitYearMoves(y: int, month: int, date: int)
    requires 0 <= y <= 99 && -1 <= month && 0 <= date
    ensures CivilOf(UtcDay(y, month, date)).y >= 1898
  {
    var year := 1900 + y + month / 12;
    assert 1899 <= year;
    YearsApart(1898, year);
    assert UtcDay(y, month, date) == DayFromYear(year) + MonthStart(month % 12, IsLeap(year)) + date - 1;
    YearAtLeast(UtcDay(y, month, date), 1898);
  }

  lemma LastDayNumber(y: int, m: int)
    requires 1 <= m <= 12
    ensures DayNumber(Civil(y, m, DaysInMonth(y, m))) == DayFromYear(y) + MonthStart(m, IsLeap(y)) - 1
  {
    hide DayFromYear;
    hide IsLeap;
  }

  lemma NextYearMakeDay(y: int, date: int)
    ensures MakeDay(y, 12, date) == DayFromYear(y) + MonthStart(12, IsLeap(y)) + date - 1
  {
    hide IsLeap;
    YearStep(y);
    WholeYear(y);
  }

  /** Dates of the month after month `m` count on from the last day of month `m`; month 12, counting from
      0, is the next January. */
  lemma MakeDayOfNextMonth(y: int, m: int, date: int)
    requires 1 <= m <= 12
    ensures MakeDay(y, m, date) == DayNumber(Civil(y, m, DaysInMonth(y, m))) + date
  {
    hide MakeDay;
    hide DayNumber;
    hide IsLeap;
    LastDayNumber(y, m);
    if m < 12 {
      MakeDayInYear(y, m, date);
    } else {
      NextYearMakeDay(y, date);
    }
  }

  /** Day 0 of the next month is the last day of this one. */
  lemma LastOfMonth(y: int, m: int)
    requires 1 <= m <= 12
    ensures CivilOf(MakeDay(y, m, 0)) == Civil(y, m, DaysInMonth(y, m))
  {
    MakeDayOfNextMonth(y, m, 0);
    CivilOfIs(MakeDay(y, m, 0), Civil(y, m, DaysInMonth(y, m)));
  }

  /** The day after. */
  function NextDate(c: Civil): (n: Civil)
    requires IsDate(c)
    ensures IsDate(n)
  {
    if c.d < DaysInMonth(c.y, c.m) then Civil(c.y, c.m, c.d + 1)
    else if c.m < 12 then Civil(c.y, c.m + 1, 1)
    else Civil(c.y + 1, 1, 1)
  }

  lemma NewYear(c: Civil)
    requires IsDate(c) && c.m == 12 && c.d == 31
    ensures DayNumber(Civil(c.y + 1, 1, 1)) == DayNumber(c) + 1
  {
    YearStep(c.y);
    WholeYear(c.y);
  }

  lemma NewMonth(c: Civil)
    requires IsDate(c) && c.m < 12 && c.d == DaysInMonth(c.y, c.m)
    ensures DayNumber(Civil(c.y, c.m + 1, 1)) == DayNumber(c) + 1
  {
  }

  lemma NextDayNumber(c: Civil)
    requires IsDate(c)
    ensures DayNumber(NextDate(c)) == DayNumber(c) + 1
  {
    if c.d == DaysInMonth(c.y, c.m) {
      if c.m == 12 {
        NewYear(c);
      } else {
        NewMonth(c);
      }
    }
  }

  lemma NextDateIsNext(c: Civil)
    requires IsDate(c)
    ensures CivilOf(DayNumber(c) + 1) == NextDate(c)
  {
    NextDayNumber(c);
    CivilOfIs(DayNumber(c) + 1, NextDate(c));
  }
}
