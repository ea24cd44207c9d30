/**
 * The proleptic Gregorian calendar as `datetime.date` has it: a date is its ordinal, day 1 being
 * Monday the first of January of year 1.  Years are unbounded here.
 */
module Dates {
  type Date = int

  type Month = m: int | 1 <= m <= 12 witness 1

  predicate IsLeap(year: int) {
    year % 4 == 0 && (year % 100 != 0 || year % 400 == 0)
  }

  function DaysInMonth(year: int, month: Month): int {
    if month == 2 then (if IsLeap(year) then 29 else 28)
    else if month == 4 || month == 6 || month == 9 || month == 11 then 30
    else 31
  }

  function DaysBeforeMonth(year: int, month: Month): int {
    [0, 31, 59, 90, 120, 151, 181, 212, 243, 273, 304, 334][month - 1] + (if month > 2 && IsLeap(year) then 1 else 0)
  }

  function DaysBeforeYear(year: int): int {
    var y := year - 1;
    y * 365 + y / 4 - y / 100 + y / 400
  }

  function DaysInYear(year: int): int {
    if IsLeap(year) then 366 else 365
  }

  predicate IsDate(year: int, month: int, day: int) {
    1 <= month <= 12 && 1 <= day <= DaysInMonth(year, month)
  }

  /** `date(year, month, day)`. */
  function Ordinal(year: int, month: Month, day: int): Date {
    DaysBeforeYear(year) + DaysBeforeMonth(year, month) + day
  }

  /** Monday is 0. */
  function Weekday(date: Date): (w: int)
    ensures 0 <= w < 7
  {
    (date + 6) % 7
  }

  // ------------------------------------------------------------------------------------------
  // From ordinal to year, month and day
  // ------------------------------------------------------------------------------------------

  /** The year of an ordinal, by cycles of 400, 100, 4 and 1 years. */
  function YearOf(date: Date): int {
    var n := date - 1;
    var n400, r400 := n / 146097, n % 146097;
    var n100, r100 := r400 / 36524, r400 % 36524;
    var n4, r4 := r100 / 1461, r100 % 1461;
    var n1 := r4 / 365;
    var year := n400 * 400 + n100 * 100 + n4 * 4 + n1 + 1;
    if n1 == 4 || n100 == 4 then year - 1 else year
  }

  function MonthFrom(year: int, month: Month, n: int): Month
    decreases 12 - month
  {
    if month == 12 || n <= DaysInMonth(year, month) then month
    else MonthFrom(year, month + 1, n - DaysInMonth(year, month))
  }

  function MonthOf(date: Date): Month {
    MonthFrom(YearOf(date), 1, date - DaysBeforeYear(YearOf(date)))
  }

  function DayOfMonth(date: Date): int {
    date - DaysBeforeYear(YearOf(date)) - DaysBeforeMonth(YearOf(date), MonthOf(date))
  }

  lemma StepBy4(y: int)
    ensures (y + 1) / 4 == y / 4 + if (y + 1) % 4 == 0 then 1 else 0
  {
  }

  lemma StepBy100(y: int)
    ensures (y + 1) / 100 == y / 100 + if (y + 1) % 100 == 0 then 1 else 0
  {
  }

  lemma StepBy400(y: int)
    ensures (y + 1) / 400 == y / 400 + if (y + 1) % 400 == 0 then 1 else 0
  {
  }

  lemma Multiples(year: int)
    ensures year % 100 == 0 ==> year % 4 == 0
    ensures year % 400 == 0 ==> year % 100 == 0
  {
  }

  lemma YearLength(year: int)
    ensures DaysBeforeYear(year + 1) == DaysBeforeYear(year) + DaysInYear(year)
  {
    StepBy4(year - 1);
    StepBy100(year - 1);
    StepBy400(year - 1);
    Multiples(year);
  }

  lemma MonthLength(year: int, month: Month)
    ensures month < 12 ==> DaysBeforeMonth(year, month + 1) == DaysBeforeMonth(year, month) + DaysInMonth(year, month)
    ensures month == 12 ==> DaysInYear(year) == DaysBeforeMonth(year, 12) + DaysInMonth(year, 12)
  {
  }

  /** The ordinal of the first day of a year, by its place in the cycles. */
  lemma CycleStart(a: int, b: int, c: int, d: int)
    requires 0 <= b <= 3 && 0 <= c <= 24 && 0 <= d <= 3
    ensures DaysBeforeYear(400 * a + 100 * b + 4 * c + d + 1) == 146097 * a + 36524 * b + 1461 * c + 365 * d
  {
    var y := 400 * a + 100 * b + 4 * c + d;
    assert y / 4 == 100 * a + 25 * b + c;
    assert y / 100 == 4 * a + b;
    assert y / 400 == a;
  }

  /** The cycles an ordinal falls in, and what is left over. */
  lemma Cycles(n: int) returns (a: int, b: int, c: int, d: int, r: int)
    ensures n == 146097 * a + 36524 * b + 1461 * c + 365 * d + r && 0 <= r < 365
    ensures a == n / 146097 && b == n % 146097 / 36524
    ensures c == n % 146097 % 36524 / 1461 && d == n % 146097 % 36524 % 1461 / 365
    ensures 0 <= b <= 4 && 0 <= c <= 24 && 0 <= d <= 4
    ensures b == 4 ==> c == 0 && d == 0 && r == 0
    ensures d == 4 ==> r == 0 && c < 24
    ensures YearOf(n + 1) == 400 * a + 100 * b + 4 * c + d + if d == 4 || b == 4 then 0 else 1
  {
    var r400 := n % 146097;
    var r100 := r400 % 36524;
    var r4 := r100 % 1461;
    a, b, c, d, r := n / 146097, r400 / 36524, r100 / 1461, r4 / 365, r4 % 365;
    assert n == 146097 * a + r400;
    assert r400 == 36524 * b + r100;
    assert r100 == 1461 * c + r4;
    assert r4 == 365 * d + r;
  }

  lemma Remainder4(q: int)
    ensures (4 * q) % 4 == 0
  {
  }

  lemma Remainder100(q: int, r: int)
    requires 0 <= r < 100
    ensures (100 * q + r) % 100 == r
  {
  }

  lemma Remainder400(q: int)
    ensures (400 * q) % 400 == 0
  {
  }

  lemma FourthYearIsLeap(a: int, b: int, c: int)
    requires 0 <= c < 24
    ensures IsLeap(400 * a + 100 * b + 4 * c + 4)
    ensures IsLeap(400 * a + 400)
  {
    Remainder4(100 * a + 25 * b + c + 1);
    Remainder100(4 * a + b, 4 * c + 4);
    Remainder400(a + 1);
    Multiples(400 * a + 400);
  }

  /** The ordinal lies inside the year it is said to have. */
  lemma YearOfBounds(date: Date)
    ensures DaysBeforeYear(YearOf(date)) < date <= DaysBeforeYear(YearOf(date)) + DaysInYear(YearOf(date))
  {
    hide YearOf, DaysBeforeYear, IsLeap;
    var a, b, c, d, r := Cycles(date - 1);
    if b == 4 {
      CycleStart(a, 3, 24, 3);
      FourthYearIsLeap(a, b, 0);
    } else if d == 4 {
      CycleStart(a, b, c, 3);
      FourthYearIsLeap(a, b, c);
    } else {
      CycleStart(a, b, c, d);
    }
  }

  lemma {:induction false} LaterYearStartsLater(a: int, b: int)
    requires a <= b
    ensures DaysBeforeYear(b) >= DaysBeforeYear(a) + 365 * (b - a)
    decreases b - a
  {
    if a < b {
      LaterYearStartsLater(a, b - 1);
      YearLength(b - 1);
    }
  }

  /** No other year contains the ordinal. */
  lemma YearOfUnique(date: Date, year: int)
    requires DaysBeforeYear(year) < date <= DaysBeforeYear(year) + DaysInYear(year)
    ensures YearOf(date) == year
  {
    YearOfBounds(date);
    hide YearOf, IsLeap;
    YearLength(year);
    YearLength(YearOf(date));
    hide DaysBeforeYear;
    if YearOf(date) < year {
      LaterYearStartsLater(YearOf(date) + 1, year);
    } else if year < YearOf(date) {
      LaterYearStartsLater(year + 1, YearOf(date));
    }
  }

  lemma DayInYear(year: int, month: Month, day: int)
    requires IsDate(year, month, day)
    ensures 1 <= DaysBeforeMonth(year, month) + day <= DaysInYear(year)
  {
  }

  lemma {:induction false} MonthFromFinds(year: int, from: Month, month: Month, day: int)
    requires from <= month && 1 <= day <= DaysInMonth(year, month)
    ensures MonthFrom(year, from, DaysBeforeMonth(year, month) - DaysBeforeMonth(year, from) + day) == month
    decreases month - from
  {
    if from < month {
      MonthLength(year, from);
      MonthStartsIncrease(year, from + 1, month);
      MonthFromFinds(year, from + 1, month, day);
    }
  }

  lemma MonthStartsIncrease(year: int, a: Month, b: Month)
    requires a <= b
    ensures DaysBeforeMonth(year, a) <= DaysBeforeMonth(year, b)
  {
  }

  /** Building a date and taking it apart again. */
  lemma DateRoundTrip(year: int, month: Month, day: int)
    requires IsDate(year, month, day)
    ensures var date := Ordinal(year, month, day);
            YearOf(date) == year && MonthOf(date) == month && DayOfMonth(date) == day
  {
    var date := Ordinal(year, month, day);
    DayInYear(year, month, day);
    YearOfUnique(date, year);
    MonthFromFinds(year, 1, month, day);
  }

  lemma {:induction false} MonthFromBounds(year: int, from: Month, n: int)
    requires 1 <= n <= DaysInYear(year) - DaysBeforeMonth(year, from)
    ensures var month := MonthFrom(year, from, n);
            1 <= DaysBeforeMonth(year, from) + n - DaysBeforeMonth(year, month) <= DaysInMonth(year, month)
    decreases 12 - from
  {
    MonthLength(year, from);
    if from < 12 && n > DaysInMonth(year, from) {
      MonthFromBounds(year, from + 1, n - DaysInMonth(year, from));
    }
  }

  /** Every ordinal is a date, and taking it apart loses nothing. */
  lemma OrdinalRoundTrip(date: Date)
    ensures IsDate(YearOf(date), MonthOf(date), DayOfMonth(date))
    ensures Ordinal(YearOf(date), MonthOf(date), DayOfMonth(date)) == date
  {
    YearOfBounds(date);
    MonthFromBounds(YearOf(date), 1, date - DaysBeforeYear(YearOf(date)));
  }

  // ------------------------------------------------------------------------------------------
  // Where the calendar starts, and how it goes on
  // ------------------------------------------------------------------------------------------

  /** Day 1 is the first of January of year 1, */
  lemma DayOne()
    ensures Ordinal(1, 1, 1) == 1
  {
  }

  /** a Monday, and the days of the week follow one another. */
  lemma WeekdayMeaning(date: Date)
    ensures Weekday(1) == 0
    ensures Weekday(date + 1) == (Weekday(date) + 1) % 7
    ensures Weekday(date) == (date - 1) % 7
  {
  }

  /** The day after a date is the next of its month, the first of the next month, or the first of the next year. */
  lemma NextDay(year: int, month: Month, day: int)
    requires 1 <= day <= 31
    ensures var leap := year % 400 == 0 || (year % 4 == 0 && year % 100 != 0);
            var length := if month in {4, 6, 9, 11} then 30 else if month != 2 then 31 else if leap then 29 else 28;
            && (IsDate(year, month, day) <==> day <= length)
            && Ordinal(year, month, day) + 1
               == if day < length then Ordinal(year, month, day + 1)
                  else if month < 12 then Ordinal(year, month + 1, 1 + day - length)
                  else Ordinal(year + 1, 1, 1 + day - length)
  {
    Multiples(year);
    MonthLength(year, month);
    YearLength(year);
    hide DaysBeforeYear;
  }

  /** Saturday 6 January 2024, and the two leap-century cases. */
  lemma KnownDates()
    ensures Ordinal(2024, 1, 6) == 738891 && Weekday(738891) == 5
    ensures Ordinal(1900, 3, 1) - Ordinal(1900, 2, 28) == 1 && Ordinal(2000, 3, 1) - Ordinal(2000, 2, 28) == 2
  {
  }
}
