/** Observed federal holidays and the counting of business days (central/business_calendar.py). */
module BusinessCalendar {
  import opened Dates

  const MONDAY := 0
  const THURSDAY := 3
  const SATURDAY := 5
  const SUNDAY := 6

  // ------------------------------------------------------------------------------------------
  // The holiday table: 5 U.S.C. 6103(a), each on the day it is observed
  // ------------------------------------------------------------------------------------------

  function Observed(day: Date): (observed: Date)
    ensures Weekday(observed) < SATURDAY
    ensures day - 1 <= observed <= day + 1
    ensures Weekday(day) < SATURDAY ==> observed == day
  {
    if Weekday(day) == SATURDAY then day - 1
    else if Weekday(day) == SUNDAY then day + 1
    else day
  }

  function NthWeekday(year: int, month: Month, weekday: int, n: int): Date {
    var day := Ordinal(year, month, 1);
    day + (weekday - Weekday(day)) % 7 + 7 * (n - 1)
  }

  function LastWeekday(year: int, month: Month, weekday: int): Date {
    var nextMonth := Ordinal(if month == 12 then year + 1 else year, if month == 12 then 1 else month + 1, 1);
    var day := nextMonth - 1;
    day - (Weekday(day) - weekday) % 7
  }

  function FederalHolidays(year: int): set<Date> {
    {
      Observed(Ordinal(year, 1, 1)),
      NthWeekday(year, 1, MONDAY, 3),
      NthWeekday(year, 2, MONDAY, 3),
      LastWeekday(year, 5, MONDAY),
      Observed(Ordinal(year, 6, 19)),
      Observed(Ordinal(year, 7, 4)),
      NthWeekday(year, 9, MONDAY, 1),
      NthWeekday(year, 10, MONDAY, 2),
      Observed(Ordinal(year, 11, 11)),
      NthWeekday(year, 11, THURSDAY, 4),
      Observed(Ordinal(year, 12, 25))
    }
  }

  lemma Remainder7(q: int, r: int)
    requires 0 <= r < 7
    ensures (7 * q + r) % 7 == r
  {
  }

  lemma WeekdayShift(day: Date, weekday: int)
    requires 0 <= weekday < 7
    ensures Weekday(day + (weekday - Weekday(day)) % 7) == weekday
    ensures Weekday(day - (Weekday(day) - weekday) % 7) == weekday
  {
    var w, k := Weekday(day), (day + 6) / 7;
    assert day + 6 == 7 * k + w;
    var up, j := (weekday - w) % 7, (weekday - w) / 7;
    assert weekday - w == 7 * j + up;
    assert day + up + 6 == 7 * (k - j) + weekday;
    Remainder7(k - j, weekday);
    var down, i := (w - weekday) % 7, (w - weekday) / 7;
    assert w - weekday == 7 * i + down;
    assert day - down + 6 == 7 * (k + i) + weekday;
    Remainder7(k + i, weekday);
  }

  lemma WeeksLater(day: Date, weeks: int)
    ensures Weekday(day + 7 * weeks) == Weekday(day)
  {
  }

  /** The nth weekday stays in its month for n up to 4: it is the one of the nth run of seven days. */
  lemma NthWeekdayMeaning(year: int, month: Month, weekday: int, n: int)
    requires 0 <= weekday < 7 && 1 <= n <= 4
    ensures var day := NthWeekday(year, month, weekday, n);
            && Weekday(day) == weekday
            && Ordinal(year, month, 7 * (n - 1) + 1) <= day <= Ordinal(year, month, 7 * n)
            && 7 * n <= DaysInMonth(year, month)
  {
    var first := Ordinal(year, month, 1);
    WeekdayShift(first, weekday);
    WeeksLater(first + (weekday - Weekday(first)) % 7, n - 1);
  }

  /** The last weekday is the one of the month's last seven days. */
  lemma LastWeekdayMeaning(year: int, month: Month, weekday: int)
    requires 0 <= weekday < 7
    ensures var day, length := LastWeekday(year, month, weekday), DaysInMonth(year, month);
            && Weekday(day) == weekday
            && Ordinal(year, month, length - 6) <= day <= Ordinal(year, month, length)
            && length >= 28
  {
    hide DaysBeforeYear;
    MonthLength(year, month);
    YearLength(year);
    WeekdayShift(Ordinal(year, month, DaysInMonth(year, month)), weekday);
  }

  /** Two days of one run of seven that fall on one weekday are the same day. */
  lemma OneWeekdayPerWeek(a: Date, b: Date)
    requires Weekday(a) == Weekday(b) && -7 < a - b < 7
    ensures a == b
  {
  }

  /** A holiday on a fixed date: that day, or the working day beside it when it falls on a weekend. */
  predicate FixedHoliday(day: Date, year: int, month: Month, dayOfMonth: int) {
    var legal := Ordinal(year, month, dayOfMonth);
    if Weekday(legal) == SATURDAY then day == legal - 1
    else if Weekday(legal) == SUNDAY then day == legal + 1
    else day == legal
  }

  /** A holiday on a given weekday of the seven days from a day of a month. */
  predicate FloatingHoliday(day: Date, year: int, month: Month, weekday: int, from: int) {
    Weekday(day) == weekday && Ordinal(year, month, from) <= day <= Ordinal(year, month, from + 6)
  }

  /** 5 U.S.C. 6103(a) and (b), said of a day rather than computed for a year. */
  predicate Statutory(day: Date, year: int) {
    || FixedHoliday(day, year, 1, 1)
    || FloatingHoliday(day, year, 1, MONDAY, 15)
    || FloatingHoliday(day, year, 2, MONDAY, 15)
    || FloatingHoliday(day, year, 5, MONDAY, 25)
    || FixedHoliday(day, year, 6, 19)
    || FixedHoliday(day, year, 7, 4)
    || FloatingHoliday(day, year, 9, MONDAY, 1)
    || FloatingHoliday(day, year, 10, MONDAY, 8)
    || FixedHoliday(day, year, 11, 11)
    || FloatingHoliday(day, year, 11, THURSDAY, 22)
    || FixedHoliday(day, year, 12, 25)
  }

  lemma NthIsFloating(day: Date, year: int, month: Month, weekday: int, n: int)
    requires 0 <= weekday < 7 && 1 <= n <= 4
    ensures day == NthWeekday(year, month, weekday, n) <==> FloatingHoliday(day, year, month, weekday, 7 * (n - 1) + 1)
  {
    NthWeekdayMeaning(year, month, weekday, n);
    hide NthWeekday, DaysBeforeYear;
    if FloatingHoliday(day, year, month, weekday, 7 * (n - 1) + 1) {
      OneWeekdayPerWeek(day, NthWeekday(year, month, weekday, n));
    }
  }

  lemma MemorialIsFloating(day: Date, year: int)
    ensures day == LastWeekday(year, 5, MONDAY) <==> FloatingHoliday(day, year, 5, MONDAY, 25)
  {
    LastWeekdayMeaning(year, 5, MONDAY);
    hide LastWeekday, DaysBeforeYear;
    if FloatingHoliday(day, year, 5, MONDAY, 25) {
      OneWeekdayPerWeek(day, LastWeekday(year, 5, MONDAY));
    }
  }

  lemma ObservedIsFixed(day: Date, year: int, month: Month, dayOfMonth: int)
    ensures day == Observed(Ordinal(year, month, dayOfMonth)) <==> FixedHoliday(day, year, month, dayOfMonth)
  {
  }

  /** The computed table holds exactly the statute's days. */
  lemma TableIsStatutory(year: int, day: Date)
    ensures day in FederalHolidays(year) <==> Statutory(day, year)
  {
    hide NthWeekday, LastWeekday, Observed, FixedHoliday, FloatingHoliday, Ordinal;
    ObservedIsFixed(day, year, 1, 1);
    NthIsFloating(day, year, 1, MONDAY, 3);
    NthIsFloating(day, year, 2, MONDAY, 3);
    MemorialIsFloating(day, year);
    ObservedIsFixed(day, year, 6, 19);
    ObservedIsFixed(day, year, 7, 4);
    NthIsFloating(day, year, 9, MONDAY, 1);
    NthIsFloating(day, year, 10, MONDAY, 2);
    ObservedIsFixed(day, year, 11, 11);
    NthIsFloating(day, year, 11, THURSDAY, 4);
    ObservedIsFixed(day, year, 12, 25);
  }

  /** Where the table's entries fall in their year, and that none of them is in March. */
  predicate TablePlace(year: int, day: Date) {
    var offset := day - DaysBeforeYear(year);
    && 0 <= offset <= DaysBeforeMonth(year, 12) + 26
    && !(DaysBeforeMonth(year, 3) < offset <= DaysBeforeMonth(year, 4))
    && Weekday(day) < SATURDAY
  }

  lemma TableMeaning(year: int, day: Date)
    requires day in FederalHolidays(year)
    ensures TablePlace(year, day)
  {
    hide DaysBeforeYear, NthWeekday, LastWeekday, Observed, Weekday;
    NthWeekdayMeaning(year, 1, MONDAY, 3);
    NthWeekdayMeaning(year, 2, MONDAY, 3);
    LastWeekdayMeaning(year, 5, MONDAY);
    NthWeekdayMeaning(year, 9, MONDAY, 1);
    NthWeekdayMeaning(year, 10, MONDAY, 2);
    NthWeekdayMeaning(year, 11, THURSDAY, 4);
  }

  /** Every observed holiday is a weekday of its own year, or the last day of the year before. */
  lemma HolidayYear(year: int, day: Date)
    requires day in FederalHolidays(year)
    ensures Weekday(day) < SATURDAY
    ensures YearOf(day) == year || (YearOf(day) == year - 1 && day == Ordinal(year, 1, 1) - 1)
  {
    hide DaysBeforeYear, YearOf, FederalHolidays;
    TableMeaning(year, day);
    var offset := day - DaysBeforeYear(year);
    if offset >= 1 {
      YearOfUnique(day, year);
    } else {
      YearLength(year - 1);
      YearOfUnique(day, year - 1);
    }
  }

  ghost predicate IsHoliday(day: Date) {
    exists year :: day in FederalHolidays(year)
  }

  /**
   * A day is an observed holiday of some year iff it is in the tables of its own year and the two
   * beside it; the table of the year before is never the one that has it.
   */
  lemma ThreeYearsSuffice(day: Date)
    ensures var y := YearOf(day);
            IsHoliday(day) <==>
              day in FederalHolidays(y - 1) || day in FederalHolidays(y) || day in FederalHolidays(y + 1)
    ensures day !in FederalHolidays(YearOf(day) - 1)
  {
    hide FederalHolidays, YearOf;
    if IsHoliday(day) {
      var year :| day in FederalHolidays(year);
      HolidayYear(year, day);
    }
    if day in FederalHolidays(YearOf(day) - 1) {
      HolidayYear(YearOf(day) - 1, day);
    }
  }

  lemma FloatingOf2024()
    ensures NthWeekday(2024, 1, MONDAY, 3) == 738900 && NthWeekday(2024, 2, MONDAY, 3) == 738935 && LastWeekday(2024, 5, MONDAY) == 739033
    ensures NthWeekday(2024, 9, MONDAY, 1) == 739131 && NthWeekday(2024, 10, MONDAY, 2) == 739173 && NthWeekday(2024, 11, THURSDAY, 4) == 739218
  {
    hide NthWeekday, LastWeekday;
    NthIsFloating(738900, 2024, 1, MONDAY, 3);
    NthIsFloating(738935, 2024, 2, MONDAY, 3);
    MemorialIsFloating(739033, 2024);
    NthIsFloating(739131, 2024, 9, MONDAY, 1);
    NthIsFloating(739173, 2024, 10, MONDAY, 2);
    NthIsFloating(739218, 2024, 11, THURSDAY, 4);
  }

  lemma FixedOf2024()
    ensures Observed(Ordinal(2024, 1, 1)) == 738886 && Observed(Ordinal(2024, 6, 19)) == 739056 && Observed(Ordinal(2024, 7, 4)) == 739071
    ensures Observed(Ordinal(2024, 11, 11)) == 739201 && Observed(Ordinal(2024, 12, 25)) == 739245
  {
  }

  lemma DatesOf2024()
    ensures Ordinal(2024, 1, 1) == 738886 && Ordinal(2024, 1, 15) == 738900 && Ordinal(2024, 2, 19) == 738935 && Ordinal(2024, 5, 27) == 739033
    ensures Ordinal(2024, 6, 19) == 739056 && Ordinal(2024, 7, 4) == 739071 && Ordinal(2024, 9, 2) == 739131 && Ordinal(2024, 10, 14) == 739173
    ensures Ordinal(2024, 11, 11) == 739201 && Ordinal(2024, 11, 28) == 739218 && Ordinal(2024, 12, 25) == 739245
  {
  }

  /** A plain year: every fixed holiday of 2024 is a weekday. */
  lemma HolidaysOf2024(day: Date)
    ensures day in FederalHolidays(2024) <==>
      day in {Ordinal(2024, 1, 1), Ordinal(2024, 1, 15), Ordinal(2024, 2, 19), Ordinal(2024, 5, 27), Ordinal(2024, 6, 19),
              Ordinal(2024, 7, 4), Ordinal(2024, 9, 2), Ordinal(2024, 10, 14), Ordinal(2024, 11, 11), Ordinal(2024, 11, 28),
              Ordinal(2024, 12, 25)}
  {
    FloatingOf2024();
    FixedOf2024();
    DatesOf2024();
    hide Ordinal, NthWeekday, LastWeekday, Observed;
  }

  lemma FloatingOf2022()
    ensures NthWeekday(2022, 1, MONDAY, 3) == 738172 && NthWeekday(2022, 2, MONDAY, 3) == 738207 && LastWeekday(2022, 5, MONDAY) == 738305
    ensures NthWeekday(2022, 9, MONDAY, 1) == 738403 && NthWeekday(2022, 10, MONDAY, 2) == 738438 && NthWeekday(2022, 11, THURSDAY, 4) == 738483
  {
    hide NthWeekday, LastWeekday;
    NthIsFloating(738172, 2022, 1, MONDAY, 3);
    NthIsFloating(738207, 2022, 2, MONDAY, 3);
    MemorialIsFloating(738305, 2022);
    NthIsFloating(738403, 2022, 9, MONDAY, 1);
    NthIsFloating(738438, 2022, 10, MONDAY, 2);
    NthIsFloating(738483, 2022, 11, THURSDAY, 4);
  }

  lemma FixedOf2022()
    ensures Observed(Ordinal(2022, 1, 1)) == 738155 && Observed(Ordinal(2022, 6, 19)) == 738326 && Observed(Ordinal(2022, 7, 4)) == 738340
    ensures Observed(Ordinal(2022, 11, 11)) == 738470 && Observed(Ordinal(2022, 12, 25)) == 738515
  {
  }

  lemma DatesOf2022()
    ensures Ordinal(2021, 12, 31) == 738155 && Ordinal(2022, 1, 17) == 738172 && Ordinal(2022, 2, 21) == 738207 && Ordinal(2022, 5, 30) == 738305
    ensures Ordinal(2022, 6, 20) == 738326 && Ordinal(2022, 7, 4) == 738340 && Ordinal(2022, 9, 5) == 738403 && Ordinal(2022, 10, 10) == 738438
    ensures Ordinal(2022, 11, 11) == 738470 && Ordinal(2022, 11, 24) == 738483 && Ordinal(2022, 12, 26) == 738515
  {
  }

  /** A year with weekends in the way: New Year's Day 2022 is observed in 2021, and two Sundays on Mondays. */
  lemma HolidaysOf2022(day: Date)
    ensures day in FederalHolidays(2022) <==>
      day in {Ordinal(2021, 12, 31), Ordinal(2022, 1, 17), Ordinal(2022, 2, 21), Ordinal(2022, 5, 30), Ordinal(2022, 6, 20),
              Ordinal(2022, 7, 4), Ordinal(2022, 9, 5), Ordinal(2022, 10, 10), Ordinal(2022, 11, 11), Ordinal(2022, 11, 24),
              Ordinal(2022, 12, 26)}
  {
    FloatingOf2022();
    FixedOf2022();
    DatesOf2022();
    hide Ordinal, NthWeekday, LastWeekday, Observed;
  }

  // ------------------------------------------------------------------------------------------
  // Business days
  // ------------------------------------------------------------------------------------------

  datatype ProcurementCalendar = ProcurementCalendar(observeUsHolidays: bool, customClosures: set<Date>)

  ghost predicate BusinessDay(cal: ProcurementCalendar, day: Date) {
    && Weekday(day) < SATURDAY
    && day !in cal.customClosures
    && !(cal.observeUsHolidays && IsHoliday(day))
  }

  /**
   * On calendar dates: Monday to Friday, counted from Monday the first of January of year 1, unless
   * closed or, where holidays are observed, one of the statute's days of some year.
   */
  lemma BusinessDayMeaning(cal: ProcurementCalendar, year: int, month: Month, dayOfMonth: int)
    ensures var day := Ordinal(year, month, dayOfMonth);
            BusinessDay(cal, day) <==>
              && (day - 1) % 7 < 5
              && day !in cal.customClosures
              && !(cal.observeUsHolidays && exists y :: Statutory(day, y))
  {
    hide FederalHolidays, Statutory, Ordinal;
    var day := Ordinal(year, month, dayOfMonth);
    WeekdayMeaning(day);
    hide Weekday;
    forall y ensures day in FederalHolidays(y) <==> Statutory(day, y) {
      TableIsStatutory(y, day);
    }
  }

  /** No business day after `start`, up to and including `end`. */
  ghost predicate Closed(cal: ProcurementCalendar, start: Date, end: Date) {
    forall day :: start < day <= end ==> !BusinessDay(cal, day)
  }

  /** `holidays_for`. */
  method HolidaysFor(cal: ProcurementCalendar, years: seq<int>) returns (holidays: set<Date>)
    ensures forall day :: day in holidays <==>
      day in cal.customClosures || (cal.observeUsHolidays && exists year :: year in years && day in FederalHolidays(year))
  {
    hide FederalHolidays;
    holidays := cal.customClosures;
    if cal.observeUsHolidays {
      for i := 0 to |years|
        invariant forall day :: day in holidays <==>
          day in cal.customClosures || exists year :: year in years[..i] && day in FederalHolidays(year)
      {
        assert years[..i + 1] == years[..i] + [years[i]];
        holidays := holidays + FederalHolidays(years[i]);
      }
      assert years[..|years|] == years;
    }
  }

  /** Three years of tables decide it for all years. */
  method IsBusinessDay(cal: ProcurementCalendar, day: Date) returns (business: bool)
    ensures business <==> BusinessDay(cal, day)
  {
    hide FederalHolidays;
    if Weekday(day) >= SATURDAY {
      return false;
    }
    var y := YearOf(day);
    var holidays := HolidaysFor(cal, [y - 1, y, y + 1]);
    ThreeYearsSuffice(day);
    business := day !in holidays;
  }

  // ------------------------------------------------------------------------------------------
  // There is always a next business day
  // ------------------------------------------------------------------------------------------

  ghost function LatestOf(days: set<Date>): (latest: Date)
    ensures forall day :: day in days ==> day <= latest
  {
    if exists some :: some in days then
      var some :| some in days;
      var rest := LatestOf(days - {some});
      assert forall d :: d in days ==> d == some || d in days - {some};
      if some > rest then some else rest
    else 0
  }

  /** No federal holiday falls in March, so the first Monday of a March past every closure is one. */
  ghost function Horizon(cal: ProcurementCalendar, day: Date): Date {
    var latest := LatestOf(cal.customClosures);
    NthWeekday(YearOf(if day > latest then day else latest) + 1, 3, MONDAY, 1)
  }

  lemma NoHolidayInMarch(year: int, day: Date)
    requires Ordinal(year, 3, 1) <= day < Ordinal(year, 4, 1)
    ensures !IsHoliday(day)
  {
    hide FederalHolidays, DaysBeforeYear, YearOf;
    assert DaysBeforeMonth(year, 3) < day - DaysBeforeYear(year) <= DaysBeforeMonth(year, 4);
    YearOfUnique(day, year);
    forall y ensures day !in FederalHolidays(y) {
      if day in FederalHolidays(y) {
        HolidayYear(y, day);
        TableMeaning(y, day);
        YearLength(year);
      }
    }
  }

  lemma HorizonIsBusinessDay(cal: ProcurementCalendar, day: Date)
    ensures day < Horizon(cal, day) && BusinessDay(cal, Horizon(cal, day))
  {
    hide FederalHolidays, DaysBeforeYear, YearOf, NthWeekday, IsHoliday;
    var latest := LatestOf(cal.customClosures);
    var from := if day > latest then day else latest;
    var year := YearOf(from) + 1;
    YearOfBounds(from);
    YearLength(year - 1);
    NthWeekdayMeaning(year, 3, MONDAY, 1);
    NoHolidayInMarch(year, Horizon(cal, day));
  }

  ghost function NextFrom(cal: ProcurementCalendar, day: Date, horizon: Date): (next: Date)
    requires day <= horizon && BusinessDay(cal, horizon)
    ensures day <= next && BusinessDay(cal, next)
    ensures Closed(cal, day - 1, next - 1)
    decreases horizon - day
  {
    if BusinessDay(cal, day) then day else NextFrom(cal, day + 1, horizon)
  }

  ghost function NextBusinessDay(cal: ProcurementCalendar, day: Date): Date {
    HorizonIsBusinessDay(cal, day);
    NextFrom(cal, day + 1, Horizon(cal, day))
  }

  /** It is the first business day after `day`. */
  lemma NextIsFirst(cal: ProcurementCalendar, day: Date)
    ensures var next := NextBusinessDay(cal, day);
            day < next && BusinessDay(cal, next) && Closed(cal, day, next - 1)
  {
  }

  // ------------------------------------------------------------------------------------------
  // add_business_days
  // ------------------------------------------------------------------------------------------

  /** The nth business day after a day. */
  ghost function Added(cal: ProcurementCalendar, day: Date, n: nat): Date
    decreases n
  {
    if n == 0 then day else Added(cal, NextBusinessDay(cal, day), n - 1)
  }

  /** The loop stops for every finite set of closures: the distance to the next business day shrinks. */
  method AddBusinessDays(cal: ProcurementCalendar, start: Date, businessDays: int) returns (day: Date)
    ensures day == Added(cal, start, if businessDays > 0 then businessDays else 0)
  {
    hide BusinessDay, NextBusinessDay;
    day := start;
    var remaining: nat := if businessDays > 0 then businessDays else 0;
    while remaining > 0
      invariant Added(cal, day, remaining) == Added(cal, start, if businessDays > 0 then businessDays else 0)
      decreases remaining, NextBusinessDay(cal, day) - day
    {
      ghost var next := NextBusinessDay(cal, day);
      NextIsFirst(cal, day);
      day := day + 1;
      NextIsFirst(cal, day);
      var business := IsBusinessDay(cal, day);
      if business {
        assert next == day;
        remaining := remaining - 1;
      } else {
        assert next == NextBusinessDay(cal, day);
      }
    }
  }

  /** Business days after `start`, up to and including `end`. */
  ghost function BusinessDaysBetween(cal: ProcurementCalendar, start: Date, end: Date): nat
    decreases end - start
  {
    if end <= start then 0
    else BusinessDaysBetween(cal, start, end - 1) + if BusinessDay(cal, end) then 1 else 0
  }

  lemma {:induction false} BetweenCounts(cal: ProcurementCalendar, start: Date, end: Date)
    ensures BusinessDaysBetween(cal, start, end) == |set day | start < day <= end && BusinessDay(cal, day)|
    decreases end - start
  {
    hide BusinessDay;
    if start < end {
      BetweenCounts(cal, start, end - 1);
      var before := set day | start < day <= end - 1 && BusinessDay(cal, day);
      assert (set day | start < day <= end && BusinessDay(cal, day))
          == if BusinessDay(cal, end) then before + {end} else before;
    }
  }

  lemma {:induction false} BetweenSplits(cal: ProcurementCalendar, start: Date, via: Date, end: Date)
    requires start <= via <= end
    ensures BusinessDaysBetween(cal, start, end) == BusinessDaysBetween(cal, start, via) + BusinessDaysBetween(cal, via, end)
    decreases end - via
  {
    hide BusinessDay;
    if via < end {
      BetweenSplits(cal, start, via, end - 1);
    }
  }

  lemma {:induction false} NoneBetween(cal: ProcurementCalendar, start: Date, end: Date)
    requires Closed(cal, start, end)
    ensures BusinessDaysBetween(cal, start, end) == 0
    decreases end - start
  {
    hide BusinessDay;
    if start < end {
      NoneBetween(cal, start, end - 1);
    }
  }

  /** The result has exactly n business days up to it. */
  lemma {:induction false} AddedCounts(cal: ProcurementCalendar, start: Date, n: nat)
    ensures start <= Added(cal, start, n)
    ensures BusinessDaysBetween(cal, start, Added(cal, start, n)) == n
    decreases n
  {
    hide BusinessDay, NextBusinessDay;
    if n > 0 {
      var next := NextBusinessDay(cal, start);
      NextIsFirst(cal, start);
      AddedCounts(cal, next, n - 1);
      NoneBetween(cal, start, next - 1);
      BetweenSplits(cal, start, next, Added(cal, start, n));
    }
  }

  /** No earlier day has that many business days up to it. */
  lemma {:induction false} AddedIsLeast(cal: ProcurementCalendar, start: Date, n: nat, day: Date)
    requires start <= day < Added(cal, start, n)
    ensures BusinessDaysBetween(cal, start, day) < n
    decreases n
  {
    hide BusinessDay, NextBusinessDay;
    if n == 0 {
      assert false;
    }
    var next := NextBusinessDay(cal, start);
    NextIsFirst(cal, start);
    if day < next {
      NoneBetween(cal, start, day);
    } else {
      NoneBetween(cal, start, next - 1);
      BetweenSplits(cal, start, next, day);
      AddedIsLeast(cal, next, n - 1, day);
    }
  }

  /** Adding in two steps is adding at once. */
  lemma {:induction false} AddingIsAdditive(cal: ProcurementCalendar, day: Date, a: nat, b: nat)
    ensures Added(cal, day, a + b) == Added(cal, Added(cal, day, a), b)
    decreases a
  {
    hide NextBusinessDay;
    if a > 0 {
      AddingIsAdditive(cal, NextBusinessDay(cal, day), a - 1, b);
    }
  }

  /** More days never end earlier. */
  lemma MonotoneInCount(cal: ProcurementCalendar, day: Date, a: nat, b: nat)
    requires a <= b
    ensures Added(cal, day, a) <= Added(cal, day, b)
  {
    hide NextBusinessDay, BusinessDaysBetween;
    AddingIsAdditive(cal, day, a, b - a);
    AddedCounts(cal, Added(cal, day, a), b - a);
  }

  /** A calendar that is open on fewer days. */
  ghost predicate NoMoreOpen(stricter: ProcurementCalendar, cal: ProcurementCalendar) {
    && cal.customClosures <= stricter.customClosures
    && (cal.observeUsHolidays ==> stricter.observeUsHolidays)
  }

  /** A later start, or extra closures, never end earlier. */
  lemma {:induction false} LaterOrStricterNeverEarlier(cal: ProcurementCalendar, stricter: ProcurementCalendar,
                                                       early: Date, late: Date, n: nat)
    requires NoMoreOpen(stricter, cal) && early <= late
    ensures Added(cal, early, n) <= Added(stricter, late, n)
    decreases n
  {
    hide NextBusinessDay;
    if n > 0 {
      var a, b := NextBusinessDay(cal, early), NextBusinessDay(stricter, late);
      NextIsFirst(cal, early);
      NextIsFirst(stricter, late);
      assert BusinessDay(cal, b);
      assert a <= b;
      LaterOrStricterNeverEarlier(cal, stricter, a, b, n - 1);
    }
  }
}
