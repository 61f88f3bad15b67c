// Years, months and ISO 8601 weeks of a day number.
module Calendar {
  import opened Prices

  predicate IsLeap(y: int) {
    y % 4 == 0 && (y % 100 != 0 || y % 400 == 0)
  }

  function DaysBeforeYear(y: int): int {
    (y - 1) * 365 + (y - 1) / 4 - (y - 1) / 100 + (y - 1) / 400
  }

  function DaysInYear(y: int): int {
    if IsLeap(y) then 366 else 365
  }

  lemma {:induction false} NextQuotient4(n: int)
    ensures (n + 1) / 4 == n / 4 + if (n + 1) % 4 == 0 then 1 else 0
  {
  }

  lemma {:induction false} NextQuotient100(n: int)
    ensures (n + 1) / 100 == n / 100 + if (n + 1) % 100 == 0 then 1 else 0
  {
  }

  lemma {:induction false} NextQuotient400(n: int)
    ensures (n + 1) / 400 == n / 400 + if (n + 1) % 400 == 0 then 1 else 0
  {
  }

  lemma {:induction false} HundredsByFour(q: int)
    ensures (100 * q) % 4 == 0
  {
    assert 100 * q == 4 * (25 * q);
  }

  lemma {:induction false} FourHundredsByHundred(q: int)
    ensures (400 * q) % 100 == 0
  {
    assert 400 * q == 100 * (4 * q);
  }

  // A multiple of 400 is one of 100, and a multiple of 100 is one of 4.
  lemma {:induction false} Multiples(y: int)
    ensures y % 100 == 0 ==> y % 4 == 0
    ensures y % 400 == 0 ==> y % 100 == 0
  {
    if y % 100 == 0 {
      HundredsByFour(y / 100);
      assert y == 100 * (y / 100);
    }
    if y % 400 == 0 {
      FourHundredsByHundred(y / 400);
      assert y == 400 * (y / 400);
    }
  }

  lemma {:induction false} YearLength(y: int)
    requires y >= 1
    ensures DaysBeforeYear(y + 1) == DaysBeforeYear(y) + DaysInYear(y)
  {
    var n := y - 1;
    var (a, b, c) := (n / 4, n / 100, n / 400);
    NextQuotient4(n);
    NextQuotient100(n);
    NextQuotient400(n);
    Multiples(y);
  }

  function YearFrom(y: int, day: Day): (r: int)
    requires y >= 1 && DaysBeforeYear(y) < day
    ensures r >= y && DaysBeforeYear(r) < day <= DaysBeforeYear(r + 1)
    decreases day - DaysBeforeYear(y)
  {
    YearLength(y);
    if day <= DaysBeforeYear(y + 1) then y else YearFrom(y + 1, day)
  }

  function Year(day: Day): (y: int)
    ensures y >= 1 && DaysBeforeYear(y) < day <= DaysBeforeYear(y + 1)
  {
    YearFrom(1, day)
  }

  lemma {:induction false} YearsAscend(a: int, b: int)
    requires 1 <= a <= b
    ensures DaysBeforeYear(a) <= DaysBeforeYear(b)
    decreases b
  {
    if a < b {
      YearsAscend(a, b - 1);
      YearLength(b - 1);
    }
  }

  lemma {:induction false} YearIsMonotone(a: Day, b: Day)
    requires a <= b
    ensures Year(a) <= Year(b)
  {
    if Year(b) < Year(a) {
      YearsAscend(Year(b) + 1, Year(a));
    }
  }

  // A period within a year: a month of a calendar year or a week of an ISO year.
  datatype Period = Period(year: int, part: int)

  predicate Before(p: Period, q: Period) {
    p.year < q.year || (p.year == q.year && p.part < q.part)
  }

  // ------------------------------------------------------------------ weeks

  function Monday(day: Day): Day {
    day - (day - 1) % 7
  }

  // The ISO year and week: those of the Thursday of the week (section 4.1.4 of ISO 8601:2004).
  function WeekOf(day: Day): Period {
    var thursday := Monday(day) + 3;
    var year := Year(thursday);
    Period(year, (thursday - DaysBeforeYear(year) - 1) / 7 + 1)
  }

  lemma {:induction false} MondayIsFirst(day: Day)
    ensures Monday(day) == 7 * ((day - 1) / 7) + 1
  {
  }

  lemma {:induction false} SameQuotient(v: int, w: int, start: int)
    requires (7 * v + 4 - start) / 7 == (7 * w + 4 - start) / 7
    ensures v == w
  {
  }

  // Two days have the same ISO year and week exactly when their weeks start on the same Monday.
  lemma {:induction false} SameWeekIffSameMonday(a: Day, b: Day)
    ensures WeekOf(a) == WeekOf(b) <==> Monday(a) == Monday(b)
  {
    if WeekOf(a) == WeekOf(b) {
      MondayIsFirst(a);
      MondayIsFirst(b);
      SameQuotient((a - 1) / 7, (b - 1) / 7, DaysBeforeYear(WeekOf(a).year) + 1);
    }
  }

  // Week 1 of a year is the week with 4 January.
  lemma {:induction false} WeekOneHasJanuaryFourth(day: Day, year: int)
    requires year >= 1
    ensures WeekOf(day) == Period(year, 1) <==> Monday(day) == Monday(DaysBeforeYear(year) + 4)
  {
    YearsAscend(1, year);
    var fourth: Day := DaysBeforeYear(year) + 4;
    var thursday := Monday(fourth) + 3;
    assert DaysBeforeYear(year) < thursday <= DaysBeforeYear(year) + 7;
    YearLength(year);
    YearIs(thursday, year);
    assert WeekOf(fourth) == Period(year, 1);
    SameWeekIffSameMonday(day, fourth);
  }

  lemma {:induction false} YearIs(day: Day, year: int)
    requires year >= 1 && DaysBeforeYear(year) < day <= DaysBeforeYear(year + 1)
    ensures Year(day) == year
  {
    if Year(day) < year {
      YearsAscend(Year(day) + 1, year);
    } else if year < Year(day) {
      YearsAscend(year + 1, Year(day));
    }
  }

  // ----------------------------------------------------------------- months

  const CUMULATIVE := [0, 31, 59, 90, 120, 151, 181, 212, 243, 273, 304, 334, 365]

  function DaysBeforeMonth(year: int, month: int): int
    requires 1 <= month <= 13
  {
    CUMULATIVE[month - 1] + if month > 2 && IsLeap(year) then 1 else 0
  }

  function MonthFrom(month: int, year: int, n: int): (r: int)
    requires 1 <= month <= 12 && DaysBeforeMonth(year, month) < n <= DaysInYear(year)
    ensures month <= r <= 12 && DaysBeforeMonth(year, r) < n <= DaysBeforeMonth(year, r + 1)
    decreases 12 - month
  {
    if month == 12 || n <= DaysBeforeMonth(year, month + 1) then month else MonthFrom(month + 1, year, n)
  }

  function MonthOf(day: Day): Period {
    var year := Year(day);
    YearLength(year);
    Period(year, MonthFrom(1, year, day - DaysBeforeYear(year)))
  }

  lemma {:induction false} MonthsAscend(year: int, a: int, b: int)
    requires 1 <= a <= b <= 13
    ensures DaysBeforeMonth(year, a) <= DaysBeforeMonth(year, b)
    decreases b
  {
    if a < b {
      MonthsAscend(year, a, b - 1);
    }
  }

  // The length of a month.
  function MonthLength(year: int, month: int): int {
    if month == 2 then if year % 4 == 0 && (year % 100 != 0 || year % 400 == 0) then 29 else 28
    else if month in {4, 6, 9, 11} then 30
    else 31
  }

  // The place of a day within its month.
  function DayOfMonth(day: Day): int {
    var p := MonthOf(day);
    if 1 <= p.part <= 13 then day - DaysBeforeYear(p.year) - DaysBeforeMonth(p.year, p.part) else 0
  }

  lemma {:induction false} MonthIs(day: Day)
    ensures var p := MonthOf(day);
            && p.year == Year(day) && 1 <= p.part <= 12
            && DaysBeforeMonth(p.year, p.part) < day - DaysBeforeYear(p.year) <= DaysBeforeMonth(p.year, p.part + 1)
  {
    YearLength(Year(day));
  }

  lemma {:induction false} MonthSpan(year: int, month: int)
    requires 1 <= month <= 12
    ensures DaysBeforeMonth(year, month + 1) == DaysBeforeMonth(year, month) + MonthLength(year, month)
    ensures DaysBeforeMonth(year, 1) == 0 && DaysBeforeMonth(year, 13) == DaysInYear(year)
  {
  }

  lemma {:induction false} MonthUnique(day: Day, year: int, month: int)
    requires year >= 1 && 1 <= month <= 12
    requires DaysBeforeMonth(year, month) < day - DaysBeforeYear(year) <= DaysBeforeMonth(year, month + 1)
    ensures MonthOf(day) == Period(year, month)
  {
    MonthsAscend(year, 1, month);
    MonthsAscend(year, month + 1, 13);
    MonthSpan(year, 12);
    YearLength(year);
    YearIs(day, year);
    MonthIs(day);
    var part := MonthOf(day).part;
    if part < month {
      MonthsAscend(year, part + 1, month);
    } else if month < part {
      MonthsAscend(year, month + 1, part);
    }
  }

  lemma {:induction false} DateParts(day: Day)
    ensures var p := MonthOf(day);
            && p.year >= 1 && 1 <= p.part <= 12 && 1 <= DayOfMonth(day) <= MonthLength(p.year, p.part)
            && day == DaysBeforeYear(p.year) + DaysBeforeMonth(p.year, p.part) + DayOfMonth(day)
  {
    MonthIs(day);
    MonthSpan(MonthOf(day).year, MonthOf(day).part);
  }

  lemma {:induction false} DateIs(day: Day, year: int, month: int, n: int)
    requires year >= 1 && 1 <= month <= 12 && 1 <= n <= MonthLength(year, month)
    requires day == DaysBeforeYear(year) + DaysBeforeMonth(year, month) + n
    ensures MonthOf(day) == Period(year, month) && DayOfMonth(day) == n
  {
    MonthSpan(year, month);
    MonthUnique(day, year, month);
  }

  // The calendar, day by day: day 1 is 1 January of year 1, and the day after a date is the
  // next of its month, the first of the next month, or the first of the next year.
  lemma {:induction false} DatesSucceed(day: Day)
    ensures MonthOf(1) == Period(1, 1) && DayOfMonth(1) == 1
    ensures
      var (today, tomorrow) := (MonthOf(day), MonthOf(day + 1));
      if DayOfMonth(day) < MonthLength(today.year, today.part) then
        tomorrow == today && DayOfMonth(day + 1) == DayOfMonth(day) + 1
      else
        && DayOfMonth(day) == MonthLength(today.year, today.part) && DayOfMonth(day + 1) == 1
        && tomorrow == if today.part < 12 then Period(today.year, today.part + 1) else Period(today.year + 1, 1)
  {
    FirstDate();
    DateParts(day);
    var (today, n) := (MonthOf(day), DayOfMonth(day));
    if n < MonthLength(today.year, today.part) {
      DateIs(day + 1, today.year, today.part, n + 1);
    } else if today.part < 12 {
      NextMonth(day, today.year, today.part);
    } else {
      NextYear(day, today.year);
    }
  }

  lemma {:induction false} FirstDate()
    ensures MonthOf(1) == Period(1, 1) && DayOfMonth(1) == 1
  {
    DateIs(1, 1, 1, 1);
  }

  lemma {:induction false} NextMonth(day: Day, year: int, month: int)
    requires year >= 1 && 1 <= month < 12
    requires day == DaysBeforeYear(year) + DaysBeforeMonth(year, month) + MonthLength(year, month)
    ensures MonthOf(day + 1) == Period(year, month + 1) && DayOfMonth(day + 1) == 1
  {
    MonthSpan(year, month);
    DateIs(day + 1, year, month + 1, 1);
  }

  lemma {:induction false} NextYear(day: Day, year: int)
    requires year >= 1 && day == DaysBeforeYear(year) + DaysBeforeMonth(year, 12) + MonthLength(year, 12)
    ensures MonthOf(day + 1) == Period(year + 1, 1) && DayOfMonth(day + 1) == 1
  {
    MonthSpan(year, 12);
    MonthSpan(year + 1, 1);
    YearLength(year);
    DateIs(day + 1, year + 1, 1, 1);
  }

  lemma {:induction false} WeekAfter(n: int)
    ensures (n + 7) / 7 == n / 7 + 1
  {
  }

  // Weeks start every seventh day from day 1, and the week after one is the next of its year
  // or the first of the next.
  lemma {:induction false} MondayStarts(day: Day)
    ensures Monday(1) == 1 && Monday(day) <= day < Monday(day) + 7 && Monday(day + 7) == Monday(day) + 7
    ensures Monday(Monday(day)) == Monday(day)
  {
    MondayIsFirst(day);
    MondayIsFirst(day + 7);
    WeekAfter(day - 1);
  }

  lemma {:induction false} WeekIs(day: Day, year: int, thursday: Day)
    requires year >= 1 && thursday == Monday(day) + 3
    requires DaysBeforeYear(year) < thursday <= DaysBeforeYear(year + 1)
    ensures WeekOf(day) == Period(year, (thursday - DaysBeforeYear(year) - 1) / 7 + 1)
  {
    YearIs(thursday, year);
  }

  lemma {:induction false} WeeksSucceed(day: Day)
    ensures
      var (week, next) := (WeekOf(day), WeekOf(day + 7));
      next == Period(week.year, week.part + 1) || next == Period(week.year + 1, 1)
  {
    MondayStarts(day);
    var year := Year(Monday(day) + 3);
    if Monday(day) + 10 <= DaysBeforeYear(year + 1) {
      WeekInYear(day, year, Monday(day) + 3);
    } else {
      FirstWeek(day + 7, year + 1, Monday(day) + 10);
    }
  }

  lemma {:induction false} WeekInYear(day: Day, year: int, thursday: Day)
    requires year >= 1 && thursday == Monday(day) + 3 && Monday(day + 7) == Monday(day) + 7
    requires DaysBeforeYear(year) < thursday && thursday + 7 <= DaysBeforeYear(year + 1)
    ensures WeekOf(day + 7) == Period(year, WeekOf(day).part + 1) && WeekOf(day).year == year
  {
    var n := thursday - DaysBeforeYear(year) - 1;
    WeekAfter(n);
    WeekIs(day, year, thursday);
    WeekIs(day + 7, year, thursday + 7);
  }

  lemma {:induction false} FirstWeek(day: Day, year: int, thursday: Day)
    requires year >= 1 && thursday == Monday(day) + 3 && 1 <= thursday - DaysBeforeYear(year) <= 7
    ensures WeekOf(day) == Period(year, 1)
  {
    YearLength(year);
    WeekIs(day, year, thursday);
    var n := thursday - DaysBeforeYear(year) - 1;
    assert n / 7 == 0;
  }

  // ------------------------------------------------------------- both kinds

  lemma {:induction false} WeeksAreMonotone(a: Day, b: Day)
    requires a <= b
    ensures !Before(WeekOf(b), WeekOf(a))
  {
    YearIsMonotone(Monday(a) + 3, Monday(b) + 3);
  }

  lemma {:induction false} MonthsAreMonotone(a: Day, b: Day)
    requires a <= b
    ensures !Before(MonthOf(b), MonthOf(a))
  {
    YearIsMonotone(a, b);
    var (p, q) := (MonthOf(a), MonthOf(b));
    if p.year == q.year && q.part < p.part {
      YearLength(p.year);
      MonthsAscend(p.year, q.part + 1, p.part);
    }
  }
}
