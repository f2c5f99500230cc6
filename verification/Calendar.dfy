/** The proleptic Gregorian calendar in UTC, as the search for the next cron run sees it.
    A day is numbered from 0001-01-01 (day 0, a Monday); a minute is numbered from midnight of
    that day.  Both numbers are unbounded and may be negative. */
module Calendar {
  import opened Multiples

  const DAYS_PER_CYCLE := 146097

  datatype Date = Date(year: int, month: int, day: int)

  predicate IsLeap(y: int) {
    y % 4 == 0 && (y % 100 != 0 || y % 400 == 0)
  }

  function DaysIn(y: int, m: int): (n: int)
    requires 1 <= m <= 12
    ensures 28 <= n <= 31
  {
    if m == 2 then (if IsLeap(y) then 29 else 28)
    else if m == 4 || m == 6 || m == 9 || m == 11 then 30
    else 31
  }

  predicate ValidDate(d: Date) {
    1 <= d.month <= 12 && 1 <= d.day <= DaysIn(d.year, d.month)
  }

  function YearDays(y: int): int {
    if IsLeap(y) then 366 else 365
  }

  /** The signed number of days from 0001-01-01 to the first day of year y. */
  function DaysBeforeYear(y: int): int
    decreases if y < 1 then 1 - y else y - 1
  {
    if y == 1 then 0
    else if y > 1 then DaysBeforeYear(y - 1) + YearDays(y - 1)
    else DaysBeforeYear(y + 1) - YearDays(y)
  }

  /** Days of year y that precede month m; month 13 stands for the whole year. */
  function DaysBeforeMonth(y: int, m: int): (n: int)
    requires 1 <= m <= 13
    ensures 28 * (m - 1) <= n <= 31 * (m - 1)
  {
    if m == 1 then 0 else DaysBeforeMonth(y, m - 1) + DaysIn(y, m - 1)
  }

  function DayNumber(d: Date): int
    requires 1 <= d.month <= 12
  {
    DaysBeforeYear(d.year) + DaysBeforeMonth(d.year, d.month) + d.day - 1
  }

  // ---------- from a day number back to a date ----------

  /** The year that holds day n, searched from year y. */
  function YearFrom(n: int, y: int): (r: int)
    ensures DaysBeforeYear(r) <= n < DaysBeforeYear(r + 1)
    decreases if n < DaysBeforeYear(y) then DaysBeforeYear(y) - n + 1
              else if n < DaysBeforeYear(y + 1) then 0
              else n - DaysBeforeYear(y + 1) + 1
  {
    YearStep(y - 1);
    YearStep(y);
    YearStep(y + 1);
    if n < DaysBeforeYear(y) then YearFrom(n, y - 1)
    else if n < DaysBeforeYear(y + 1) then y
    else YearFrom(n, y + 1)
  }

  /** The month that holds the day-of-year k, searched upwards from month m. */
  function MonthFrom(y: int, k: int, m: int): (r: int)
    requires 1 <= m <= 12 && DaysBeforeMonth(y, m) <= k < DaysBeforeMonth(y, 13)
    ensures m <= r <= 12 && DaysBeforeMonth(y, r) <= k < DaysBeforeMonth(y, r + 1)
    decreases 13 - m
  {
    if k < DaysBeforeMonth(y, m + 1) then m else MonthFrom(y, k, m + 1)
  }

  lemma MonthTable(y: int)
    ensures var leap := if IsLeap(y) then 1 else 0;
            && DaysBeforeMonth(y, 1) == 0 && DaysBeforeMonth(y, 2) == 31 && DaysBeforeMonth(y, 3) == 59 + leap
            && DaysBeforeMonth(y, 4) == 90 + leap && DaysBeforeMonth(y, 5) == 120 + leap
            && DaysBeforeMonth(y, 6) == 151 + leap && DaysBeforeMonth(y, 7) == 181 + leap
            && DaysBeforeMonth(y, 8) == 212 + leap && DaysBeforeMonth(y, 9) == 243 + leap
            && DaysBeforeMonth(y, 10) == 273 + leap && DaysBeforeMonth(y, 11) == 304 + leap
            && DaysBeforeMonth(y, 12) == 334 + leap && DaysBeforeMonth(y, 13) == 365 + leap
  {
    var leap := if IsLeap(y) then 1 else 0;
    assert DaysBeforeMonth(y, 2) == 31;
    assert DaysBeforeMonth(y, 3) == 59 + leap;
    assert DaysBeforeMonth(y, 4) == 90 + leap;
    assert DaysBeforeMonth(y, 5) == 120 + leap;
    assert DaysBeforeMonth(y, 6) == 151 + leap;
    assert DaysBeforeMonth(y, 7) == 181 + leap;
    assert DaysBeforeMonth(y, 8) == 212 + leap;
    assert DaysBeforeMonth(y, 9) == 243 + leap;
    assert DaysBeforeMonth(y, 10) == 273 + leap;
    assert DaysBeforeMonth(y, 11) == 304 + leap;
    assert DaysBeforeMonth(y, 12) == 334 + leap;
  }

  lemma YearLength(y: int)
    ensures DaysBeforeMonth(y, 13) == YearDays(y)
  {
    MonthTable(y);
  }

  lemma YearStep(y: int)
    ensures DaysBeforeYear(y + 1) == DaysBeforeYear(y) + YearDays(y)
  {
  }

  function Centuries(x: int): int { 365 * x + x / 4 - x / 100 + x / 400 }

  lemma QuotientStep(x: int, m: int)
    requires m > 1
    ensures (x + 1) / m == x / m + if (x + 1) % m == 0 then 1 else 0
  {
    Multiples.Euclid(x, m);
    if x % m == m - 1 {
      Multiples.QuotientIsUnique(x + 1, m, x / m + 1, 0);
    } else {
      Multiples.QuotientIsUnique(x + 1, m, x / m, x % m + 1);
    }
  }

  lemma CenturiesStep(x: int)
    ensures Centuries(x + 1) == Centuries(x) + YearDays(x + 1)
  {
    QuotientStep(x, 4);
    QuotientStep(x, 100);
    QuotientStep(x, 400);
  }

  /** Every fourth year is a leap year, less every hundredth, plus every four-hundredth. */
  lemma {:induction false} ClosedForm(y: int)
    ensures DaysBeforeYear(y) == Centuries(y - 1)
    decreases if y < 1 then 1 - y else y - 1
  {
    if y > 1 {
      ClosedForm(y - 1);
      CenturiesStep(y - 2);
    } else if y < 1 {
      ClosedForm(y + 1);
      CenturiesStep(y - 1);
    }
  }

  /** Months before March leave no leap day behind them; later ones fall short of the even spacing by
      two days, or by one in a leap year. */
  lemma MonthFormula(y: int, m: int)
    requires 1 <= m <= 13
    ensures DaysBeforeMonth(y, m) ==
              (367 * m - 362) / 12
              - if m <= 2 then 0 else if y % 4 == 0 && (y % 100 != 0 || y % 400 == 0) then 1 else 2
  {
    MonthTable(y);
  }

  /** The number of every date of the calendar in closed form, by the rules of the Gregorian reform. */
  lemma DayNumberFormula(y: int, m: int, d: int)
    requires 1 <= m <= 12
    ensures DayNumber(Date(y, m, d)) ==
              365 * (y - 1) + (y - 1) / 4 - (y - 1) / 100 + (y - 1) / 400
              + (367 * m - 362) / 12
              - (if m <= 2 then 0 else if y % 4 == 0 && (y % 100 != 0 || y % 400 == 0) then 1 else 2)
              + d - 1
  {
    ClosedForm(y);
    MonthFormula(y, m);
  }

  /** A month has exactly the days up to the first of the next one. */
  lemma ValidDateIff(y: int, m: int, d: int)
    requires 1 <= m <= 12
    ensures ValidDate(Date(y, m, d)) <==>
              1 <= d && DayNumber(Date(y, m, d)) < DayNumber(if m == 12 then Date(y + 1, 1, 1) else Date(y, m + 1, 1))
  {
    YearLength(y);
    YearStep(y);
  }

  /** Weekdays follow one another, Saturday being followed by Sunday. */
  lemma NextWeekday(n: int)
    ensures Weekday(Midnight(n + 1)) == if Weekday(Midnight(n)) == 6 then 0 else Weekday(Midnight(n)) + 1
  {
    MultiplesCarry(0, n, 1440);
    MultiplesCarry(0, n + 1, 1440);
    Euclid(n + 1, 7);
    var q, r := (n + 1) / 7, (n + 1) % 7;
    if r == 6 {
      QuotientIsUnique(n + 2, 7, q + 1, 0);
    } else {
      QuotientIsUnique(n + 2, 7, q, r + 1);
    }
  }

  /** 1 January 1970 is day 719162, and a Thursday. */
  lemma UnixEpoch()
    ensures DayNumber(Date(1970, 1, 1)) == 719162 && Weekday(Midnight(719162)) == 4
  {
    ClosedForm(1970);
  }

  lemma CycleOfYears(y: int, k: int)
    ensures DaysBeforeYear(y + 400 * k) == DaysBeforeYear(y) + DAYS_PER_CYCLE * k
    ensures IsLeap(y + 400 * k) == IsLeap(y)
  {
    ClosedForm(y);
    ClosedForm(y + 400 * k);
    MultiplesCarry(y - 1, 100 * k, 4);
    MultiplesCarry(y - 1, 4 * k, 100);
    MultiplesCarry(y - 1, k, 400);
    MultiplesCarry(y, 100 * k, 4);
    MultiplesCarry(y, 4 * k, 100);
    MultiplesCarry(y, k, 400);
  }

  /** The date of a day: the only valid date with that day number. */
  function DateOf(n: int): (d: Date)
    ensures ValidDate(d) && DayNumber(d) == n
  {
    var y := YearFrom(n, 1);
    YearLength(y);
    YearStep(y);
    var k := n - DaysBeforeYear(y);
    var m := MonthFrom(y, k, 1);
    Date(y, m, k - DaysBeforeMonth(y, m) + 1)
  }

  lemma {:induction false} YearsMonotone(y: int, z: int)
    requires y < z
    ensures DaysBeforeYear(y) + YearDays(y) <= DaysBeforeYear(z)
    decreases z - y
  {
    YearStep(y);
    if y + 1 < z {
      YearsMonotone(y + 1, z);
    }
  }

  lemma {:induction false} MonthsMonotone(y: int, m: int, k: int)
    requires 1 <= m < k <= 13
    ensures DaysBeforeMonth(y, m) + DaysIn(y, m) <= DaysBeforeMonth(y, k)
    decreases k
  {
    if m + 1 < k {
      MonthsMonotone(y, m, k - 1);
    }
  }

  lemma DayNumberOrders(d: Date, e: Date)
    requires ValidDate(d) && ValidDate(e)
    requires d.year < e.year || (d.year == e.year && d.month < e.month)
    ensures DayNumber(d) < DayNumber(e)
  {
    if d.year < e.year {
      YearsMonotone(d.year, e.year);
      YearLength(d.year);
      MonthsMonotone(d.year, d.month, 13);
    } else {
      MonthsMonotone(d.year, d.month, e.month);
    }
  }

  /** Two valid dates with the same day number are the same date. */
  lemma DayNumberInjective(d: Date, e: Date)
    requires ValidDate(d) && ValidDate(e) && DayNumber(d) == DayNumber(e)
    ensures d == e
  {
    if d.year < e.year || (d.year == e.year && d.month < e.month) {
      DayNumberOrders(d, e);
    } else if e.year < d.year || (e.year == d.year && e.month < d.month) {
      DayNumberOrders(e, d);
    }
  }

  lemma {:induction false} MonthTableDependsOnLeap(y: int, z: int, m: int)
    requires IsLeap(y) == IsLeap(z) && 1 <= m <= 13
    ensures DaysBeforeMonth(y, m) == DaysBeforeMonth(z, m)
    decreases m
  {
    if m > 1 {
      MonthTableDependsOnLeap(y, z, m - 1);
    }
  }

  /** A date keeps its month and day when it moves by whole 146,097-day cycles, and its year
      moves by 400 for each. */
  lemma DatesRepeat(d: Date, e: Date, k: int)
    requires ValidDate(d) && ValidDate(e) && DayNumber(e) == DayNumber(d) + DAYS_PER_CYCLE * k
    ensures e == Date(d.year + 400 * k, d.month, d.day)
  {
    var f := Date(d.year + 400 * k, d.month, d.day);
    CycleOfYears(d.year, k);
    MonthTableDependsOnLeap(d.year, f.year, d.month);
    DayNumberInjective(e, f);
  }

  // ---------- the parts of an instant ----------

  function DayOf(t: int): int { t / 1440 }

  function Midnight(n: int): int { n * 1440 }

  function MonthOf(t: int): int { DateOf(DayOf(t)).month }

  function DayOfMonth(t: int): int { DateOf(DayOf(t)).day }

  /** 0 is Sunday. */
  function Weekday(t: int): int { (DayOf(t) + 1) % 7 }

  function Hour(t: int): int { t % 1440 / 60 }

  function Minute(t: int): int { t % 60 }

  lemma PartsInRange(t: int)
    ensures 0 <= Minute(t) <= 59 && 0 <= Hour(t) <= 23 && 0 <= Weekday(t) <= 6
    ensures 1 <= MonthOf(t) <= 12 && 1 <= DayOfMonth(t) <= 31
  {
  }

  /** Midnight of the given day, with months and days past their range carried over as the
      standard library normalises them. */
  function NormalizedMidnight(y: int, m: int, day: int): int {
    Midnight(DayNumber(Date(y + (m - 1) / 12, (m - 1) % 12 + 1, 1)) + day - 1)
  }

  lemma WholeDaysLater(t: int, u: int, days: int)
    requires u == t + 1440 * days
    ensures DayOf(u) == DayOf(t) + days && Hour(u) == Hour(t) && Minute(u) == Minute(t)
  {
    MultiplesCarry(t, days, 1440);
    MultiplesCarry(t, 24 * days, 60);
  }

  lemma WeekdayRepeats(n: int, m: int, k: int)
    requires m == n + DAYS_PER_CYCLE * k
    ensures (m + 1) % 7 == (n + 1) % 7
  {
    MultiplesCarry(n + 1, 20871 * k, 7);
  }

  lemma DayRepeats(n: int, m: int, k: int)
    requires m == n + DAYS_PER_CYCLE * k
    ensures DateOf(m).month == DateOf(n).month && DateOf(m).day == DateOf(n).day
  {
    DatesRepeat(DateOf(n), DateOf(m), k);
  }

  /** Every part of an instant except the year repeats after a cycle. */
  lemma InstantsRepeat(t: int, k: int) returns (u: int)
    ensures u == t + 1440 * (DAYS_PER_CYCLE * k)
    ensures MonthOf(u) == MonthOf(t) && DayOfMonth(u) == DayOfMonth(t)
    ensures Weekday(u) == Weekday(t) && Hour(u) == Hour(t) && Minute(u) == Minute(t)
  {
    u := t + 1440 * (DAYS_PER_CYCLE * k);
    WholeDaysLater(t, u, DAYS_PER_CYCLE * k);
    DayRepeats(DayOf(t), DayOf(u), k);
    WeekdayRepeats(DayOf(t), DayOf(u), k);
  }

  function FirstOfNextMonth(d: Date): (f: Date)
    requires 1 <= d.month <= 12
    ensures ValidDate(f)
  {
    if d.month == 12 then Date(d.year + 1, 1, 1) else Date(d.year, d.month + 1, 1)
  }

  /** The dates between d and the first of the next month all lie in the month of d. */
  lemma SameMonth(d: Date, e: Date)
    requires ValidDate(d) && ValidDate(e)
    requires DayNumber(d) <= DayNumber(e) < DayNumber(FirstOfNextMonth(d))
    ensures e.month == d.month
  {
    var f := FirstOfNextMonth(d);
    if e.year > d.year || (e.year == d.year && e.month > d.month) {
      if e.year != f.year || e.month != f.month {
        DayNumberOrders(f, e);
      }
    } else if e.year < d.year || e.month < d.month {
      DayNumberOrders(e, d);
    }
  }

  /** Every day from n up to the first of the next month lies in the month of n. */
  lemma SameMonthUntilFirst(n: int, first: int)
    requires first == DayNumber(FirstOfNextMonth(DateOf(n)))
    ensures n < first
    ensures forall k :: n <= k < first ==> DateOf(k).month == DateOf(n).month
  {
    DayNumberOrders(DateOf(n), FirstOfNextMonth(DateOf(n)));
    forall k | n <= k < first
      ensures DateOf(k).month == DateOf(n).month
    {
      SameMonth(DateOf(n), DateOf(k));
    }
  }

  /** Carrying month 13 over into January gives the first of the next month. */
  lemma NormalizedFirst(d: Date)
    requires 1 <= d.month <= 12
    ensures NormalizedMidnight(d.year, d.month + 1, 1) == Midnight(DayNumber(FirstOfNextMonth(d)))
  {
  }

  /** Adding one to the day of a date gives the next day, also at the end of a month or year. */
  lemma NormalizedTomorrow(d: Date)
    requires ValidDate(d)
    ensures NormalizedMidnight(d.year, d.month, d.day + 1) == Midnight(DayNumber(d) + 1)
  {
  }
}
