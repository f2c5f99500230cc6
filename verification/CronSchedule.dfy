/** The search for the next run of a parsed cron schedule. */
module CronSchedule {
  import opened Options
  import opened Calendar
  import opened Multiples

  const NANOS_PER_MINUTE := 60_000_000_000
  const MAX_ITERATIONS := 366 * 24 * 60

  datatype Schedule = Schedule(minutes: seq<int>, hours: seq<int>, doms: seq<int>, months: seq<int>, dows: seq<int>)

  datatype NextResult = At(time: int) | ErrNoMatch | ErrNilSchedule

  /** Day-of-month and day-of-week must both hold. */
  predicate MatchesDay(s: Schedule, t: int) {
    MonthOf(t) in s.months && DayOfMonth(t) in s.doms && Weekday(t) in s.dows
  }

  predicate Matches(s: Schedule, t: int) {
    MatchesDay(s, t) && Hour(t) in s.hours && Minute(t) in s.minutes
  }

  /** No whole minute from lo up to, not including, hi matches. */
  ghost predicate Silent(s: Schedule, lo: int, hi: int) {
    forall u :: lo <= u < hi ==> !Matches(s, u)
  }

  /** The whole minute t comes strictly after the instant `from`, given in nanoseconds. */
  predicate After(from: int, t: int) {
    from < t * NANOS_PER_MINUTE
  }

  /** t is the least matching whole minute after `from`. */
  ghost predicate IsNextRun(s: Schedule, from: int, t: int) {
    && After(from, t)
    && Matches(s, t)
    && forall u :: After(from, u) && u < t ==> !Matches(s, u)
  }

  // ---------- what each jump skips ----------

  /** A move from candidate c that skips no match, crosses into another day only at midnight, and
      leaves a day that does not match altogether. */
  ghost predicate Hop(s: Schedule, c: int, next: int) {
    && c < next
    && Silent(s, c, next)
    && (DayOf(next) == DayOf(c) || next % 1440 == 0)
    && (!MatchesDay(s, c) ==> DayOf(c) < DayOf(next))
  }

  lemma DaysWithoutMonth(s: Schedule, c: int, first: int)
    requires DayOf(c) < first && forall n :: DayOf(c) <= n < first ==> DateOf(n).month !in s.months
    ensures Hop(s, c, Midnight(first))
  {
    forall u | c <= u < Midnight(first)
      ensures !Matches(s, u)
    {
      assert DayOf(c) <= DayOf(u) < first;
    }
  }

  /** The first of the next month, as the jump computes it. */
  lemma MonthEnds(n: int, next: int) returns (first: int)
    requires var d := DateOf(n); next == NormalizedMidnight(d.year, d.month + 1, 1)
    ensures next == Midnight(first) && n < first
    ensures forall k :: n <= k < first ==> DateOf(k).month == DateOf(n).month
  {
    first := DayNumber(FirstOfNextMonth(DateOf(n)));
    NormalizedFirst(DateOf(n));
    SameMonthUntilFirst(n, first);
  }

  lemma MonthJump(s: Schedule, c: int, next: int)
    requires MonthOf(c) !in s.months
    requires var d := DateOf(DayOf(c)); next == NormalizedMidnight(d.year, d.month + 1, 1)
    ensures Hop(s, c, next)
  {
    var first := MonthEnds(DayOf(c), next);
    DaysWithoutMonth(s, c, first);
  }

  lemma DayJump(s: Schedule, c: int, next: int)
    requires !MatchesDay(s, c)
    requires var d := DateOf(DayOf(c)); next == NormalizedMidnight(d.year, d.month, d.day + 1)
    ensures Hop(s, c, next)
  {
    NormalizedTomorrow(DateOf(DayOf(c)));
    assert next == Midnight(DayOf(c) + 1);
    forall u | c <= u < next
      ensures !Matches(s, u)
    {
      assert DayOf(u) == DayOf(c);
    }
  }

  lemma HourJump(s: Schedule, c: int, next: int)
    requires MatchesDay(s, c) && Hour(c) !in s.hours
    requires next == c + 60 - (c + 60) % 60
    ensures Hop(s, c, next)
  {
    HourEnds(c, next);
    HourLasts(c, next);
    forall u | c <= u < next
      ensures !Matches(s, u)
    {
      assert Hour(u) == Hour(c);
    }
  }

  lemma SilentMinute(s: Schedule, c: int)
    requires Minute(c) !in s.minutes
    ensures Silent(s, c, c + 1)
  {
    forall u | c <= u < c + 1
      ensures !Matches(s, u)
    {
      assert u == c;
    }
  }

  lemma MinuteJump(s: Schedule, c: int)
    requires MatchesDay(s, c) && Minute(c) !in s.minutes
    ensures Hop(s, c, c + 1)
  {
    MinuteBoundary(c);
    SilentMinute(s, c);
  }

  /** The day, hour and minute of an instant. */
  lemma Clock(t: int) returns (day: int, hour: int, minute: int)
    ensures t == 1440 * day + (60 * hour + minute) && 0 <= hour < 24 && 0 <= minute < 60
  {
    day := t / 1440;
    Euclid(t, 1440);
    hour, minute := t % 1440 / 60, t % 1440 % 60;
    Euclid(t % 1440, 60);
  }

  lemma ClockReads(t: int, day: int, hour: int, minute: int)
    requires t == 1440 * day + (60 * hour + minute) && 0 <= hour < 24 && 0 <= minute < 60
    ensures DayOf(t) == day && Hour(t) == hour && t % 1440 == 60 * hour + minute
  {
    QuotientIsUnique(t, 1440, day, 60 * hour + minute);
    QuotientIsUnique(60 * hour + minute, 60, hour, minute);
  }

  lemma NextFullHour(c: int, next: int, day: int, hour: int, minute: int)
    requires next == c + 60 - (c + 60) % 60
    requires c == 1440 * day + (60 * hour + minute) && 0 <= hour < 24 && 0 <= minute < 60
    ensures next == 1440 * day + 60 * (hour + 1)
  {
    QuotientIsUnique(c + 60, 60, 24 * day + hour + 1, minute);
  }

  /** The next full hour lies on the same day or is midnight. */
  lemma HourEnds(c: int, next: int)
    requires next == c + 60 - (c + 60) % 60
    ensures c < next && (DayOf(next) == DayOf(c) || next % 1440 == 0)
  {
    var day, hour, minute := Clock(c);
    ClockReads(c, day, hour, minute);
    NextFullHour(c, next, day, hour, minute);
    if hour == 23 {
      QuotientIsUnique(next, 1440, day + 1, 0);
    } else {
      ClockReads(next, day, hour + 1, 0);
    }
  }

  lemma HourLasts(c: int, next: int)
    requires next == c + 60 - (c + 60) % 60
    ensures forall u :: c <= u < next ==> Hour(u) == Hour(c)
  {
    var day, hour, minute := Clock(c);
    ClockReads(c, day, hour, minute);
    NextFullHour(c, next, day, hour, minute);
    forall u | c <= u < next
      ensures Hour(u) == Hour(c)
    {
      ClockReads(u, day, hour, u - 1440 * day - 60 * hour);
    }
  }

  lemma MinuteBoundary(c: int)
    ensures DayOf(c + 1) == DayOf(c) || (c + 1) % 1440 == 0
  {
    Euclid(c, 1440);
    if c % 1440 == 1439 {
      QuotientIsUnique(c + 1, 1440, c / 1440 + 1, 0);
    } else {
      QuotientIsUnique(c + 1, 1440, c / 1440, c % 1440 + 1);
    }
  }

  // ---------- the iteration cap ----------

  /** An upper bound on the iterations from candidate c to the matching minute t: one for each day
      between them, and one for each minute of the first and the last of these days. */
  function Budget(c: int, t: int): int {
    if DayOf(c) == DayOf(t) then t - c
    else DayOf(t) - DayOf(c) + 1440 + (if c % 1440 == 0 then 0 else 1440 - c % 1440)
  }

  lemma BudgetDrops(c: int, next: int, t: int)
    requires c < next <= t
    requires DayOf(next) == DayOf(c) || next % 1440 == 0
    requires c % 1440 == 0 && DayOf(c) < DayOf(t) ==> DayOf(c) < DayOf(next)
    ensures 0 <= Budget(next, t) < Budget(c, t)
  {
  }

  lemma SameDay(s: Schedule, a: int, b: int)
    requires DayOf(a) == DayOf(b)
    ensures MatchesDay(s, a) == MatchesDay(s, b)
  {
  }

  lemma SameClock(t: int, days: int) returns (u: int)
    ensures DayOf(u) == DayOf(t) + days && Hour(u) == Hour(t) && Minute(u) == Minute(t)
  {
    u := t + 1440 * days;
    WholeDaysLater(t, u, days);
  }

  /** A whole day whose date matches holds a matching minute, if there is one at all. */
  lemma DayHasRun(s: Schedule, c: int, t: int)
    requires c % 1440 == 0 && DayOf(c) < DayOf(t) && Matches(s, t) && Silent(s, c, t)
    ensures !MatchesDay(s, c)
  {
    var u := SameClock(t, DayOf(c) - DayOf(t));
    SameDay(s, c, u);
    assert c <= u < t;
    assert !Matches(s, u);
  }

  /** A hop stops at or before the next matching minute and uses up some of the budget. */
  lemma HopCost(s: Schedule, c: int, next: int, t: int)
    requires Hop(s, c, next) && c <= t && Matches(s, t) && Silent(s, c, t)
    ensures next <= t && Silent(s, next, t) && 0 <= Budget(next, t) < Budget(c, t)
  {
    if c % 1440 == 0 && DayOf(c) < DayOf(t) {
      DayHasRun(s, c, t);
    }
    assert next <= t;
    BudgetDrops(c, next, t);
  }

  lemma BudgetFits(c: int, t: int)
    requires c <= t < c + 1440 * DAYS_PER_CYCLE
    ensures 0 <= Budget(c, t) < MAX_ITERATIONS
  {
  }

  lemma {:induction false} Least(p: int -> bool, lo: int, hi: int) returns (t: int)
    requires lo <= hi && p(hi)
    ensures lo <= t <= hi && p(t) && forall u :: lo <= u < t ==> !p(u)
    decreases hi - lo
  {
    if p(lo) {
      t := lo;
    } else {
      t := Least(p, lo + 1, hi);
    }
  }

  lemma LeastMatch(s: Schedule, lo: int, hi: int) returns (t: int)
    requires lo <= hi && Matches(s, hi)
    ensures lo <= t <= hi && Matches(s, t) && Silent(s, lo, t)
  {
    var p := (u: int) => Matches(s, u);
    t := Least(p, lo, hi);
    assert forall u :: Matches(s, u) == p(u);
  }

  /** A schedule that ever matches does so within one 146,097-day cycle of any instant. */
  lemma MatchWithinCycle(s: Schedule, some: int, lo: int) returns (t: int)
    requires Matches(s, some)
    ensures lo <= t < lo + 1440 * DAYS_PER_CYCLE && Matches(s, t) && Silent(s, lo, t)
  {
    var hi := InstantsRepeat(some, -((some - lo) / (1440 * DAYS_PER_CYCLE)));
    t := LeastMatch(s, lo, hi);
  }

  // ---------- the search ----------

  lemma FoundIsNext(s: Schedule, from: int, start: int, t: int)
    requires start == (from + NANOS_PER_MINUTE) / NANOS_PER_MINUTE
    requires start <= t && Matches(s, t) && Silent(s, start, t)
    ensures IsNextRun(s, from, t)
  {
    FirstMinuteAfter(from, start);
  }

  lemma FirstMinuteAfter(from: int, start: int)
    requires start == (from + NANOS_PER_MINUTE) / NANOS_PER_MINUTE
    ensures forall u :: After(from, u) <==> start <= u
  {
  }

  /** One iteration of the search: stop at a match, or jump over minutes that cannot match. */
  method Advance(s: Schedule, candidate: int) returns (found: bool, next: int)
    ensures found <==> Matches(s, candidate)
    ensures !found ==> Hop(s, candidate, next)
  {
    var d := DateOf(DayOf(candidate));
    found, next := false, candidate;
    if d.month !in s.months {
      next := NormalizedMidnight(d.year, d.month + 1, 1);
      MonthJump(s, candidate, next);
    } else if d.day !in s.doms || Weekday(candidate) !in s.dows {
      next := NormalizedMidnight(d.year, d.month, d.day + 1);
      DayJump(s, candidate, next);
    } else if Hour(candidate) !in s.hours {
      next := candidate + 60 - (candidate + 60) % 60;
      HourJump(s, candidate, next);
    } else if Minute(candidate) !in s.minutes {
      next := candidate + 1;
      MinuteJump(s, candidate);
    } else {
      found := true;
    }
  }

  /** The least matching minute after `from`.  The cap on iterations is never the reason for
      ErrNoMatch: it is returned exactly when no instant at all matches. */
  method Next(receiver: Option<Schedule>, from: int) returns (r: NextResult)
    ensures r == ErrNilSchedule <==> receiver.None?
    ensures r.At? ==> IsNextRun(receiver.value, from, r.time)
    ensures r == ErrNoMatch <==> receiver.Some? && forall t :: !Matches(receiver.value, t)
  {
    if receiver.None? {
      return ErrNilSchedule;
    }
    var s := receiver.value;
    var candidate := (from + NANOS_PER_MINUTE) / NANOS_PER_MINUTE;
    ghost var start, target := candidate, candidate;
    ghost var runs := exists t :: Matches(s, t);
    if runs {
      ghost var some :| Matches(s, some);
      target := MatchWithinCycle(s, some, start);
      BudgetFits(start, target);
    }
    var i := 0;
    while i < MAX_ITERATIONS
      invariant 0 <= i <= MAX_ITERATIONS
      invariant start <= candidate && Silent(s, start, candidate)
      invariant runs ==> candidate <= target && Silent(s, candidate, target) && Matches(s, target)
      invariant runs ==> 0 <= Budget(candidate, target) < MAX_ITERATIONS - i
    {
      var found, next := Advance(s, candidate);
      if found {
        FoundIsNext(s, from, start, candidate);
        return At(candidate);
      }
      if runs {
        HopCost(s, candidate, next, target);
      }
      candidate := next;
      i := i + 1;
    }
    return ErrNoMatch;
  }
}
