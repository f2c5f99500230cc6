/** Cron expressions: five fields, and the instants their schedule matches. */
module CronExpression {
  import opened Options
  import opened Calendar
  import opened CronPart
  import opened CronField
  import opened CronSchedule
  import opened CronText
  import opened Text
  import Multiples

  ghost predicate FieldsReadable(fs: seq<string>)
  {
    && |fs| == 5
    && FieldReadable(fs[0], 0, 59) && FieldReadable(fs[1], 0, 23) && FieldReadable(fs[2], 1, 31)
    && FieldReadable(fs[3], 1, 12) && FieldReadable(fs[4], 0, 6)
  }

  // ---------- five sets ----------

  /** The minutes, hours, days, months and weekdays of an expression. */
  datatype Sets = Sets(minutes: iset<int>, hours: iset<int>, doms: iset<int>, months: iset<int>, dows: iset<int>)

  ghost function HeldSet(field: string, lo: int, hi: int): iset<int>
    requires SmallBounds(lo, hi)
  {
    iset x | Holds(field, x, lo, hi)
  }

  ghost function AskedSet(field: string, lo: int, hi: int): iset<int>
    requires SmallBounds(lo, hi)
  {
    iset x | Asks(field, x, lo, hi)
  }

  /** What the fields hold, and what they ask for. */
  ghost function Held(fs: seq<string>): Sets
    requires |fs| == 5
  {
    Sets(HeldSet(fs[0], 0, 59), HeldSet(fs[1], 0, 23), HeldSet(fs[2], 1, 31),
         HeldSet(fs[3], 1, 12), HeldSet(fs[4], 0, 6))
  }

  ghost function Asked(fs: seq<string>): Sets
    requires |fs| == 5
  {
    Sets(AskedSet(fs[0], 0, 59), AskedSet(fs[1], 0, 23), AskedSet(fs[2], 1, 31),
         AskedSet(fs[3], 1, 12), AskedSet(fs[4], 0, 6))
  }

  /** The day with the given number, and an instant, fall in the sets. */
  ghost predicate OnDay(z: Sets, n: int) {
    var d := DateOf(n);
    d.day in z.doms && d.month in z.months && (n + 1) % 7 in z.dows
  }

  ghost predicate AtInstant(z: Sets, t: int) {
    Minute(t) in z.minutes && Hour(t) in z.hours && OnDay(z, DayOf(t))
  }

  ghost predicate Within(z: iset<int>, y: iset<int>, lo: int, hi: int) {
    forall x :: lo <= x <= hi && x in z ==> x in y
  }

  lemma InstantOf(day: int, hour: int, minute: int) returns (t: int)
    requires 0 <= hour < 24 && 0 <= minute < 60
    ensures DayOf(t) == day && Hour(t) == hour && Minute(t) == minute
  {
    t := 1440 * day + (60 * hour + minute);
    ClockReads(t, day, hour, minute);
    Multiples.QuotientIsUnique(t, 60, 24 * day + hour, minute);
  }

  /** Every instant of z is one of y. */
  ghost predicate Covers(z: Sets, y: Sets) { forall t :: AtInstant(z, t) ==> AtInstant(y, t) }

  lemma CoveredParts(z: Sets, y: Sets, n: int, hour: int, minute: int)
    requires Covers(z, y) && OnDay(z, n) && 0 <= hour < 24 && 0 <= minute < 60 && hour in z.hours && minute in z.minutes
    ensures OnDay(y, n) && hour in y.hours && minute in y.minutes
  {
    var t := InstantOf(n, hour, minute);
    assert AtInstant(z, t);
  }

  /** Clock and date are independent: instants of z are instants of y exactly if z has no day at all, or
      its hours, its minutes and its days are those of y. */
  lemma CoversIff(z: Sets, y: Sets, hour: int, minute: int)
    requires 0 <= hour < 24 && 0 <= minute < 60 && hour in z.hours && minute in z.minutes
    ensures Covers(z, y) <==>
              || (forall n :: !OnDay(z, n))
              || (Within(z.minutes, y.minutes, 0, 59) && Within(z.hours, y.hours, 0, 23)
                  && forall n :: OnDay(z, n) ==> OnDay(y, n))
  {
    if Covers(z, y) {
      if n :| OnDay(z, n) {
        forall x | 0 <= x <= 59 && x in z.minutes ensures x in y.minutes { CoveredParts(z, y, n, hour, x); }
        forall x | 0 <= x <= 23 && x in z.hours ensures x in y.hours { CoveredParts(z, y, n, x, minute); }
        forall m | OnDay(z, m) ensures OnDay(y, m) { CoveredParts(z, y, m, hour, minute); }
      }
    }
    if Within(z.minutes, y.minutes, 0, 59) && Within(z.hours, y.hours, 0, 23)
       && forall n :: OnDay(z, n) ==> OnDay(y, n) {
      forall t | AtInstant(z, t) ensures AtInstant(y, t) { PartsInRange(t); }
    }
  }

  // ---------- the schedule of an expression ----------

  /** The schedule has the lists of the sets. */
  ghost predicate ListsOf(s: Schedule, z: Sets) {
    && (forall x :: x in s.minutes <==> x in z.minutes) && (forall x :: x in s.hours <==> x in z.hours)
    && (forall x :: x in s.doms <==> x in z.doms) && (forall x :: x in s.months <==> x in z.months)
    && (forall x :: x in s.dows <==> x in z.dows)
  }

  lemma MatchesSets(s: Schedule, z: Sets, t: int)
    requires ListsOf(s, z)
    ensures Matches(s, t) <==> AtInstant(z, t)
  {
  }

  lemma AskedIsInHeld(field: string, lo: int, hi: int)
    requires SmallBounds(lo, hi)
    ensures AskedSet(field, lo, hi) <= HeldSet(field, lo, hi)
  {
    forall x | x in AskedSet(field, lo, hi) ensures x in HeldSet(field, lo, hi) { AskedIsHeld(field, x, lo, hi); }
  }

  lemma SubsetsAreCovered(z: Sets, y: Sets)
    requires z.minutes <= y.minutes && z.hours <= y.hours
    requires z.doms <= y.doms && z.months <= y.months && z.dows <= y.dows
    ensures Covers(z, y)
  {
  }

  lemma AskedIsCovered(fs: seq<string>)
    requires |fs| == 5
    ensures Covers(Asked(fs), Held(fs))
  {
    AskedIsInHeld(fs[0], 0, 59);
    AskedIsInHeld(fs[1], 0, 23);
    AskedIsInHeld(fs[2], 1, 31);
    AskedIsInHeld(fs[3], 1, 12);
    AskedIsInHeld(fs[4], 0, 6);
    SubsetsAreCovered(Asked(fs), Held(fs));
  }

  lemma WithinIsAsAsked(field: string, lo: int, hi: int)
    requires SmallBounds(lo, hi)
    ensures Within(HeldSet(field, lo, hi), AskedSet(field, lo, hi), lo, hi) <==> HoldsAsAsked(field, lo, hi)
  {
    var held, asked := HeldSet(field, lo, hi), AskedSet(field, lo, hi);
    if Within(held, asked, lo, hi) {
      forall x | lo <= x <= hi && Holds(field, x, lo, hi) ensures Asks(field, x, lo, hi) {
        assert x in held && x in asked;
      }
    }
    if HoldsAsAsked(field, lo, hi) {
      forall x | lo <= x <= hi && x in held ensures x in asked {
        assert Holds(field, x, lo, hi) && Asks(field, x, lo, hi);
      }
    }
  }

  /** A field is faithful exactly if, within its bounds, it holds nothing it does not ask for. */
  lemma FaithfulIsWithin(field: string, lo: int, hi: int)
    requires SmallBounds(lo, hi) && FieldReadable(field, lo, hi)
    ensures Within(HeldSet(field, lo, hi), AskedSet(field, lo, hi), lo, hi) <==> FieldFaithful(field, lo, hi)
  {
    WithinIsAsAsked(field, lo, hi);
    FieldFaithfulIff(field, lo, hi);
  }

  /** When the schedule of an accepted expression matches nothing but what its fields ask for: its date
      fields hold no day at all, or its minute and hour fields are faithful and its date fields ask for
      every day they hold. */
  ghost predicate ExactFields(fs: seq<string>)
    requires |fs| == 5
  {
    || (forall n :: !OnDay(Held(fs), n))
    || (FieldFaithful(fs[0], 0, 59) && FieldFaithful(fs[1], 0, 23)
        && forall n :: OnDay(Held(fs), n) ==> OnDay(Asked(fs), n))
  }

  lemma HeldIsCoveredIff(fs: seq<string>)
    requires FieldsReadable(fs)
    ensures Covers(Held(fs), Asked(fs)) <==> ExactFields(fs)
  {
    var minute := HoldsSome(fs[0], 0, 59);
    var hour := HoldsSome(fs[1], 0, 23);
    CoversIff(Held(fs), Asked(fs), hour, minute);
    FaithfulIsWithin(fs[0], 0, 59);
    FaithfulIsWithin(fs[1], 0, 23);
  }

  /** The five lists, or nothing as soon as a field is refused. */
  method ParseFields(fs: seq<string>) returns (r: Option<Schedule>)
    requires |fs| == 5
    ensures r.Some? <==> FieldsReadable(fs)
    ensures r.Some? ==> ListsOf(r.value, Held(fs))
  {
    var minutes := ParseField(fs[0], 0, 59);
    if minutes.None? { return None; }
    var hours := ParseField(fs[1], 0, 23);
    if hours.None? { return None; }
    var doms := ParseField(fs[2], 1, 31);
    if doms.None? { return None; }
    var months := ParseField(fs[3], 1, 12);
    if months.None? { return None; }
    var dows := ParseField(fs[4], 0, 6);
    if dows.None? { return None; }
    return Some(Schedule(minutes.value, hours.value, doms.value, months.value, dows.value));
  }

  /** An expression is accepted exactly when it has five readable fields.  Its schedule matches exactly
      the instants the fields hold; it misses none they ask for, and adds none if and only if the
      fields are exact. */
  method Parse(expr: string) returns (r: Option<Schedule>)
    ensures r.Some? <==> FieldsReadable(Fields(expr, ""))
    ensures r.Some? ==> forall t :: Matches(r.value, t) <==> AtInstant(Held(Fields(expr, "")), t)
    ensures r.Some? ==> forall t :: AtInstant(Asked(Fields(expr, "")), t) ==> Matches(r.value, t)
    ensures r.Some? ==>
      ((forall t :: Matches(r.value, t) ==> AtInstant(Asked(Fields(expr, "")), t)) <==> ExactFields(Fields(expr, "")))
  {
    FieldsOfTrim(expr);
    var trimmed := Trim(expr);
    if trimmed == "" {
      return None;
    }
    var fs := Fields(trimmed, "");
    if |fs| != 5 {
      return None;
    }
    r := ParseFields(fs);
    if r.Some? {
      forall t ensures Matches(r.value, t) <==> AtInstant(Held(fs), t) { MatchesSets(r.value, Held(fs), t); }
      AskedIsCovered(fs);
      HeldIsCoveredIff(fs);
    }
  }
}
