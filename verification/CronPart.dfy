/** One part of a cron field: reading it, what it denotes, and what the listing loop makes of it.
    Machine integers are 64 bits wide and additions wrap around. */
module CronPart {
  import opened Options
  import opened CronText
  import Multiples

  function Wrap(x: int): (r: int)
    requires MIN_INT + MIN_INT <= x <= MAX_INT + MAX_INT
    ensures MIN_INT <= r <= MAX_INT
    ensures r == x || r == x + 0x1_0000_0000_0000_0000 || r == x - 0x1_0000_0000_0000_0000
  {
    if x > MAX_INT then x - 0x1_0000_0000_0000_0000
    else if x < MIN_INT then x + 0x1_0000_0000_0000_0000
    else x
  }

  // ---------- one part of a field ----------

  /** What one comma-separated part asks for: lo, lo + step, lo + 2 * step and so on up to hi. */
  datatype Part = Part(lo: int, hi: int, step: int)

  /** The values a part denotes. */
  predicate Denotes(p: Part, x: int)
    requires p.step > 0
  {
    p.lo <= x <= p.hi && (x - p.lo) % p.step == 0
  }

  function ParseStep(raw: string): (r: Option<int>)
    ensures r.Some? ==> 0 < r.value <= MAX_INT
  {
    var s := Atoi(raw);
    if s.None? || s.value <= 0 then None else s
  }

  function ParseRange(raw: string, minVal: int, maxVal: int): (r: Option<(int, int)>)
    requires '-' in raw
    ensures r.Some? ==> minVal <= r.value.0 <= r.value.1 <= maxVal
  {
    var dash := Find(raw, '-');
    var lo := Atoi(raw[..dash]);
    if lo.None? then None else
    var hi := Atoi(raw[dash + 1..]);
    if hi.None? then None else
    if lo.value < minVal || hi.value > maxVal || lo.value > hi.value then None
    else Some((lo.value, hi.value))
  }

  /** The range before the step: the whole of the bounds, a range, or one value, which stands for
      everything from it on when there is a step. */
  function ReadRange(range: string, hasStep: bool, minVal: int, maxVal: int): (r: Option<(int, int)>)
    requires minVal <= maxVal
    ensures r.Some? ==> minVal <= r.value.0 <= r.value.1 <= maxVal
  {
    if range == "*" then Some((minVal, maxVal))
    else if '-' in range then ParseRange(range, minVal, maxVal)
    else
      var val := Atoi(range);
      if val.None? || val.value < minVal || val.value > maxVal then None
      else Some((val.value, if hasStep then maxVal else val.value))
  }

  /** The range and step a part is read as: everything parsePart does before it lists values. */
  function ReadPart(part: string, minVal: int, maxVal: int): (r: Option<Part>)
    requires minVal <= maxVal
    ensures r.Some? ==> minVal <= r.value.lo <= r.value.hi <= maxVal && 0 < r.value.step <= MAX_INT
  {
    var slash := Find(part, '/');
    var hasStep := slash < |part|;
    var step := if hasStep then ParseStep(part[slash + 1..]) else Some(1);
    if step.None? then None else
    var bounds := ReadRange(part[..slash], hasStep, minVal, maxVal);
    if bounds.None? then None else Some(Part(bounds.value.0, bounds.value.1, step.value))
  }

  // ---------- listing the values of a part ----------

  /** Bounds such as those of the five fields, far below the largest machine integer. */
  predicate SmallBounds(minVal: int, maxVal: int) { 0 <= minVal <= maxVal < 0x1000_0000_0000_0000 }

  predicate Listable(p: Part) { SmallBounds(p.lo, p.hi) && 0 < p.step <= MAX_INT }

  /** The first addition of the listing loop does not wrap around. */
  predicate Exact(p: Part) { p.lo + p.step <= MAX_INT }

  /** The values the listing loop can stand at.  When the step is so large that an addition may
      wrap around, values in and below the range alternate with far negative ones. */
  predicate Reaches(v: int, hi: int, step: int) {
    && 0 <= hi < 0x1000_0000_0000_0000 && 0 < step <= MAX_INT
    && var short := MAX_INT + 1 - step;
       if short > hi then 0 <= v <= MAX_INT
       else -short <= v <= MAX_INT || MIN_INT <= v <= MIN_INT + hi - short
  }

  function Rank(v: int, hi: int, step: int): (n: nat)
    requires Reaches(v, hi, step)
  {
    var short := MAX_INT + 1 - step;
    if v > hi then 0
    else if short > hi then hi - v + 1
    else if v >= short then 2 * v + 3
    else if v >= -short then 1
    else 2 * (v + MAX_INT + 1 + short) + 2
  }

  /** The listing loop from v on. */
  function Listing(v: int, hi: int, step: int): seq<int>
    requires Reaches(v, hi, step)
    decreases Rank(v, hi, step)
  {
    if v > hi then [] else [v] + Listing(Wrap(v + step), hi, step)
  }

  lemma {:induction false} ListingClimbs(v: int, hi: int, step: int, x: int)
    requires 0 <= v && Reaches(v, hi, step) && hi + step <= MAX_INT
    ensures x in Listing(v, hi, step) <==> Denotes(Part(v, hi, step), x)
    decreases Rank(v, hi, step)
  {
    if v <= hi {
      ListingClimbs(v + step, hi, step, x);
      DenotesStep(v, hi, step, x);
    }
  }

  /** A part denotes its first value and what is left of it from the next value on. */
  lemma DenotesStep(v: int, hi: int, step: int, x: int)
    requires v <= hi && step > 0
    ensures Denotes(Part(v, hi, step), x) <==> x == v || Denotes(Part(v + step, hi, step), x)
  {
    Multiples.MultiplesCarry(x - v, -1, step);
    var d := x - v;
    assert d % step == 0 && d > 0 ==> d / step >= 1;
  }

  /** Without wrap-around a part lists exactly the values it denotes. */
  lemma ExactListing(p: Part, x: int)
    requires Listable(p) && Exact(p)
    ensures x in Listing(p.lo, p.hi, p.step) <==> Denotes(p, x)
  {
    if p.hi + p.step <= MAX_INT {
      ListingClimbs(p.lo, p.hi, p.step, x);
    } else {
      assert Listing(p.lo + p.step, p.hi, p.step) == [];
      DenotesStep(p.lo, p.hi, p.step, x);
    }
  }

  // ---------- listings that wrap around ----------

  /** How far a step falls short of half the machine range: adding it twice, with one wrap-around,
      goes down by twice this much. */
  function Short(step: int): int { MAX_INT + 1 - step }

  /** Counting down from v in steps of twice short as long as the next value is not below -short, and
      after each of these values but the last a far negative one. */
  predicate Spread(v: int, short: int, x: int)
    requires short > 0 && -short <= v
    decreases v + short
  {
    if v < short then x == v
    else x == v || x == v - short - MAX_INT - 1 || Spread(v - 2 * short, short, x)
  }

  lemma StepDown(v: int, x: int, m: int)
    requires m > 0
    ensures x <= v && (v - x) % m == 0 <==> x == v || (x <= v - m && (v - m - x) % m == 0)
  {
    var d := v - x;
    Multiples.MultiplesCarry(d, -1, m);
    Multiples.QuotientIsUnique(0, m, 0, 0);
    if 0 <= d < m {
      Multiples.QuotientIsUnique(d, m, 0, d);
    }
  }

  /** The values of a spread that are not negative: those that lie below v by a multiple of twice short. */
  lemma {:induction false} SpreadAbove(v: int, short: int, x: int)
    requires short > 0 && -short <= v <= MAX_INT && x >= 0
    ensures Spread(v, short, x) <==> x <= v && (v - x) % (2 * short) == 0
    decreases v + short
  {
    StepDown(v, x, 2 * short);
    if v >= short {
      SpreadAbove(v - 2 * short, short, x);
    }
  }

  lemma ReachesOn(v: int, hi: int, step: int)
    requires Reaches(v, hi, step) && v <= hi
    ensures Reaches(Wrap(v + step), hi, step) && Rank(Wrap(v + step), hi, step) < Rank(v, hi, step)
  {
  }

  lemma WrapsTwice(v: int, step: int)
    requires 0 < Short(step) <= v < 0x1000_0000_0000_0000 && 0 < step <= MAX_INT
    ensures Wrap(v + step) == v - Short(step) - MAX_INT - 1
    ensures Wrap(v - Short(step) - MAX_INT - 1 + step) == v - 2 * Short(step)
  {
  }

  /** Two additions, the first of which wraps around. */
  lemma TwoStepsDown(v: int, hi: int, step: int)
    requires Reaches(v, hi, step) && 0 < Short(step) <= v <= hi
    ensures Reaches(v - 2 * Short(step), hi, step)
    ensures Listing(v, hi, step) == [v, v - Short(step) - MAX_INT - 1] + Listing(v - 2 * Short(step), hi, step)
  {
    var w, z := v - Short(step) - MAX_INT - 1, v - 2 * Short(step);
    WrapsTwice(v, step);
    ReachesOn(v, hi, step);
    ReachesOn(w, hi, step);
    assert [v] + ([w] + Listing(z, hi, step)) == [v, w] + Listing(z, hi, step);
  }

  lemma LastStep(v: int, hi: int, step: int)
    requires Reaches(v, hi, step) && Short(step) <= hi && -Short(step) <= v < Short(step)
    ensures Listing(v, hi, step) == [v]
  {
    assert Listing(v + step, hi, step) == [];
  }

  lemma InPair(x: int, a: int, b: int, rest: seq<int>)
    ensures x in [a, b] + rest <==> x == a || x == b || x in rest
  {
  }

  /** A listing whose additions wrap around, in full. */
  lemma {:induction false} WrappedListing(v: int, hi: int, step: int, x: int)
    requires Reaches(v, hi, step) && Short(step) <= hi && -Short(step) <= v <= hi
    ensures x in Listing(v, hi, step) <==> Spread(v, Short(step), x)
    decreases v + Short(step)
  {
    var short := Short(step);
    if v < short {
      LastStep(v, hi, step);
    } else {
      TwoStepsDown(v, hi, step);
      InPair(x, v, v - short - MAX_INT - 1, Listing(v - 2 * short, hi, step));
      WrappedListing(v - 2 * short, hi, step, x);
    }
  }

  /** The values a part really lists: what it denotes, or a spread when its first addition wraps. */
  predicate Yields(p: Part, x: int)
    requires Listable(p)
  {
    if Exact(p) then Denotes(p, x) else Spread(p.lo, Short(p.step), x)
  }

  lemma ListingYields(p: Part, x: int)
    requires Listable(p) && p.lo <= p.hi
    ensures x in Listing(p.lo, p.hi, p.step) <==> Yields(p, x)
  {
    if Exact(p) {
      ExactListing(p, x);
    } else {
      WrappedListing(p.lo, p.hi, p.step, x);
    }
  }

  /** A part yields its first value; if it wraps around it denotes no other, and yields a negative one. */
  lemma FirstYielded(p: Part)
    requires Listable(p) && p.lo <= p.hi
    ensures Yields(p, p.lo) && Denotes(p, p.lo)
    ensures !Exact(p) ==> Yields(p, p.lo + p.step - 0x1_0000_0000_0000_0000)
    ensures !Exact(p) ==> forall x :: Denotes(p, x) ==> x == p.lo
  {
    Multiples.QuotientIsUnique(0, p.step, 0, 0);
    forall x | Denotes(p, x) && x != p.lo ensures Exact(p) {
      DenotesStep(p.lo, p.hi, p.step, x);
    }
  }

  /** A part lists a wrong value at or above a bound if and only if it wraps around and its start is
      at least twice its shortfall above the bound. */
  lemma WrongValueIff(p: Part, minVal: int)
    requires Listable(p) && 0 <= minVal <= p.lo <= p.hi
    ensures (exists x :: x >= minVal && Yields(p, x) && !Denotes(p, x)) <==>
            !Exact(p) && p.lo - 2 * Short(p.step) >= minVal
  {
    FirstYielded(p);
    if !Exact(p) {
      var short := Short(p.step);
      forall x | x >= minVal && Yields(p, x) && x != p.lo ensures x <= p.lo - 2 * short {
        SpreadAbove(p.lo, short, x);
        StepDown(p.lo, x, 2 * short);
      }
      if p.lo - 2 * short >= minVal {
        FirstOfSpread(p.lo - 2 * short, short);
        assert Yields(p, p.lo - 2 * short);
      }
    }
  }

  lemma FirstOfSpread(v: int, short: int)
    requires short > 0 && -short <= v
    ensures Spread(v, short, v)
  {
  }

  lemma Regroup(xs: seq<int>, x: int, ys: seq<int>)
    ensures xs + ([x] + ys) == xs + [x] + ys
  {
  }

  /** The loop that lists a part. */
  method List(p: Part) returns (vals: seq<int>)
    requires Listable(p)
    ensures vals == Listing(p.lo, p.hi, p.step)
  {
    var v := p.lo;
    vals := [];
    while v <= p.hi
      invariant Reaches(v, p.hi, p.step)
      invariant vals + Listing(v, p.hi, p.step) == Listing(p.lo, p.hi, p.step)
      decreases Rank(v, p.hi, p.step)
    {
      ReachesOn(v, p.hi, p.step);
      Regroup(vals, v, Listing(Wrap(v + p.step), p.hi, p.step));
      vals := vals + [v];
      v := Wrap(v + p.step);
    }
  }

  /** The list of a part, or nothing if it is refused. */
  function PartValues(part: string, minVal: int, maxVal: int): Option<seq<int>>
    requires SmallBounds(minVal, maxVal)
  {
    var p := ReadPart(part, minVal, maxVal);
    if p.None? then None else Some(Listing(p.value.lo, p.value.hi, p.value.step))
  }

  /** A part is refused exactly if it cannot be read; otherwise the list has exactly what it yields. */
  method ParsePart(part: string, minVal: int, maxVal: int) returns (r: Option<seq<int>>)
    requires SmallBounds(minVal, maxVal)
    ensures r == PartValues(part, minVal, maxVal)
    ensures r.None? <==> ReadPart(part, minVal, maxVal).None?
    ensures r.Some? ==> forall x :: x in r.value <==> Yields(ReadPart(part, minVal, maxVal).value, x)
  {
    var read := ReadPart(part, minVal, maxVal);
    if read.None? {
      return None;
    }
    var vals := List(read.value);
    forall x ensures x in vals <==> Yields(read.value, x) {
      ListingYields(read.value, x);
    }
    return Some(vals);
  }
}
