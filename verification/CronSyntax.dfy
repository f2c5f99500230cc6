/** The syntax of the parts of a cron field: exactly which texts are read as which range and step, and
    what the six usual forms list. */
module CronSyntax {
  import opened Options
  import opened CronText
  import opened CronPart

  // ---------- the grammar ----------

  /** The text is a machine integer in decimal, after any zeros and an optional sign. */
  predicate Number(text: string, v: int) { Atoi(text) == Some(v) }

  lemma NumberIff(text: string, v: int)
    ensures Number(text, v) <==> MIN_INT <= v <= MAX_INT && Writes(text, v)
  {
    AtoiIff(text, v);
  }

  /** Two numbers with a dash between them, the first dash of the text. */
  ghost predicate Between(text: string, lo: int, hi: int) {
    exists i :: 0 <= i < |text| && DashAt(text, i) && Number(text[..i], lo) && Number(text[i + 1..], hi)
  }

  predicate DashAt(text: string, i: int)
    requires 0 <= i < |text|
  {
    text[i] == '-' && '-' !in text[..i]
  }

  /** A star, a range within the bounds, or a single value, which is open above if a step follows. */
  ghost predicate RangeText(text: string, stepped: bool, lo: int, hi: int, minVal: int, maxVal: int) {
    || (text == "*" && lo == minVal && hi == maxVal)
    || (minVal <= lo <= hi <= maxVal && Between(text, lo, hi))
    || (minVal <= lo <= maxVal && hi == (if stepped then maxVal else lo) && '-' !in text && Number(text, lo))
  }

  /** A range alone, with step one, or a range, a slash and a positive step. */
  ghost predicate PartText(text: string, p: Part, minVal: int, maxVal: int) {
    || (p.step == 1 && RangeText(text, false, p.lo, p.hi, minVal, maxVal))
    || (0 < p.step <= MAX_INT && exists i :: 0 <= i < |text| && SteppedText(text, i, p, minVal, maxVal))
  }

  ghost predicate SteppedText(text: string, i: int, p: Part, minVal: int, maxVal: int)
    requires 0 <= i < |text|
  {
    text[i] == '/' && RangeText(text[..i], true, p.lo, p.hi, minVal, maxVal) && Number(text[i + 1..], p.step)
  }

  // ---------- reading follows the grammar ----------

  lemma NumberChars(s: string, c: char)
    requires Atoi(s).Some? && !IsDigit(c) && c != '+' && c != '-'
    ensures c !in s
  {
    var sign := s != "" && (s[0] == '+' || s[0] == '-');
    assert sign ==> s == [s[0]] + s[1..];
  }

  lemma DashIsFirst(text: string, i: int)
    requires 0 <= i < |text| && DashAt(text, i)
    ensures Find(text, '-') == i && '-' in text
  {
    FindIs(text, i, '-');
  }

  lemma BetweenIff(text: string, lo: int, hi: int, minVal: int, maxVal: int)
    requires SmallBounds(minVal, maxVal) && '-' in text
    ensures ParseRange(text, minVal, maxVal) == Some((lo, hi)) <==>
            minVal <= lo <= hi <= maxVal && Between(text, lo, hi)
  {
    var dash := Find(text, '-');
    if ParseRange(text, minVal, maxVal) == Some((lo, hi)) {
      assert DashAt(text, dash);
    }
    if Between(text, lo, hi) {
      var i :| 0 <= i < |text| && DashAt(text, i) && Number(text[..i], lo) && Number(text[i + 1..], hi);
      DashIsFirst(text, i);
    }
  }

  lemma BetweenHasDash(text: string, lo: int, hi: int)
    requires Between(text, lo, hi)
    ensures '-' in text
  {
    var i :| 0 <= i < |text| && DashAt(text, i) && Number(text[..i], lo) && Number(text[i + 1..], hi);
  }

  lemma RangeIff(text: string, stepped: bool, lo: int, hi: int, minVal: int, maxVal: int)
    requires SmallBounds(minVal, maxVal)
    ensures ReadRange(text, stepped, minVal, maxVal) == Some((lo, hi)) <==>
            RangeText(text, stepped, lo, hi, minVal, maxVal)
  {
    if text == "*" {
      assert text[0] in text && !IsDigit(text[0]);
    } else if '-' in text {
      BetweenIff(text, lo, hi, minVal, maxVal);
    } else if Between(text, lo, hi) {
      BetweenHasDash(text, lo, hi);
    }
    if text == "*" && Between(text, lo, hi) {
      BetweenHasDash(text, lo, hi);
    }
  }

  lemma BetweenHasNoSlash(text: string, minVal: int, maxVal: int)
    requires SmallBounds(minVal, maxVal) && '-' in text && ParseRange(text, minVal, maxVal).Some?
    ensures '/' !in text
  {
    var dash := Find(text, '-');
    NumberChars(text[..dash], '/');
    NumberChars(text[dash + 1..], '/');
    forall i | 0 <= i < |text| ensures text[i] != '/' {
      assert i < dash ==> text[i] == text[..dash][i];
      assert i > dash ==> text[i] == text[dash + 1..][i - dash - 1];
    }
  }

  lemma RangeHasNoSlash(text: string, stepped: bool, lo: int, hi: int, minVal: int, maxVal: int)
    requires SmallBounds(minVal, maxVal) && RangeText(text, stepped, lo, hi, minVal, maxVal)
    ensures '/' !in text
  {
    RangeIff(text, stepped, lo, hi, minVal, maxVal);
    if text == "*" {
    } else if '-' in text {
      BetweenHasNoSlash(text, minVal, maxVal);
    } else {
      NumberChars(text, '/');
    }
  }

  /** What is read is what is written. */
  lemma ReadIsWritten(text: string, minVal: int, maxVal: int)
    requires SmallBounds(minVal, maxVal) && ReadPart(text, minVal, maxVal).Some?
    ensures PartText(text, ReadPart(text, minVal, maxVal).value, minVal, maxVal)
  {
    var p, slash := ReadPart(text, minVal, maxVal).value, Find(text, '/');
    RangeIff(text[..slash], slash < |text|, p.lo, p.hi, minVal, maxVal);
    if slash < |text| {
      assert SteppedText(text, slash, p, minVal, maxVal);
    } else {
      assert text[..slash] == text;
    }
  }

  lemma PlainIsRead(text: string, p: Part, minVal: int, maxVal: int)
    requires SmallBounds(minVal, maxVal) && p.step == 1 && RangeText(text, false, p.lo, p.hi, minVal, maxVal)
    ensures ReadPart(text, minVal, maxVal) == Some(p)
  {
    RangeHasNoSlash(text, false, p.lo, p.hi, minVal, maxVal);
    RangeIff(text, false, p.lo, p.hi, minVal, maxVal);
    assert text[..|text|] == text;
    FindIs(text, |text|, '/');
  }

  lemma SteppedIsRead(text: string, i: nat, p: Part, minVal: int, maxVal: int)
    requires SmallBounds(minVal, maxVal) && i < |text| && 0 < p.step <= MAX_INT
    requires SteppedText(text, i, p, minVal, maxVal)
    ensures ReadPart(text, minVal, maxVal) == Some(p)
  {
    RangeHasNoSlash(text[..i], true, p.lo, p.hi, minVal, maxVal);
    RangeIff(text[..i], true, p.lo, p.hi, minVal, maxVal);
    FindIs(text, i, '/');
  }

  /** A part is read as a range and step exactly if the grammar says so; all else is refused. */
  lemma ReadPartIff(text: string, p: Part, minVal: int, maxVal: int)
    requires SmallBounds(minVal, maxVal)
    ensures ReadPart(text, minVal, maxVal) == Some(p) <==> PartText(text, p, minVal, maxVal)
  {
    if ReadPart(text, minVal, maxVal) == Some(p) {
      ReadIsWritten(text, minVal, maxVal);
    }
    if PartText(text, p, minVal, maxVal) {
      if p.step == 1 && RangeText(text, false, p.lo, p.hi, minVal, maxVal) {
        PlainIsRead(text, p, minVal, maxVal);
      } else {
        var i :| 0 <= i < |text| && SteppedText(text, i, p, minVal, maxVal);
        SteppedIsRead(text, i, p, minVal, maxVal);
      }
    }
  }

  // ---------- the usual forms ----------

  lemma DecimalIsRead(n: nat)
    requires n <= MAX_INT
    ensures Number(Decimal(n), n) && '/' !in Decimal(n) && '-' !in Decimal(n) && Decimal(n) != "*"
  {
    DecimalReads(n);
    PlainDigits(Decimal(n));
    NumberChars(Decimal(n), '/');
    NumberChars(Decimal(n), '*');
    assert '*' in "*";
  }

  lemma DashedIsBetween(left: string, right: string, a: int, b: int)
    requires Number(left, a) && Number(right, b) && '-' !in left
    ensures Between(left + "-" + right, a, b)
  {
    var text, i := left + "-" + right, |left|;
    assert text[..i] == left && text[i] == '-' && text[i + 1..] == right;
    assert DashAt(text, i);
  }

  lemma WithStep(range: string, step: int, lo: int, hi: int, minVal: int, maxVal: int)
    requires SmallBounds(minVal, maxVal) && 0 < step <= MAX_INT
    requires RangeText(range, true, lo, hi, minVal, maxVal)
    ensures ReadPart(range + "/" + Decimal(step), minVal, maxVal) == Some(Part(lo, hi, step))
  {
    var text, i := range + "/" + Decimal(step), |range|;
    assert text[..i] == range && text[i + 1..] == Decimal(step);
    DecimalIsRead(step);
    SteppedIsRead(text, i, Part(lo, hi, step), minVal, maxVal);
  }

  /** x is listed by the part exactly if it is wanted, and the part is not refused. */
  ghost predicate Lists(part: string, x: int, minVal: int, maxVal: int, wanted: bool)
    requires SmallBounds(minVal, maxVal)
  {
    PartValues(part, minVal, maxVal).Some? && (x in PartValues(part, minVal, maxVal).value <==> wanted)
  }

  lemma PartLists(part: string, p: Part, x: int, minVal: int, maxVal: int)
    requires SmallBounds(minVal, maxVal) && ReadPart(part, minVal, maxVal) == Some(p) && Exact(p)
    ensures Lists(part, x, minVal, maxVal, p.lo <= x <= p.hi && (x - p.lo) % p.step == 0)
  {
    ListingYields(p, x);
  }

  lemma StepOne(x: int)
    ensures x % 1 == 0
  {
  }

  lemma PlainLists(range: string, lo: int, hi: int, x: int, minVal: int, maxVal: int)
    requires SmallBounds(minVal, maxVal) && minVal <= lo <= hi <= maxVal
    requires RangeText(range, false, lo, hi, minVal, maxVal)
    ensures Lists(range, x, minVal, maxVal, lo <= x <= hi)
  {
    PlainIsRead(range, Part(lo, hi, 1), minVal, maxVal);
    PartLists(range, Part(lo, hi, 1), x, minVal, maxVal);
    StepOne(x - lo);
  }

  lemma SteppedLists(range: string, step: int, lo: int, hi: int, x: int, minVal: int, maxVal: int)
    requires SmallBounds(minVal, maxVal) && 0 < step && minVal <= lo <= hi <= maxVal && lo + step <= MAX_INT
    requires RangeText(range, true, lo, hi, minVal, maxVal)
    ensures Lists(range + "/" + Decimal(step), x, minVal, maxVal, lo <= x <= hi && (x - lo) % step == 0)
  {
    WithStep(range, step, lo, hi, minVal, maxVal);
    PartLists(range + "/" + Decimal(step), Part(lo, hi, step), x, minVal, maxVal);
  }

  /** "*" lists the bounds and what lies between; with "/s" every s-th value of that, from the lower. */
  lemma StarLists(step: int, x: int, minVal: int, maxVal: int)
    requires SmallBounds(minVal, maxVal) && 0 < step && minVal + step <= MAX_INT
    ensures Lists("*", x, minVal, maxVal, minVal <= x <= maxVal)
    ensures Lists("*" + "/" + Decimal(step), x, minVal, maxVal, minVal <= x <= maxVal && (x - minVal) % step == 0)
  {
    PlainLists("*", minVal, maxVal, x, minVal, maxVal);
    SteppedLists("*", step, minVal, maxVal, x, minVal, maxVal);
  }

  /** "a" lists a alone; "a/s" lists a, a + s and so on up to the upper bound. */
  lemma ValueLists(a: nat, step: int, x: int, minVal: int, maxVal: int)
    requires SmallBounds(minVal, maxVal) && minVal <= a <= maxVal && 0 < step && a + step <= MAX_INT
    ensures Lists(Decimal(a), x, minVal, maxVal, x == a)
    ensures Lists(Decimal(a) + "/" + Decimal(step), x, minVal, maxVal, a <= x <= maxVal && (x - a) % step == 0)
  {
    DecimalIsRead(a);
    PlainLists(Decimal(a), a, a, x, minVal, maxVal);
    SteppedLists(Decimal(a), step, a, maxVal, x, minVal, maxVal);
  }

  /** "a-b" lists a to b; "a-b/s" every s-th value of that, from a. */
  lemma RangeLists(a: nat, b: nat, step: int, x: int, minVal: int, maxVal: int)
    requires SmallBounds(minVal, maxVal) && minVal <= a <= b <= maxVal && 0 < step && a + step <= MAX_INT
    ensures Lists(Decimal(a) + "-" + Decimal(b), x, minVal, maxVal, a <= x <= b)
    ensures Lists(Decimal(a) + "-" + Decimal(b) + "/" + Decimal(step), x, minVal, maxVal,
                  a <= x <= b && (x - a) % step == 0)
  {
    DecimalIsRead(a);
    DecimalIsRead(b);
    DashedIsBetween(Decimal(a), Decimal(b), a, b);
    PlainLists(Decimal(a) + "-" + Decimal(b), a, b, x, minVal, maxVal);
    SteppedLists(Decimal(a) + "-" + Decimal(b), step, a, b, x, minVal, maxVal);
  }

  lemma NoSlash(text: string, minVal: int, maxVal: int)
    requires SmallBounds(minVal, maxVal) && '/' !in text
    ensures ReadPart(text, minVal, maxVal).Some? <==> ReadRange(text, false, minVal, maxVal).Some?
  {
    assert text[..|text|] == text;
    FindIs(text, |text|, '/');
  }

  /** A value outside the bounds is refused. */
  lemma ValueIsRefused(a: nat, minVal: int, maxVal: int)
    requires SmallBounds(minVal, maxVal) && a <= MAX_INT
    ensures PartValues(Decimal(a), minVal, maxVal).None? <==> !(minVal <= a <= maxVal)
  {
    DecimalIsRead(a);
    NoSlash(Decimal(a), minVal, maxVal);
  }

  lemma DashedRange(left: string, right: string, a: nat, b: nat, minVal: int, maxVal: int)
    requires SmallBounds(minVal, maxVal) && Atoi(left) == Some(a) && Atoi(right) == Some(b) && '-' !in left
    ensures ReadRange(left + "-" + right, false, minVal, maxVal).Some? <==> minVal <= a <= b <= maxVal
  {
    var range, i := left + "-" + right, |left|;
    assert range[..i] == left && range[i] == '-' && range[i + 1..] == right;
    FindIs(range, i, '-');
  }

  /** A range outside the bounds or the wrong way round is refused. */
  lemma RangeIsRefused(a: nat, b: nat, minVal: int, maxVal: int)
    requires SmallBounds(minVal, maxVal) && a <= MAX_INT && b <= MAX_INT
    ensures PartValues(Decimal(a) + "-" + Decimal(b), minVal, maxVal).None? <==> !(minVal <= a <= b <= maxVal)
  {
    DecimalIsRead(a);
    DecimalIsRead(b);
    DashedRange(Decimal(a), Decimal(b), a, b, minVal, maxVal);
    NoSlash(Decimal(a) + "-" + Decimal(b), minVal, maxVal);
  }
}
