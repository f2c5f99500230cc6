/** A cron field: the union of its comma-separated parts, listed in increasing order. */
module CronField {
  import opened Options
  import opened CronPart
  import opened CronText

  ghost predicate Increasing(s: seq<int>) {
    forall i, j :: 0 <= i < j < |s| ==> s[i] < s[j]
  }

  /** s with x put in its place. */
  function Insert(x: int, s: seq<int>): (r: seq<int>)
    requires Increasing(s) && x !in s
    ensures Increasing(r) && forall y :: y in r <==> y == x || y in s
    ensures s != [] ==> r[0] == x || r[0] == s[0]
  {
    if s == [] || x < s[0] then [x] + s
    else
      var t := Insert(x, s[1..]);
      assert forall y :: y in s <==> y == s[0] || y in s[1..];
      assert forall i :: 0 <= i < |t| ==> t[i] in t;
      [s[0]] + t
  }

  function Sort(s: seq<int>): (r: seq<int>)
    requires forall i, j :: 0 <= i < j < |s| ==> s[i] != s[j]
    ensures Increasing(r) && forall y :: y in r <==> y in s
  {
    if s == [] then [] else
      assert forall y :: y in s <==> y == s[0] || y in s[1..];
      Insert(s[0], Sort(s[1..]))
  }

  method Deduplicate(vals: seq<int>) returns (r: seq<int>)
    ensures Increasing(r) && forall x :: x in r <==> x in vals
  {
    var seen: set<int>, result: seq<int> := {}, [];
    for i := 0 to |vals|
      invariant forall x :: x in result <==> x in seen
      invariant forall x :: x in seen <==> x in vals[..i]
      invariant forall j, k :: 0 <= j < k < |result| ==> result[j] != result[k]
    {
      if vals[i] !in seen {
        seen := seen + {vals[i]};
        result := result + [vals[i]];
      }
      assert vals[..i + 1] == vals[..i] + [vals[i]];
    }
    assert vals[..|vals|] == vals;
    r := Sort(result);
  }

  predicate Readable(part: string, minVal: int, maxVal: int)
    requires minVal <= maxVal
  {
    ReadPart(part, minVal, maxVal).Some?
  }

  predicate ExactPart(part: string, minVal: int, maxVal: int)
    requires minVal <= maxVal
  {
    Readable(part, minVal, maxVal) && Exact(ReadPart(part, minVal, maxVal).value)
  }

  predicate DenotedBy(x: int, part: string, minVal: int, maxVal: int)
    requires minVal <= maxVal
  {
    Readable(part, minVal, maxVal) && Denotes(ReadPart(part, minVal, maxVal).value, x)
  }

  predicate YieldedBy(x: int, part: string, minVal: int, maxVal: int)
    requires SmallBounds(minVal, maxVal)
  {
    Readable(part, minVal, maxVal) && Yields(ReadPart(part, minVal, maxVal).value, x)
  }

  ghost predicate AnyDenotes(x: int, parts: seq<string>, minVal: int, maxVal: int)
    requires minVal <= maxVal
  {
    exists i :: 0 <= i < |parts| && DenotedBy(x, parts[i], minVal, maxVal)
  }

  ghost predicate AnyYields(x: int, parts: seq<string>, minVal: int, maxVal: int)
    requires SmallBounds(minVal, maxVal)
  {
    exists i :: 0 <= i < |parts| && YieldedBy(x, parts[i], minVal, maxVal)
  }

  ghost predicate AllExact(parts: seq<string>, minVal: int, maxVal: int)
    requires minVal <= maxVal
  {
    forall i :: 0 <= i < |parts| ==> ExactPart(parts[i], minVal, maxVal)
  }

  ghost predicate AllReadable(parts: seq<string>, minVal: int, maxVal: int)
    requires minVal <= maxVal
  {
    forall i :: 0 <= i < |parts| ==> Readable(parts[i], minVal, maxVal)
  }

  /** No part that wraps around comes down, within the bounds, to a value that no part denotes. */
  ghost predicate AllFaithful(parts: seq<string>, minVal: int, maxVal: int)
    requires SmallBounds(minVal, maxVal)
  {
    forall i, x :: 0 <= i < |parts| && !ExactPart(parts[i], minVal, maxVal) && StrayValue(parts[i], x, minVal, maxVal)
      ==> AnyDenotes(x, parts, minVal, maxVal)
  }

  /** x lies below the start of the part, within the bounds, by a multiple of twice the shortfall. */
  predicate StrayValue(part: string, x: int, minVal: int, maxVal: int)
    requires SmallBounds(minVal, maxVal)
  {
    && Readable(part, minVal, maxVal)
    && var p := ReadPart(part, minVal, maxVal).value;
       minVal <= x < p.lo && p.step > 0 && Short(p.step) > 0 && (p.lo - x) % (2 * Short(p.step)) == 0
  }

  lemma DenotedWithin(x: int, part: string, minVal: int, maxVal: int)
    requires minVal <= maxVal
    ensures DenotedBy(x, part, minVal, maxVal) ==> minVal <= x <= maxVal
  {
  }

  lemma DenotedIsYielded(x: int, part: string, minVal: int, maxVal: int)
    requires SmallBounds(minVal, maxVal) && DenotedBy(x, part, minVal, maxVal)
    ensures YieldedBy(x, part, minVal, maxVal)
  {
    FirstYielded(ReadPart(part, minVal, maxVal).value);
  }

  /** Within the bounds a part yields what it denotes and its stray values. */
  lemma YieldedInBounds(x: int, part: string, minVal: int, maxVal: int)
    requires SmallBounds(minVal, maxVal) && Readable(part, minVal, maxVal) && minVal <= x <= maxVal
    ensures YieldedBy(x, part, minVal, maxVal) <==>
              DenotedBy(x, part, minVal, maxVal)
              || (!ExactPart(part, minVal, maxVal) && StrayValue(part, x, minVal, maxVal))
  {
    var p := ReadPart(part, minVal, maxVal).value;
    FirstYielded(p);
    if !Exact(p) {
      SpreadAbove(p.lo, Short(p.step), x);
    }
  }

  /** A part that wraps around yields a value that no part denotes: a negative one. */
  lemma WrappedIsWrong(parts: seq<string>, i: nat, minVal: int, maxVal: int) returns (x: int)
    requires SmallBounds(minVal, maxVal) && i < |parts|
    requires Readable(parts[i], minVal, maxVal) && !ExactPart(parts[i], minVal, maxVal)
    ensures x < 0 && AnyYields(x, parts, minVal, maxVal) && !AnyDenotes(x, parts, minVal, maxVal)
  {
    var p := ReadPart(parts[i], minVal, maxVal).value;
    FirstYielded(p);
    x := p.lo + p.step - 0x1_0000_0000_0000_0000;
    assert YieldedBy(x, parts[i], minVal, maxVal);
    forall k | 0 <= k < |parts| ensures !DenotedBy(x, parts[k], minVal, maxVal) {
      DenotedWithin(x, parts[k], minVal, maxVal);
    }
  }

  lemma AnyYieldsMore(x: int, parts: seq<string>, part: string, minVal: int, maxVal: int)
    requires SmallBounds(minVal, maxVal)
    ensures AnyYields(x, parts + [part], minVal, maxVal) <==>
              AnyYields(x, parts, minVal, maxVal) || YieldedBy(x, part, minVal, maxVal)
  {
    var all := parts + [part];
    assert all[|parts|] == part;
    assert forall i :: 0 <= i < |parts| ==> all[i] == parts[i];
  }

  // ---------- what a field asks for and what it lists ----------

  /** The field is one that is accepted: all its comma-separated parts are. */
  ghost predicate FieldReadable(field: string, minVal: int, maxVal: int)
    requires minVal <= maxVal
  {
    AllReadable(Split(field, ',', ""), minVal, maxVal)
  }

  ghost predicate FieldExact(field: string, minVal: int, maxVal: int)
    requires minVal <= maxVal
  {
    AllExact(Split(field, ',', ""), minVal, maxVal)
  }

  ghost predicate FieldFaithful(field: string, minVal: int, maxVal: int)
    requires SmallBounds(minVal, maxVal)
  {
    AllFaithful(Split(field, ',', ""), minVal, maxVal)
  }

  /** Some part of the field denotes x. */
  ghost predicate Asks(field: string, x: int, minVal: int, maxVal: int)
    requires minVal <= maxVal
  {
    AnyDenotes(x, Split(field, ',', ""), minVal, maxVal)
  }

  /** Some part of the field yields x. */
  ghost predicate Holds(field: string, x: int, minVal: int, maxVal: int)
    requires SmallBounds(minVal, maxVal)
  {
    AnyYields(x, Split(field, ',', ""), minVal, maxVal)
  }

  /** What a field asks for it also holds. */
  lemma AskedIsHeld(field: string, x: int, minVal: int, maxVal: int)
    requires SmallBounds(minVal, maxVal) && Asks(field, x, minVal, maxVal)
    ensures Holds(field, x, minVal, maxVal) && minVal <= x <= maxVal
  {
    var parts := Split(field, ',', "");
    var i :| 0 <= i < |parts| && DenotedBy(x, parts[i], minVal, maxVal);
    DenotedWithin(x, parts[i], minVal, maxVal);
    DenotedIsYielded(x, parts[i], minVal, maxVal);
  }

  /** A field holds exactly what it asks for, or only values within its bounds, if and only if none of
      its parts wraps around. */
  lemma FieldExactIff(field: string, minVal: int, maxVal: int)
    requires SmallBounds(minVal, maxVal) && FieldReadable(field, minVal, maxVal)
    ensures (forall x :: Holds(field, x, minVal, maxVal) <==> Asks(field, x, minVal, maxVal))
            <==> FieldExact(field, minVal, maxVal)
    ensures (forall x :: Holds(field, x, minVal, maxVal) ==> minVal <= x <= maxVal)
            <==> FieldExact(field, minVal, maxVal)
  {
    var parts := Split(field, ',', "");
    if FieldExact(field, minVal, maxVal) {
      forall x ensures Holds(field, x, minVal, maxVal) <==> Asks(field, x, minVal, maxVal)
        ensures Holds(field, x, minVal, maxVal) ==> minVal <= x <= maxVal
      {
        ExactFieldHolds(field, x, minVal, maxVal);
      }
    } else {
      var i :| 0 <= i < |parts| && !ExactPart(parts[i], minVal, maxVal);
      var x := WrappedIsWrong(parts, i, minVal, maxVal);
      assert Holds(field, x, minVal, maxVal) && !Asks(field, x, minVal, maxVal);
    }
  }

  lemma ExactFieldHolds(field: string, x: int, minVal: int, maxVal: int)
    requires SmallBounds(minVal, maxVal) && FieldExact(field, minVal, maxVal)
    ensures Holds(field, x, minVal, maxVal) <==> Asks(field, x, minVal, maxVal)
    ensures Holds(field, x, minVal, maxVal) ==> minVal <= x <= maxVal
  {
    var parts := Split(field, ',', "");
    if Asks(field, x, minVal, maxVal) {
      AskedIsHeld(field, x, minVal, maxVal);
    }
    if Holds(field, x, minVal, maxVal) {
      var i :| 0 <= i < |parts| && YieldedBy(x, parts[i], minVal, maxVal);
      assert ExactPart(parts[i], minVal, maxVal) && DenotedBy(x, parts[i], minVal, maxVal);
      DenotedWithin(x, parts[i], minVal, maxVal);
    }
  }

  /** Within its bounds the field holds nothing it does not ask for. */
  ghost predicate HoldsAsAsked(field: string, minVal: int, maxVal: int)
    requires SmallBounds(minVal, maxVal)
  {
    forall x :: minVal <= x <= maxVal && Holds(field, x, minVal, maxVal) ==> Asks(field, x, minVal, maxVal)
  }

  /** Within its bounds a field holds exactly what it asks for if and only if every stray value of a part
      that wraps around is denoted by some part. */
  lemma FieldFaithfulIff(field: string, minVal: int, maxVal: int)
    requires SmallBounds(minVal, maxVal) && FieldReadable(field, minVal, maxVal)
    ensures HoldsAsAsked(field, minVal, maxVal) <==> FieldFaithful(field, minVal, maxVal)
  {
    var parts := Split(field, ',', "");
    if FieldFaithful(field, minVal, maxVal) {
      forall x | minVal <= x <= maxVal && Holds(field, x, minVal, maxVal) ensures Asks(field, x, minVal, maxVal) {
        FaithfulFieldHolds(field, x, minVal, maxVal);
      }
    } else {
      var i, x :| 0 <= i < |parts| && !ExactPart(parts[i], minVal, maxVal)
        && StrayValue(parts[i], x, minVal, maxVal) && !AnyDenotes(x, parts, minVal, maxVal);
      YieldedInBounds(x, parts[i], minVal, maxVal);
      assert Holds(field, x, minVal, maxVal) && !Asks(field, x, minVal, maxVal);
    }
  }

  lemma FaithfulFieldHolds(field: string, x: int, minVal: int, maxVal: int)
    requires SmallBounds(minVal, maxVal) && FieldFaithful(field, minVal, maxVal) && minVal <= x <= maxVal
    requires Holds(field, x, minVal, maxVal)
    ensures Asks(field, x, minVal, maxVal)
  {
    var parts := Split(field, ',', "");
    var i :| 0 <= i < |parts| && YieldedBy(x, parts[i], minVal, maxVal);
    YieldedInBounds(x, parts[i], minVal, maxVal);
  }

  // ---------- parsing a field ----------

  /** The lists of the parts, one after the other, or nothing if a part is refused. */
  function FieldValues(parts: seq<string>, minVal: int, maxVal: int): Option<seq<int>>
    requires SmallBounds(minVal, maxVal)
  {
    if parts == [] then Some([])
    else
      var rest := FieldValues(parts[..|parts| - 1], minVal, maxVal);
      var last := PartValues(parts[|parts| - 1], minVal, maxVal);
      if rest.None? || last.None? then None else Some(rest.value + last.value)
  }

  lemma {:induction false} RefusedStays(parts: seq<string>, i: nat, minVal: int, maxVal: int)
    requires SmallBounds(minVal, maxVal) && i <= |parts| && FieldValues(parts[..i], minVal, maxVal).None?
    ensures FieldValues(parts, minVal, maxVal).None?
    decreases |parts|
  {
    if i < |parts| {
      var rest := parts[..|parts| - 1];
      assert rest[..i] == parts[..i];
      RefusedStays(rest, i, minVal, maxVal);
    } else {
      assert parts[..i] == parts;
    }
  }

  method CollectParts(parts: seq<string>, minVal: int, maxVal: int) returns (r: Option<seq<int>>)
    requires SmallBounds(minVal, maxVal)
    ensures r == FieldValues(parts, minVal, maxVal)
  {
    var result: seq<int> := [];
    for i := 0 to |parts|
      invariant FieldValues(parts[..i], minVal, maxVal) == Some(result)
    {
      assert parts[..i + 1][..i] == parts[..i];
      var vals := ParsePart(parts[i], minVal, maxVal);
      if vals.None? {
        RefusedStays(parts, i + 1, minVal, maxVal);
        return None;
      }
      result := result + vals.value;
    }
    assert parts[..|parts|] == parts;
    return Some(result);
  }

  lemma PartValuesYield(part: string, x: int, minVal: int, maxVal: int)
    requires SmallBounds(minVal, maxVal)
    ensures PartValues(part, minVal, maxVal).Some? <==> Readable(part, minVal, maxVal)
    ensures PartValues(part, minVal, maxVal).Some? ==>
      (x in PartValues(part, minVal, maxVal).value <==> YieldedBy(x, part, minVal, maxVal))
  {
    if Readable(part, minVal, maxVal) {
      ListingYields(ReadPart(part, minVal, maxVal).value, x);
    }
  }

  /** A field is accepted exactly if all its parts are, and its list has exactly what they yield. */
  lemma {:induction false} FieldValuesYield(parts: seq<string>, x: int, minVal: int, maxVal: int)
    requires SmallBounds(minVal, maxVal)
    ensures FieldValues(parts, minVal, maxVal).Some? <==> AllReadable(parts, minVal, maxVal)
    ensures FieldValues(parts, minVal, maxVal).Some? ==>
      (x in FieldValues(parts, minVal, maxVal).value <==> AnyYields(x, parts, minVal, maxVal))
  {
    if parts != [] {
      var rest, last := parts[..|parts| - 1], parts[|parts| - 1];
      assert parts == rest + [last];
      FieldValuesYield(rest, x, minVal, maxVal);
      PartValuesYield(last, x, minVal, maxVal);
      AnyYieldsMore(x, rest, last, minVal, maxVal);
      AllReadableMore(rest, last, minVal, maxVal);
    }
  }

  lemma AllReadableMore(parts: seq<string>, part: string, minVal: int, maxVal: int)
    requires SmallBounds(minVal, maxVal)
    ensures AllReadable(parts + [part], minVal, maxVal) <==>
              AllReadable(parts, minVal, maxVal) && Readable(part, minVal, maxVal)
  {
    var all := parts + [part];
    assert all[|parts|] == part;
    assert forall i :: 0 <= i < |parts| ==> all[i] == parts[i];
  }

  /** An accepted field holds some value within its bounds. */
  lemma HoldsSome(field: string, minVal: int, maxVal: int) returns (x: int)
    requires SmallBounds(minVal, maxVal) && FieldReadable(field, minVal, maxVal)
    ensures minVal <= x <= maxVal && Holds(field, x, minVal, maxVal)
  {
    var parts := Split(field, ',', "");
    FirstYielded(ReadPart(parts[0], minVal, maxVal).value);
    x := ReadPart(parts[0], minVal, maxVal).value.lo;
    assert YieldedBy(x, parts[0], minVal, maxVal);
  }

  lemma FieldValuesHold(field: string, minVal: int, maxVal: int)
    requires SmallBounds(minVal, maxVal)
    ensures var values := FieldValues(Split(field, ',', ""), minVal, maxVal);
            && (values.Some? <==> FieldReadable(field, minVal, maxVal))
            && (values.Some? ==> forall x :: x in values.value <==> Holds(field, x, minVal, maxVal))
  {
    var parts := Split(field, ',', "");
    FieldValuesYield(parts, 0, minVal, maxVal);
    forall x ensures FieldValues(parts, minVal, maxVal).Some? ==>
        (x in FieldValues(parts, minVal, maxVal).value <==> AnyYields(x, parts, minVal, maxVal))
    {
      FieldValuesYield(parts, x, minVal, maxVal);
    }
  }

  /** A field is accepted when all its parts are; its list is then strictly increasing, not empty, and
      has exactly the values its parts yield.  That is what they denote, and within the bounds, if and
      only if no part wraps around; within the bounds it is what they denote if and only if the field
      is faithful. */
  method ParseField(field: string, minVal: int, maxVal: int) returns (r: Option<seq<int>>)
    requires SmallBounds(minVal, maxVal)
    ensures r.Some? <==> FieldReadable(field, minVal, maxVal)
    ensures r.Some? ==> Increasing(r.value) && exists x :: x in r.value && minVal <= x <= maxVal
    ensures r.Some? ==> forall x :: x in r.value <==> Holds(field, x, minVal, maxVal)
    ensures r.Some? ==>
      ((forall x :: x in r.value <==> Asks(field, x, minVal, maxVal)) <==> FieldExact(field, minVal, maxVal))
    ensures r.Some? ==> ((forall x :: x in r.value ==> minVal <= x <= maxVal) <==> FieldExact(field, minVal, maxVal))
    ensures r.Some? ==> forall x :: Asks(field, x, minVal, maxVal) ==> x in r.value
    ensures r.Some? ==>
      ((forall x :: minVal <= x <= maxVal && x in r.value ==> Asks(field, x, minVal, maxVal))
       <==> FieldFaithful(field, minVal, maxVal))
  {
    FieldValuesHold(field, minVal, maxVal);
    var result := CollectParts(Split(field, ',', ""), minVal, maxVal);
    if result.None? {
      return None;
    }
    var values := Deduplicate(result.value);
    ghost var inside := HoldsSome(field, minVal, maxVal);
    assert inside in values;
    FieldExactIff(field, minVal, maxVal);
    FieldFaithfulIff(field, minVal, maxVal);
    forall x | Asks(field, x, minVal, maxVal) ensures x in values { AskedIsHeld(field, x, minVal, maxVal); }
    return Some(values);
  }

  // ---------- an expression that goes wrong ----------

  lemma FourDigits(s: string, a: char, b: char, c: char, d: char)
    requires AllDigits(s) && IsDigit(a) && IsDigit(b) && IsDigit(c) && IsDigit(d)
    ensures AllDigits(s + [a, b, c, d])
    ensures Digits(s + [a, b, c, d]) == 10000 * Digits(s) + 1000 * Value(a) + 100 * Value(b) + 10 * Value(c) + Value(d)
  {
    DigitsSnoc(s, a);
    DigitsSnoc(s + [a], b);
    DigitsSnoc(s + [a] + [b], c);
    DigitsSnoc(s + [a] + [b] + [c], d);
    assert s + [a, b, c, d] == s + [a] + [b] + [c] + [d];
  }

  const LARGEST := "9223372036854775807"

  lemma LargestDigits3()
    ensures AllDigits("922") && Digits("922") == 922
  {
    DigitsSnoc("", '9');
    DigitsSnoc("" + ['9'], '2');
    DigitsSnoc("" + ['9'] + ['2'], '2');
    assert "922" == "" + ['9'] + ['2'] + ['2'];
  }

  lemma LargestDigits7()
    ensures AllDigits("9223372") && Digits("9223372") == 9223372
  {
    LargestDigits3();
    FourDigits("922", '3', '3', '7', '2');
    assert "9223372" == "922" + ['3', '3', '7', '2'];
  }

  lemma LargestDigits11()
    ensures AllDigits("92233720368") && Digits("92233720368") == 92233720368
  {
    LargestDigits7();
    FourDigits("9223372", '0', '3', '6', '8');
    assert "92233720368" == "9223372" + ['0', '3', '6', '8'];
  }

  lemma LargestDigits15()
    ensures AllDigits("922337203685477") && Digits("922337203685477") == 922337203685477
  {
    LargestDigits11();
    FourDigits("92233720368", '5', '4', '7', '7');
    assert "922337203685477" == "92233720368" + ['5', '4', '7', '7'];
  }

  lemma LargestDigits()
    ensures AllDigits(LARGEST) && Digits(LARGEST) == MAX_INT
  {
    LargestDigits15();
    FourDigits("922337203685477", '5', '8', '0', '7');
    assert LARGEST == "922337203685477" + ['5', '8', '0', '7'];
  }

  lemma LargestStep()
    ensures ParseStep(LARGEST) == Some(MAX_INT)
  {
    LargestDigits();
    assert IsDigit(LARGEST[0]);
  }

  lemma FiveReads()
    ensures Atoi("5") == Some(5)
  {
    DigitsSnoc("", '5');
    assert "5" == "" + ['5'];
  }

  lemma ReadsLargestStep(part: string)
    requires part == "5/" + LARGEST
    ensures ReadPart(part, 0, 59) == Some(Part(5, 59, MAX_INT))
  {
    assert part[1] == '/' && part[0] == '5';
    var slash := Find(part, '/');
    assert slash == 1;
    assert part[..1] == "5" && part[2..] == LARGEST;
    LargestStep();
    FiveReads();
  }

  lemma NoComma()
    ensures ',' !in "5/" + LARGEST
  {
    LargestDigits();
    assert ',' !in "5/" && ',' !in LARGEST;
  }

  lemma LargestField(field: string)
    requires field == "5/9223372036854775807"
    ensures field == "5/" + LARGEST
  {
  }

  lemma EmptyPrefix(s: string)
    ensures "" + s == s
  {
  }

  /** A field that is a single part with a step of the largest integer. */
  lemma SinglePart(field: string)
    requires Split(field, ',', "") == [field] && ReadPart(field, 0, 59) == Some(Part(5, 59, MAX_INT))
    ensures FieldReadable(field, 0, 59) && Holds(field, 3, 0, 59) && !Asks(field, 3, 0, 59) && Asks(field, 5, 0, 59)
  {
    SpreadAbove(5, 1, 3);
    FirstYielded(Part(5, 59, MAX_INT));
    var parts := Split(field, ',', "");
    assert parts[0] == field;
    assert YieldedBy(3, parts[0], 0, 59) && DenotedBy(5, parts[0], 0, 59);
  }

  /** The minute field "5/9223372036854775807" asks for minute 5 only, is accepted, and holds minute 3
      as well. */
  lemma WrapAroundListsWrongMinute(field: string)
    requires field == "5/9223372036854775807"
    ensures FieldReadable(field, 0, 59) && Holds(field, 3, 0, 59) && !Asks(field, 3, 0, 59) && Asks(field, 5, 0, 59)
  {
    LargestField(field);
    ReadsLargestStep(field);
    NoComma();
    SplitOne(field, ',', "");
    EmptyPrefix(field);
    SinglePart(field);
  }
}
