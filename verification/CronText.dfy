/** The string functions that cron expressions are read with: words, pieces and decimal numbers. */
module CronText {
  import opened Options
  import opened Text
  import Multiples

  const MIN_INT := -0x8000_0000_0000_0000
  const MAX_INT := 0x7fff_ffff_ffff_ffff

  // ---------- words ----------

  /** The maximal runs of characters that are not white space; `word` is the run being read. */
  function Fields(s: string, word: string): (fs: seq<string>)
    ensures forall f :: f in fs ==> f != ""
    decreases |s|
  {
    if s == "" then (if word == "" then [] else [word])
    else if IsSpace(s[0]) then (if word == "" then [] else [word]) + Fields(s[1..], "")
    else Fields(s[1..], word + [s[0]])
  }

  /** The words with the gaps around them put back. */
  function Weave(words: seq<string>, gaps: seq<string>): string
    requires |gaps| == |words| + 1
  {
    if words == [] then gaps[0] else gaps[0] + words[0] + Weave(words[1..], gaps[1..])
  }

  /** The gaps are white space, there is one between any two words, and the words have none inside. */
  ghost predicate Woven(words: seq<string>, gaps: seq<string>) {
    && |gaps| == |words| + 1
    && (forall i :: 0 <= i < |gaps| ==> Blank(gaps[i]))
    && (forall i :: 0 < i < |words| ==> gaps[i] != "")
    && (forall i :: 0 <= i < |words| ==> words[i] != "" && Solid(words[i]))
  }

  predicate Solid(s: string) { forall i :: 0 <= i < |s| ==> !IsSpace(s[i]) }

  lemma {:induction false} SkipGap(gap: string, s: string)
    requires Blank(gap)
    ensures Fields(gap + s, "") == Fields(s, "")
  {
    if gap == "" {
      assert gap + s == s;
    } else {
      assert (gap + s)[1..] == gap[1..] + s;
      SkipGap(gap[1..], s);
    }
  }

  lemma {:induction false} ReadWord(w: string, s: string, word: string)
    requires Solid(w)
    ensures Fields(w + s, word) == Fields(s, word + w)
  {
    if w == "" {
      assert w + s == s && word + w == word;
    } else {
      assert (w + s)[1..] == w[1..] + s && word + [w[0]] + w[1..] == word + w;
      ReadWord(w[1..], s, word + [w[0]]);
    }
  }

  lemma EndWord(s: string, word: string)
    requires word != "" && (s == "" || IsSpace(s[0]))
    ensures Fields(s, word) == [word] + Fields(s, "")
  {
  }

  /** Words that are put together with gaps between them are read back. */
  lemma {:induction false} FieldsOfWeave(words: seq<string>, gaps: seq<string>)
    requires Woven(words, gaps)
    ensures Fields(Weave(words, gaps), "") == words
  {
    if words == [] {
      SkipGap(gaps[0], "");
      assert gaps[0] + "" == gaps[0];
    } else {
      var w, rest := words[0], Weave(words[1..], gaps[1..]);
      assert gaps[0] + w + rest == gaps[0] + (w + rest) && "" + w == w;
      SkipGap(gaps[0], w + rest);
      ReadWord(w, rest, "");
      assert rest == "" || IsSpace(rest[0]) by {
        assert gaps[1..][0] == gaps[1];
      }
      EndWord(rest, w);
      FieldsOfWeave(words[1..], gaps[1..]);
    }
  }

  lemma WidenGap(words: seq<string>, gaps: seq<string>, c: char) returns (wider: seq<string>)
    requires Woven(words, gaps) && IsSpace(c)
    ensures Woven(words, wider) && Weave(words, wider) == [c] + Weave(words, gaps) && wider[0] != ""
  {
    wider := gaps[0 := [c] + gaps[0]];
    assert wider[1..] == gaps[1..];
    if words != [] {
      var rest := Weave(words[1..], gaps[1..]);
      assert [c] + gaps[0] + words[0] + rest == [c] + (gaps[0] + words[0] + rest);
    }
  }

  lemma AddWord(word: string, words: seq<string>, gaps: seq<string>) returns (more: seq<string>)
    requires Woven(words, gaps) && gaps[0] != "" && word != "" && Solid(word)
    ensures Woven([word] + words, more) && Weave([word] + words, more) == word + Weave(words, gaps) && more[0] == ""
  {
    more := [""] + gaps;
    assert more[1..] == gaps && ([word] + words)[1..] == words;
    assert "" + word + Weave(words, gaps) == word + Weave(words, gaps);
  }

  lemma WeaveEnd(word: string) returns (gaps: seq<string>)
    requires Solid(word)
    ensures Woven(Fields("", word), gaps) && Weave(Fields("", word), gaps) == word
    ensures word != "" ==> gaps[0] == ""
  {
    if word == "" {
      gaps := [""];
    } else {
      gaps := ["", ""];
      assert gaps[1..] == [""] && [word][1..] == [] && "" + word + "" == word;
    }
  }

  lemma WeaveSpace(c: char, s: string, word: string, gaps: seq<string>) returns (more: seq<string>)
    requires Solid(word) && IsSpace(c) && Woven(Fields(s, ""), gaps) && Weave(Fields(s, ""), gaps) == s
    ensures Woven(Fields([c] + s, word), more) && Weave(Fields([c] + s, word), more) == word + ([c] + s)
    ensures word != "" ==> more[0] == ""
  {
    assert ([c] + s)[1..] == s;
    more := WidenGap(Fields(s, ""), gaps, c);
    if word == "" {
      assert [] + Fields(s, "") == Fields(s, "");
      assert word + ([c] + s) == [c] + s;
    } else {
      more := AddWord(word, Fields(s, ""), more);
    }
  }

  /** Every string is its words with gaps between them. */
  lemma {:induction false} FieldsWeave(s: string, word: string) returns (gaps: seq<string>)
    requires Solid(word)
    ensures Woven(Fields(s, word), gaps) && Weave(Fields(s, word), gaps) == word + s
    ensures word != "" ==> gaps[0] == ""
    decreases |s|
  {
    if s == "" {
      assert word + s == word;
      gaps := WeaveEnd(word);
    } else if IsSpace(s[0]) {
      gaps := FieldsWeave(s[1..], "");
      assert "" + s[1..] == s[1..] && [s[0]] + s[1..] == s;
      gaps := WeaveSpace(s[0], s[1..], word, gaps);
    } else {
      gaps := FieldsWeave(s[1..], word + [s[0]]);
      assert word + [s[0]] + s[1..] == word + s;
    }
  }

  /** The words of a string are exactly those it can be woven from. */
  lemma FieldsIff(s: string, words: seq<string>)
    ensures Fields(s, "") == words <==> exists gaps :: Woven(words, gaps) && Weave(words, gaps) == s
  {
    if Fields(s, "") == words {
      var gaps := FieldsWeave(s, "");
      assert "" + s == s;
    }
    forall gaps | Woven(words, gaps) && Weave(words, gaps) == s ensures Fields(s, "") == words {
      FieldsOfWeave(words, gaps);
    }
  }

  lemma {:induction false} SkipEnd(s: string, c: char, word: string)
    requires IsSpace(c)
    ensures Fields(s + [c], word) == Fields(s, word)
    decreases |s|
  {
    if s == "" {
      assert (s + [c])[1..] == "";
    } else {
      assert (s + [c])[1..] == s[1..] + [c];
      SkipEnd(s[1..], c, if IsSpace(s[0]) then "" else word + [s[0]]);
    }
  }

  lemma {:induction false} SkipGapAfter(s: string, gap: string)
    requires Blank(gap)
    ensures Fields(s + gap, "") == Fields(s, "")
    decreases |gap|
  {
    if gap == "" {
      assert s + gap == s;
    } else {
      SkipEnd(s + gap[..|gap| - 1], gap[|gap| - 1], "");
      assert s + gap == s + gap[..|gap| - 1] + [gap[|gap| - 1]];
      SkipGapAfter(s, gap[..|gap| - 1]);
    }
  }

  /** Trimming first does not change the words. */
  lemma FieldsOfTrim(s: string)
    ensures Fields(Trim(s), "") == Fields(s, "")
  {
    var left, right := TrimParts(s);
    assert s == left + (Trim(s) + right);
    SkipGap(left, Trim(s) + right);
    SkipGapAfter(Trim(s), right);
  }

  // ---------- pieces ----------

  /** The pieces of s between the separators; `piece` is the piece being read. */
  function Split(s: string, sep: char, piece: string): (ps: seq<string>)
    ensures ps != []
    decreases |s|
  {
    if s == "" then [piece]
    else if s[0] == sep then [piece] + Split(s[1..], sep, "")
    else Split(s[1..], sep, piece + [s[0]])
  }

  function Join(ps: seq<string>, sep: char): string {
    if ps == [] then ""
    else if |ps| == 1 then ps[0]
    else ps[0] + [sep] + Join(ps[1..], sep)
  }

  /** Splitting loses nothing and leaves no separator behind. */
  lemma {:induction false} SplitJoins(s: string, sep: char, piece: string)
    requires sep !in piece
    ensures Join(Split(s, sep, piece), sep) == piece + s
    ensures forall p :: p in Split(s, sep, piece) ==> sep !in p
    decreases |s|
  {
    if s == "" {
      assert piece + s == piece;
    } else if s[0] == sep {
      SplitJoins(s[1..], sep, "");
      assert ([piece] + Split(s[1..], sep, ""))[1..] == Split(s[1..], sep, "");
      assert "" + s[1..] == s[1..];
      assert piece + s == piece + [sep] + s[1..];
    } else {
      SplitJoins(s[1..], sep, piece + [s[0]]);
      assert piece + s == piece + [s[0]] + s[1..];
    }
  }

  lemma {:induction false} SplitOne(s: string, sep: char, piece: string)
    requires sep !in s
    ensures Split(s, sep, piece) == [piece + s]
    decreases |s|
  {
    if s == "" {
      assert piece + s == piece;
    } else {
      SplitOne(s[1..], sep, piece + [s[0]]);
      assert piece + [s[0]] + s[1..] == piece + s;
    }
  }

  /** The position of the first c in s, or |s| when there is none. */
  function Find(s: string, c: char): (i: nat)
    ensures i <= |s| && c !in s[..i] && (i < |s| ==> s[i] == c)
  {
    if s == "" || s[0] == c then 0
    else
      var i := 1 + Find(s[1..], c);
      assert s[..i] == [s[0]] + s[1..][..i - 1];
      i
  }

  lemma FindIs(s: string, i: nat, c: char)
    requires i <= |s| && c !in s[..i] && (i < |s| ==> s[i] == c)
    ensures Find(s, c) == i
  {
  }

  // ---------- decimal numbers ----------

  predicate IsDigit(c: char) { '0' <= c <= '9' }

  predicate AllDigits(s: string) { forall c :: c in s ==> IsDigit(c) }

  function Value(c: char): int { c as int - '0' as int }

  function Digits(s: string): int
    requires AllDigits(s)
  {
    if s == "" then 0
    else
      assert IsDigit(s[|s| - 1]);
      10 * Digits(s[..|s| - 1]) + Value(s[|s| - 1])
  }

  /** Decimal digits after an optional sign, when the value fits a machine integer. */
  function Atoi(s: string): (r: Option<int>)
    ensures r.Some? ==> MIN_INT <= r.value <= MAX_INT
  {
    var sign := s != "" && (s[0] == '+' || s[0] == '-');
    var digits := if sign then s[1..] else s;
    if digits == "" || exists c :: c in digits && !IsDigit(c) then None
    else
      var value := if sign && s[0] == '-' then -Digits(digits) else Digits(digits);
      if MIN_INT <= value <= MAX_INT then Some(value) else None
  }

  lemma DigitsSnoc(s: string, c: char)
    requires AllDigits(s) && IsDigit(c)
    ensures AllDigits(s + [c]) && Digits(s + [c]) == 10 * Digits(s) + Value(c)
  {
    assert (s + [c])[..|s|] == s;
  }

  function Digit(n: int): (c: char)
    requires 0 <= n < 10
    ensures IsDigit(c) && Value(c) == n
  {
    ('0' as int + n) as char
  }

  /** The usual way to write a number. */
  function Decimal(n: nat): string {
    if n < 10 then [Digit(n)] else Decimal(n / 10) + [Digit(n % 10)]
  }

  lemma {:induction false} DecimalReads(n: nat)
    ensures Decimal(n) != "" && AllDigits(Decimal(n)) && Digits(Decimal(n)) == n
  {
    if n < 10 {
      DigitsSnoc("", Digit(n));
      assert "" + [Digit(n)] == [Digit(n)];
    } else {
      DecimalReads(n / 10);
      DigitsSnoc(Decimal(n / 10), Digit(n % 10));
    }
  }

  function Zeros(k: nat): string { seq(k, _ => '0') }

  lemma {:induction false} LeadingZeros(k: nat, s: string)
    requires AllDigits(s)
    ensures AllDigits(Zeros(k) + s) && Digits(Zeros(k) + s) == Digits(s)
    decreases k + |s|
  {
    if s != "" {
      var t, c := s[..|s| - 1], s[|s| - 1];
      LeadingZeros(k, t);
      DigitsSnoc(Zeros(k) + t, c);
      assert Zeros(k) + s == Zeros(k) + t + [c];
    } else if k > 0 {
      LeadingZeros(k - 1, "");
      DigitsSnoc(Zeros(k - 1) + "", '0');
      assert Zeros(k) + s == Zeros(k - 1) + "" + ['0'];
    } else {
      assert Zeros(k) + s == s;
    }
  }

  lemma SpellNext(n: nat, k: nat, c: char) returns (zeros: nat)
    requires IsDigit(c)
    ensures Zeros(k) + Decimal(n) + [c] == Zeros(zeros) + Decimal(10 * n + Value(c))
  {
    var m := 10 * n + Value(c);
    Multiples.QuotientIsUnique(m, 10, n, Value(c));
    if n == 0 {
      zeros := k + 1;
      assert Digit(0) == '0' && Zeros(k + 1) == Zeros(k) + ['0'] && [Digit(m)] == [c];
    } else {
      zeros := k;
      assert Decimal(m) == Decimal(n) + [c];
    }
  }

  lemma SpellOne(c: char)
    requires IsDigit(c)
    ensures Digits([c]) == Value(c) && [c] == Zeros(0) + Decimal(Value(c))
  {
    DigitsSnoc("", c);
    assert "" + [c] == [c] && Digit(Value(c)) == c && Zeros(0) + [c] == [c];
  }

  /** Digits are the number they stand for, with zeros in front. */
  lemma {:induction false} DigitsSpell(s: string) returns (zeros: nat)
    requires s != "" && AllDigits(s)
    ensures Digits(s) >= 0 && s == Zeros(zeros) + Decimal(Digits(s))
  {
    var t, c := s[..|s| - 1], s[|s| - 1];
    assert s == t + [c] && IsDigit(c);
    if t == "" {
      SpellOne(c);
      zeros := 0;
      assert s == [c];
    } else {
      var k := DigitsSpell(t);
      DigitsSnoc(t, c);
      zeros := SpellNext(Digits(t), k, c);
    }
  }

  /** A number written in decimal, after any zeros and an optional sign. */
  ghost predicate Writes(s: string, v: int) { exists zeros :: WritesWith(s, v, zeros) }

  predicate WritesWith(s: string, v: int, zeros: nat) {
    || (v >= 0 && s == Zeros(zeros) + Decimal(v))
    || (v >= 0 && s == "+" + (Zeros(zeros) + Decimal(v)))
    || (v <= 0 && s == "-" + (Zeros(zeros) + Decimal(-v)))
  }

  function Fitting(v: int): Option<int> { if MIN_INT <= v <= MAX_INT then Some(v) else None }

  lemma PlainDigits(digits: string)
    requires digits != "" && AllDigits(digits)
    ensures Atoi(digits) == Fitting(Digits(digits))
  {
    assert digits[0] in digits;
  }

  lemma SignedDigits(sign: char, digits: string)
    requires digits != "" && AllDigits(digits) && (sign == '+' || sign == '-')
    ensures Atoi([sign] + digits) == Fitting(if sign == '-' then -Digits(digits) else Digits(digits))
  {
    assert ([sign] + digits)[1..] == digits;
  }

  lemma PaddedDigits(zeros: nat, n: nat)
    ensures var s := Zeros(zeros) + Decimal(n); s != "" && AllDigits(s) && Digits(s) == n
  {
    DecimalReads(n);
    LeadingZeros(zeros, Decimal(n));
  }

  lemma WrittenReads(s: string, v: int, zeros: nat)
    requires WritesWith(s, v, zeros)
    ensures Atoi(s) == Fitting(v)
  {
    var n := if v >= 0 then v else -v;
    var digits := Zeros(zeros) + Decimal(n);
    PaddedDigits(zeros, n);
    PlainDigits(digits);
    SignedDigits('+', digits);
    SignedDigits('-', digits);
    assert s == digits || s == "+" + digits || s == "-" + digits;
  }

  lemma AtoiSpells(s: string)
    requires Atoi(s).Some?
    ensures Writes(s, Atoi(s).value)
  {
    var sign := s != "" && (s[0] == '+' || s[0] == '-');
    var digits := if sign then s[1..] else s;
    var zeros := DigitsSpell(digits);
    if sign {
      assert s == [s[0]] + digits;
    }
    assert WritesWith(s, Atoi(s).value, zeros);
  }

  /** A string is read as a number exactly if it writes this number and it fits a machine integer. */
  lemma AtoiIff(s: string, v: int)
    ensures Atoi(s) == Some(v) <==> Writes(s, v) && MIN_INT <= v <= MAX_INT
  {
    if Atoi(s) == Some(v) {
      AtoiSpells(s);
    }
    if Writes(s, v) {
      var zeros :| WritesWith(s, v, zeros);
      WrittenReads(s, v, zeros);
    }
  }
}
