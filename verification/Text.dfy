/** White space as the standard library's string functions see it. */
module Text {
  predicate IsSpace(c: char) {
    || c == ' ' || '\t' <= c <= '\r' || c == '\U{85}' || c == '\U{A0}' || c == '\U{1680}'
    || '\U{2000}' <= c <= '\U{200A}' || c == '\U{2028}' || c == '\U{2029}' || c == '\U{202F}'
    || c == '\U{205F}' || c == '\U{3000}'
  }

  /** Trimming leaves nothing. */
  predicate Blank(s: string) { forall i :: 0 <= i < |s| ==> IsSpace(s[i]) }

  function TrimLeft(s: string): (r: string)
    ensures r == "" <==> Blank(s)
    ensures r != "" ==> !IsSpace(r[0])
  {
    if s != "" && IsSpace(s[0]) then
      assert forall i :: 1 <= i < |s| ==> s[i] == s[1..][i - 1];
      TrimLeft(s[1..])
    else s
  }

  function TrimRight(s: string): (r: string)
    ensures r <= s && (r == "" <==> Blank(s))
    ensures r != "" ==> !IsSpace(r[|r| - 1])
  {
    if s != "" && IsSpace(s[|s| - 1]) then TrimRight(s[..|s| - 1]) else s
  }

  /** Without the white space around it. */
  function Trim(s: string): (r: string)
    ensures r == "" <==> Blank(s)
    ensures r != "" ==> !IsSpace(r[0]) && !IsSpace(r[|r| - 1])
  {
    TrimRight(TrimLeft(s))
  }

  lemma {:induction false} TrimLeftPart(s: string) returns (left: string)
    ensures Blank(left) && s == left + TrimLeft(s)
  {
    if s != "" && IsSpace(s[0]) {
      var first, rest := s[0], s[1..];
      var gap := TrimLeftPart(rest);
      left := [first] + gap;
      assert s == [first] + rest && [first] + (gap + TrimLeft(rest)) == [first] + gap + TrimLeft(rest);
    } else {
      left := "";
    }
  }

  lemma {:induction false} TrimRightPart(s: string) returns (right: string)
    ensures Blank(right) && s == TrimRight(s) + right
  {
    if s != "" && IsSpace(s[|s| - 1]) {
      var front, last := s[..|s| - 1], s[|s| - 1];
      var rest := TrimRightPart(front);
      right := rest + [last];
      assert s == front + [last] && TrimRight(front) + rest + [last] == TrimRight(front) + (rest + [last]);
    } else {
      right := "";
    }
  }

  /** Trimming takes away white space at the ends and nothing else. */
  lemma TrimParts(s: string) returns (left: string, right: string)
    ensures Blank(left) && Blank(right) && s == left + Trim(s) + right
  {
    left := TrimLeftPart(s);
    right := TrimRightPart(TrimLeft(s));
    assert left + (Trim(s) + right) == left + Trim(s) + right;
  }
}
