/** The opaque feed cursor "<generation>.<seq>" (eventplane/outbox/cursor.go). */
module Cursor {
  import opened Numeric

  datatype Position = Position(generation: string, num: int)

  function MakeCursor(generation: string, num: int): string {
    generation + "." + FormatInt(num)
  }

  // strings.LastIndexByte
  function LastIndex(s: string, c: char): (i: int)
    ensures -1 <= i < |s|
    ensures i >= 0 ==> s[i] == c
    ensures forall j :: i < j < |s| ==> s[j] != c
  {
    if s == "" then -1
    else if s[|s| - 1] == c then |s| - 1
    else LastIndex(s[..|s| - 1], c)
  }

  function ParseCursor(cursor: string): Option<Position> {
    var i := LastIndex(cursor, '.');
    if i <= 0 || i == |cursor| - 1 then None
    else match ParseInt64(cursor[i + 1..])
      case None => None
      case Some(n) => if n < 0 then None else Some(Position(cursor[..i], n))
  }

  lemma LastIndexIs(s: string, c: char, i: nat)
    requires i < |s| && s[i] == c && forall j :: i < j < |s| ==> s[j] != c
    ensures LastIndex(s, c) == i
  {
    hide LastIndex;
  }

  lemma FormatHasNoDot(num: int)
    ensures forall j :: 0 <= j < |FormatInt(num)| ==> FormatInt(num)[j] != '.'
  {
  }

  lemma DotPosition(generation: string, num: int)
    ensures LastIndex(MakeCursor(generation, num), '.') == |generation|
    ensures MakeCursor(generation, num)[..|generation|] == generation
    ensures MakeCursor(generation, num)[|generation| + 1..] == FormatInt(num)
  {
    hide LastIndex, FormatInt;
    FormatHasNoDot(num);
    LastIndexIs(MakeCursor(generation, num), '.', |generation|);
  }

  // A cursor is read back as the position it was made from exactly when the generation is not
  // empty and the sequence number is a non-negative 64-bit integer; otherwise it is unintelligible.
  lemma RoundTrip(generation: string, num: int)
    ensures ParseCursor(MakeCursor(generation, num)) ==
            if generation != "" && 0 <= num < INT64_LIMIT then Some(Position(generation, num)) else None
  {
    DotPosition(generation, num);
    ParseFormat(num);
    assert FormatInt(num) != "";
  }

  // Two positions never share a cursor, whatever the generations contain.
  lemma CursorNamesOnePosition(g1: string, s1: int, g2: string, s2: int)
    requires MakeCursor(g1, s1) == MakeCursor(g2, s2)
    ensures g1 == g2 && s1 == s2
  {
    DotPosition(g1, s1);
    DotPosition(g2, s2);
    assert FormatInt(s1) == FormatInt(s2);
    FormatInjective(s1, s2);
  }

  lemma FormatInjective(a: int, b: int)
    requires FormatInt(a) == FormatInt(b)
    ensures a == b
  {
    var sa, sb := FormatInt(a), FormatInt(b);
    if a < 0 {
      assert sb[0] == '-';
      assert b < 0;
      assert sa[1..] == Digits(-a) && sb[1..] == Digits(-b);
      DigitsRoundTrip(-a);
      DigitsRoundTrip(-b);
    } else {
      assert IsDigit(sa[0]);
      assert b >= 0;
      DigitsRoundTrip(a);
      DigitsRoundTrip(b);
    }
  }

  // Whatever a peer presents, a cursor that parses denotes the position of one minted cursor.
  lemma ParsedIsMintable(cursor: string)
    requires ParseCursor(cursor).Some?
    ensures var p := ParseCursor(cursor).value;
            p.generation != "" && 0 <= p.num < INT64_LIMIT &&
            ParseCursor(MakeCursor(p.generation, p.num)) == Some(p)
  {
    var p := ParseCursor(cursor).value;
    RoundTrip(p.generation, p.num);
  }
}
