/** Routing keys and the compiled form of routing globs (eventplane/routing/routing.go).
    Strings are sequences of Unicode characters, as Go's []rune conversion makes them. */
module Routing {

  // ---- Keys -----------------------------------------------------------------

  function Key(source: string, kind: string, subject: string): string {
    source + ":" + kind + subject
  }

  predicate KindChar(c: char) {
    'a' <= c <= 'z' || '0' <= c <= '9' || c == '_' || c == '.' || c == '-'
  }

  predicate ValidKind(kind: string) {
    kind != "" && forall i :: 0 <= i < |kind| ==> KindChar(kind[i])
  }

  predicate LineBreakFree(s: string) {
    forall i :: 0 <= i < |s| ==> s[i] != '\n' && s[i] != '\r'
  }

  predicate ValidSubject(subject: string) {
    subject == "" || (subject[0] == '/' && LineBreakFree(subject))
  }

  // The name reads as the key of an event of the source that has a subject.
  ghost predicate IsKeyOf(source: string, name: string) {
    exists k, u :: ValidKind(k) && ValidSubject(u) && u != "" && name == Key(source, k, u)
  }

  // The events of two sources that have one key.
  ghost predicate Meet(s1: string, s2: string) {
    exists k1, u1, k2, u2 :: ValidKind(k1) && ValidKind(k2) && ValidSubject(u1) && ValidSubject(u2) && Key(s1, k1, u1) == Key(s2, k2, u2)
  }

  // A key names one source, kind and subject, unless one source reads as a key of the other: the first
  // ':' behind the shorter source ends it, and the first '/' after it, which no kind contains, begins
  // the subject.
  lemma KeyInjective(s1: string, k1: string, u1: string, s2: string, k2: string, u2: string)
    requires ValidKind(k1) && ValidKind(k2) && ValidSubject(u1) && ValidSubject(u2)
    requires Key(s1, k1, u1) == Key(s2, k2, u2)
    ensures (s1 == s2 && k1 == k2 && u1 == u2) || IsKeyOf(s1, s2) || IsKeyOf(s2, s1)
  {
    hide IsKeyOf;
    if |s1| < |s2| {
      LongerSourceIsKey(s1, k1, u1, s2, k2, u2);
    } else if |s2| < |s1| {
      LongerSourceIsKey(s2, k2, u2, s1, k1, u1);
    } else {
      assert Key(s1, k1, u1) == s1 + (":" + (k1 + u1)) && Key(s2, k2, u2) == s2 + (":" + (k2 + u2));
      SameCut(s1, ":" + (k1 + u1), s2, ":" + (k2 + u2));
      SameCut(":", k1 + u1, ":", k2 + u2);
      SameKind(k1, u1, k2, u2);
    }
  }

  lemma SameKind(k1: string, u1: string, k2: string, u2: string)
    requires ValidKind(k1) && ValidKind(k2) && ValidSubject(u1) && ValidSubject(u2) && k1 + u1 == k2 + u2
    ensures k1 == k2 && u1 == u2
  {
    if |k2| < |k1| {
      Overhang(k1, u1, k2, u2);
      assert false;
    }
    if |k1| < |k2| {
      Overhang(k2, u2, k1, u1);
      assert false;
    }
    SameCut(k1, u1, k2, u2);
  }

  lemma LongerSourceIsKey(s1: string, k1: string, u1: string, s2: string, k2: string, u2: string)
    requires ValidKind(k1) && ValidKind(k2) && ValidSubject(u1) && ValidSubject(u2)
    requires Key(s1, k1, u1) == Key(s2, k2, u2) && |s1| < |s2|
    ensures IsKeyOf(s1, s2)
  {
    var w := Key(s1, k1, u1);
    var n := |s2| - |s1| - 1 - |k1|;
    assert w[|s2|] == ':';
    assert w == s1 + ":" + k1 + u1;
    forall i | 0 <= i < |k1|
      ensures w[|s1| + 1 + i] == k1[i] != ':'
    {
    }
    assert n >= 0;
    assert w[|s2|] == u1[n];
    assert n > 0;
    var v := u1[..n];
    assert s2 == w[..|s2|] == s1 + ":" + k1 + v;
    assert ValidSubject(v);
    assert s2 == Key(s1, k1, v);
  }

  // Two sources share a key exactly when they are one, or one of them reads as a key of the other; a
  // source without a colon is no such key.
  lemma KeysMeetExactly(s1: string, s2: string)
    ensures Meet(s1, s2) <==> s1 == s2 || IsKeyOf(s1, s2) || IsKeyOf(s2, s1)
    ensures ':' !in s2 ==> !IsKeyOf(s1, s2)
  {
    if Meet(s1, s2) {
      var k1, u1, k2, u2 :| ValidKind(k1) && ValidKind(k2) && ValidSubject(u1) && ValidSubject(u2) && Key(s1, k1, u1) == Key(s2, k2, u2);
      KeyInjective(s1, k1, u1, s2, k2, u2);
    }
    if s1 == s2 {
      assert ValidKind("a") && ValidSubject("") && Key(s1, "a", "") == Key(s2, "a", "");
    }
    if IsKeyOf(s1, s2) {
      KeyOfMeets(s1, s2);
    }
    if IsKeyOf(s2, s1) {
      KeyOfMeets(s2, s1);
      MeetIsSymmetric(s2, s1);
    }
    if IsKeyOf(s1, s2) {
      var k, u :| ValidKind(k) && ValidSubject(u) && u != "" && s2 == Key(s1, k, u);
      assert s2[|s1|] == ':';
    }
  }

  lemma MeetIsSymmetric(s1: string, s2: string)
    requires Meet(s1, s2)
    ensures Meet(s2, s1)
  {
    var k1, u1, k2, u2 :| ValidKind(k1) && ValidKind(k2) && ValidSubject(u1) && ValidSubject(u2) && Key(s1, k1, u1) == Key(s2, k2, u2);
    assert Key(s2, k2, u2) == Key(s1, k1, u1);
  }

  lemma KeyOfMeets(s1: string, s2: string)
    requires IsKeyOf(s1, s2)
    ensures Meet(s1, s2)
  {
    var k, u :| ValidKind(k) && ValidSubject(u) && u != "" && s2 == Key(s1, k, u);
    var longer := u + ":a";
    assert longer[0] == '/' && ValidSubject(longer) && ValidKind("a") && ValidSubject("");
    assert Key(s1, k, longer) == Key(s2, "a", "");
  }

  lemma Overhang(a: string, b: string, x: string, y: string)
    requires a + b == x + y && |x| < |a|
    ensures y != "" && a[|x|] == y[0]
  {
    assert (a + b)[|x|] == (x + y)[|x|];
  }

  lemma SameCut(a: string, b: string, x: string, y: string)
    requires a + b == x + y && |a| == |x|
    ensures a == x && b == y
  {
    assert a == (a + b)[..|a|] && b == (a + b)[|a|..];
    assert x == (x + y)[..|x|] && y == (x + y)[|x|..];
  }

  // ---- Tokens ---------------------------------------------------------------

  datatype Token =
    | Literal(c: char)
    | Star
    | DoubleStar
    | Question
    | Class(negate: bool, ranges: seq<(char, char)>)

  datatype CompileError = InvalidRange(lo: char, hi: char) | UnterminatedClass | EmptyClass

  datatype Result<+T> = Ok(value: T) | Err(error: CompileError)

  predicate Inside(ranges: seq<(char, char)>, c: char) {
    exists i :: 0 <= i < |ranges| && ranges[i].0 <= c <= ranges[i].1
  }

  // Whether the token consumes this character.
  predicate Takes(t: Token, c: char) {
    match t
    case Literal(l) => l == c
    case Question => c != '/'
    case Star => c != '/'
    case DoubleStar => true
    case Class(negate, ranges) => c != '/' && Inside(ranges, c) != negate
  }

  // The tokens that match a run of characters.
  predicate Loops(t: Token) {
    t == Star || t == DoubleStar
  }

  method InsideAny(ranges: seq<(char, char)>, c: char) returns (inside: bool)
    ensures inside == Inside(ranges, c)
  {
    inside := false;
    for i := 0 to |ranges|
      invariant inside == Inside(ranges[..i], c)
    {
      inside := inside || (ranges[i].0 <= c && c <= ranges[i].1);
      InsideSnoc(ranges[..i], ranges[i], c);
      assert ranges[..i + 1] == ranges[..i] + [ranges[i]];
    }
    assert ranges[..|ranges|] == ranges;
  }

  lemma InsideSnoc(ranges: seq<(char, char)>, r: (char, char), c: char)
    ensures Inside(ranges + [r], c) <==> Inside(ranges, c) || r.0 <= c <= r.1
  {
    var all := ranges + [r];
    assert all[|ranges|] == r;
    if Inside(ranges, c) {
      var i :| 0 <= i < |ranges| && ranges[i].0 <= c <= ranges[i].1;
      assert all[i] == ranges[i];
    }
  }

  // ---- Compilation ----------------------------------------------------------

  // The ranges from index i up to the closing bracket, and the index of that bracket (or the end).
  function ClassRanges(p: string, i: nat): (r: Result<(seq<(char, char)>, nat)>)
    requires i <= |p|
    ensures r.Ok? ==> i <= r.value.1 <= |p| && (r.value.1 < |p| ==> p[r.value.1] == ']')
    decreases |p| - i
  {
    if i == |p| || p[i] == ']' then Ok(([], i))
    else if i + 2 < |p| && p[i + 1] == '-' && p[i + 2] != ']' then
      if p[i + 2] < p[i] then Err(InvalidRange(p[i], p[i + 2]))
      else WithRanges([(p[i], p[i + 2])], ClassRanges(p, i + 3))
    else WithRanges([(p[i], p[i])], ClassRanges(p, i + 1))
  }

  function WithRanges(ranges: seq<(char, char)>,
          rest: Result<(seq<(char, char)>, nat)>): (r: Result<(seq<(char, char)>, nat)>)
    ensures ranges == [] ==> r == rest
  {
    match rest
    case Ok((more, next)) => assert [] + more == more; Ok((ranges + more, next))
    case Err(_) => rest
  }

  lemma WithRangesAssoc(a: seq<(char, char)>, b: seq<(char, char)>, rest: Result<(seq<(char, char)>, nat)>)
    ensures WithRanges(a, WithRanges(b, rest)) == WithRanges(a + b, rest)
  {
    match rest
    case Ok((more, _)) => assert a + (b + more) == a + b + more;
    case Err(_) =>
  }

  // The class that opens before index start, and the index of its closing bracket.
  function CompiledClass(p: string, start: nat): (r: Result<(Token, nat)>)
    requires start <= |p|
    ensures r.Ok? ==> start <= r.value.1 < |p|
  {
    var negate := start < |p| && p[start] == '^';
    match ClassRanges(p, if negate then start + 1 else start)
    case Err(e) => Err(e)
    case Ok((ranges, next)) =>
      if next == |p| then Err(UnterminatedClass)
      else if ranges == [] then Err(EmptyClass)
      else Ok((Class(negate, ranges), next))
  }

  // The end of the run of stars at index i.
  function StarsEnd(p: string, i: nat): (e: nat)
    requires i <= |p|
    ensures i <= e <= |p|
    ensures forall j :: i <= j < e ==> p[j] == '*'
    ensures e < |p| ==> p[e] != '*'
    decreases |p| - i
  {
    if i < |p| && p[i] == '*' then StarsEnd(p, i + 1) else i
  }

  // The next token at index i < |p| and the index behind it.
  function NextToken(p: string, i: nat): (r: Result<(Token, nat)>)
    requires i < |p|
    ensures r.Ok? ==> i < r.value.1 <= |p|
  {
    if p[i] == '*' then
      var e := StarsEnd(p, i);
      Ok((if e == i + 1 then Star else DoubleStar, e))
    else if p[i] == '?' then Ok((Question, i + 1))
    else if p[i] == '[' then
      match CompiledClass(p, i + 1)
      case Err(e) => Err(e)
      case Ok((t, next)) => Ok((t, next + 1))
    else Ok((Literal(p[i]), i + 1))
  }

  function CompiledFrom(p: string, i: nat): Result<seq<Token>>
    requires i <= |p|
    decreases |p| - i
  {
    if i == |p| then Ok([])
    else match NextToken(p, i)
      case Err(e) => Err(e)
      case Ok((t, next)) =>
        WithTokens([t], CompiledFrom(p, next))
  }

  function WithTokens(ts: seq<Token>, rest: Result<seq<Token>>): (r: Result<seq<Token>>)
    ensures ts == [] ==> r == rest
  {
    match rest
    case Ok(more) => assert [] + more == more; Ok(ts + more)
    case Err(_) => rest
  }

  lemma WithTokensAssoc(a: seq<Token>, b: seq<Token>, rest: Result<seq<Token>>)
    ensures WithTokens(a, WithTokens(b, rest)) == WithTokens(a + b, rest)
  {
    match rest
    case Ok(more) => assert a + (b + more) == a + b + more;
    case Err(_) =>
  }

  function Compiled(p: string): Result<seq<Token>> {
    CompiledFrom(p, 0)
  }

  method CompileClass(p: string, start: nat) returns (r: Result<(Token, nat)>)
    requires start <= |p|
    ensures r == CompiledClass(p, start)
  {
    var negate, ranges, i := false, [], start;
    if i < |p| && p[i] == '^' {
      negate, i := true, i + 1;
    }
    ghost var first := i;
    while i < |p| && p[i] != ']'
      invariant first <= i <= |p|
      invariant ClassRanges(p, first) == WithRanges(ranges, ClassRanges(p, i))
    {
      ghost var at, before := i, ranges;
      var lo := p[i];
      var hi := lo;
      i := i + 1;
      if i + 1 < |p| && p[i] == '-' && p[i + 1] != ']' {
        hi := p[i + 1];
        if hi < lo {
          return Err(InvalidRange(lo, hi));
        }
        i := i + 2;
      }
      ranges := ranges + [(lo, hi)];
      assert ClassRanges(p, at) == WithRanges([(lo, hi)], ClassRanges(p, i));
      WithRangesAssoc(before, [(lo, hi)], ClassRanges(p, i));
    }
    assert ranges + [] == ranges;
    if i == |p| {
      return Err(UnterminatedClass);
    }
    if ranges == [] {
      return Err(EmptyClass);
    }
    return Ok((Class(negate, ranges), i));
  }

  method Compile(p: string) returns (r: Result<seq<Token>>)
    ensures r == Compiled(p)
  {
    var tokens, i := [], 0;
    while i < |p|
      invariant 0 <= i <= |p|
      invariant Compiled(p) == WithTokens(tokens, CompiledFrom(p, i))
    {
      ghost var at, before := i, tokens;
      if p[i] == '*' {
        if i + 1 < |p| && p[i + 1] == '*' {
          while i + 1 < |p| && p[i + 1] == '*'
            invariant at <= i < |p| && p[i] == '*'
            invariant StarsEnd(p, at) == StarsEnd(p, i)
            invariant i == at ==> i + 1 < |p| && p[i + 1] == '*'
          {
            i := i + 1;
          }
          tokens := tokens + [DoubleStar];
        } else {
          tokens := tokens + [Star];
        }
      } else if p[i] == '?' {
        tokens := tokens + [Question];
      } else if p[i] == '[' {
        var c := CompileClass(p, i + 1);
        if c.Err? {
          return Err(c.error);
        }
        tokens, i := tokens + [c.value.0], c.value.1;
      } else {
        tokens := tokens + [Literal(p[i])];
      }
      i := i + 1;
      assert NextToken(p, at) == Ok((tokens[|tokens| - 1], i));
      WithTokensAssoc(before, [tokens[|tokens| - 1]], CompiledFrom(p, i));
    }
    assert tokens + [] == tokens;
    return Ok(tokens);
  }

  // ---- Compilation has an inverse -------------------------------------------

  predicate NormalRange(r: (char, char)) {
    r.0 <= r.1 && r.0 != ']' && r.1 != ']'
  }

  predicate NormalToken(t: Token) {
    match t
    case Literal(c) => c != '*' && c != '?' && c != '['
    case Class(negate, ranges) =>
      ranges != [] && (forall i :: 0 <= i < |ranges| ==> NormalRange(ranges[i])) &&
      (!negate ==> ranges[0].0 != '^')
    case _ => true
  }

  // The token lists that compilation produces: in particular two runs are never adjacent.
  predicate Normal(ts: seq<Token>) {
    (forall i :: 0 <= i < |ts| ==> NormalToken(ts[i])) &&
    (forall i :: 0 <= i < |ts| - 1 ==> !(Loops(ts[i]) && Loops(ts[i + 1])))
  }

  function ShowRanges(ranges: seq<(char, char)>): string {
    if ranges == [] then "" else [ranges[0].0, '-', ranges[0].1] + ShowRanges(ranges[1..])
  }

  function ShowToken(t: Token): (s: string)
    ensures s != ""
  {
    match t
    case Literal(c) => [c]
    case Star => "*"
    case DoubleStar => "**"
    case Question => "?"
    case Class(negate, ranges) => (if negate then "[^" else "[") + ShowRanges(ranges) + "]"
  }

  function Show(ts: seq<Token>): string {
    if ts == [] then "" else ShowToken(ts[0]) + Show(ts[1..])
  }

  lemma {:induction false} RangesOfShow(before: string, ranges: seq<(char, char)>, after: string)
    requires forall i :: 0 <= i < |ranges| ==> NormalRange(ranges[i])
    ensures ClassRanges(before + ShowRanges(ranges) + "]" + after, |before|) ==
            Ok((ranges, |before| + |ShowRanges(ranges)|))
    decreases |ranges|
  {
    var p := before + ShowRanges(ranges) + "]" + after;
    if ranges != [] {
      var r := ranges[0];
      var before' := before + [r.0, '-', r.1];
      RangesOfShow(before', ranges[1..], after);
      assert p == before' + ShowRanges(ranges[1..]) + "]" + after;
      assert p[|before|] == r.0 && p[|before| + 1] == '-' && p[|before| + 2] == r.1;
      assert [r] + ranges[1..] == ranges;
    } else {
      assert p[|before|] == ']';
    }
  }

  lemma ClassOfShow(before: string, t: Token, after: string)
    requires NormalToken(t) && t.Class?
    ensures NextToken(before + ShowToken(t) + after, |before|) == Ok((t, |before| + |ShowToken(t)|))
  {
    hide ClassRanges, StarsEnd, ShowRanges, NormalRange;
    var open := if t.negate then "[^" else "[";
    var p := before + open + ShowRanges(t.ranges) + "]" + after;
    RangesOfShow(before + open, t.ranges, after);
    ShowRangesHead(t.ranges);
    assert p[|before|] == '[' && p[|before| + 1] == (if t.negate then '^' else t.ranges[0].0);
    assert before + ShowToken(t) + after == p;
  }

  lemma ShowRangesHead(ranges: seq<(char, char)>)
    requires ranges != []
    ensures ShowRanges(ranges) != "" && ShowRanges(ranges)[0] == ranges[0].0
  {
  }

  lemma StarsOfShow(before: string, t: Token, after: string)
    requires Loops(t) && (after == "" || after[0] != '*')
    ensures NextToken(before + ShowToken(t) + after, |before|) == Ok((t, |before| + |ShowToken(t)|))
  {
    var n := |ShowToken(t)|;
    var p := before + ShowToken(t) + after;
    assert |before| + n < |p| ==> p[|before| + n] == after[0];
    assert forall j :: |before| <= j < |before| + n ==> p[j] == '*';
    assert StarsEnd(p, |before| + n) == |before| + n;
    assert StarsEnd(p, |before|) == |before| + n;
  }

  lemma TokenOfShow(before: string, t: Token, after: string)
    requires NormalToken(t)
    requires Loops(t) ==> after == "" || after[0] != '*'
    ensures NextToken(before + ShowToken(t) + after, |before|) == Ok((t, |before| + |ShowToken(t)|))
  {
    if Loops(t) {
      StarsOfShow(before, t, after);
    } else if t.Class? {
      ClassOfShow(before, t, after);
    } else {
      hide CompiledClass, StarsEnd;
      assert (before + ShowToken(t) + after)[|before|] == ShowToken(t)[0];
    }
  }

  lemma ShowStartsNoRun(t: Token)
    requires NormalToken(t) && !Loops(t)
    ensures ShowToken(t)[0] != '*'
  {
  }

  lemma {:induction false} CompiledOfShow(before: string, ts: seq<Token>)
    requires Normal(ts)
    ensures CompiledFrom(before + Show(ts), |before|) == Ok(ts)
    decreases |ts|
  {
    hide NormalToken, ShowToken, NextToken;
    if ts != [] {
      var s, after := ShowToken(ts[0]), Show(ts[1..]);
      if Loops(ts[0]) && after != "" {
        ShowStartsNoRun(ts[1]);
      }
      TokenOfShow(before, ts[0], after);
      CompiledOfShow(before + s, ts[1..]);
      assert before + Show(ts) == before + s + after == (before + s) + Show(ts[1..]);
      assert [ts[0]] + ts[1..] == ts;
    }
  }

  lemma {:induction false} ClassRangesNormal(p: string, i: nat)
    requires i <= |p| && ClassRanges(p, i).Ok?
    ensures var (ranges, next) := ClassRanges(p, i).value;
            (forall k :: 0 <= k < |ranges| ==> NormalRange(ranges[k])) &&
            (ranges != [] ==> i < |p| && ranges[0].0 == p[i])
    decreases |p| - i
  {
    if i < |p| && p[i] != ']' {
      if i + 2 < |p| && p[i + 1] == '-' && p[i + 2] != ']' {
        ClassRangesNormal(p, i + 3);
      } else {
        ClassRangesNormal(p, i + 1);
      }
    }
  }

  lemma {:induction false} CompiledNormal(p: string, i: nat)
    requires i <= |p| && CompiledFrom(p, i).Ok?
    ensures Normal(CompiledFrom(p, i).value)
    ensures var ts := CompiledFrom(p, i).value; ts != [] && Loops(ts[0]) ==> p[i] == '*'
    decreases |p| - i
  {
    if i < |p| {
      var (t, next) := NextToken(p, i).value;
      CompiledNormal(p, next);
      if p[i] == '[' {
        ClassRangesNormal(p, if i + 1 < |p| && p[i + 1] == '^' then i + 2 else i + 1);
      }
      assert NormalToken(t);
      assert p[i] == '*' ==> next == StarsEnd(p, i);
    }
  }

  // Compilation is onto the normal token lists and each of them has a pattern: a pattern may be
  // replaced by the rendering of its tokens without changing what it compiles to.
  lemma CompileIsInvertible(p: string, ts: seq<Token>)
    ensures Normal(ts) ==> Compiled(Show(ts)) == Ok(ts)
    ensures Compiled(p).Ok? ==> Normal(Compiled(p).value) && Compiled(Show(Compiled(p).value)) == Compiled(p)
  {
    if Normal(ts) {
      CompiledOfShow("", ts);
      assert "" + Show(ts) == Show(ts);
    }
    if Compiled(p).Ok? {
      var out := Compiled(p).value;
      CompiledNormal(p, 0);
      CompiledOfShow("", out);
      assert "" + Show(out) == Show(out);
    }
  }
}
