/** Match, the memoised backtracking matcher (eventplane/routing/routing.go:57-106), against the
    declarative language of its tokens. */
module Matching {
  import opened Routing

  // ---- The language, declaratively ------------------------------------------

  // The slash of "**/": it may match nothing, whatever "**" matched before it.
  predicate Droppable(ts: seq<Token>, i: nat)
    requires i < |ts|
  {
    ts[i] == Literal('/') && i > 0 && ts[i - 1] == DoubleStar
  }

  // What one token matches by itself: a run for the looping tokens, one character for the others.
  predicate PlainPiece(t: Token, piece: string) {
    (Loops(t) || |piece| == 1) && forall i :: 0 <= i < |piece| ==> Takes(t, piece[i])
  }

  function Concat(pieces: seq<string>): string {
    if pieces == [] then "" else pieces[0] + Concat(pieces[1..])
  }

  // The pieces are what the tokens from index pi on match, one each; the first of them is not dropped.
  ghost predicate SplitsFrom(ts: seq<Token>, pi: nat, w: string, pieces: seq<string>)
    requires pi <= |ts|
  {
    |pieces| == |ts| - pi && Concat(pieces) == w &&
    (forall i :: 0 <= i < |pieces| ==>
       PlainPiece(ts[pi + i], pieces[i]) || (i > 0 && pieces[i] == "" && Droppable(ts, pi + i)))
  }

  // The language of a token list: the words that split into one piece per token.
  ghost predicate InLanguage(ts: seq<Token>, w: string) {
    exists pieces :: SplitsFrom(ts, 0, w, pieces)
  }

  // ---- The recursion the matcher memoises -----------------------------------

  predicate SlashNext(ts: seq<Token>, pi: nat) {
    pi + 1 < |ts| && ts[pi + 1] == Literal('/')
  }

  predicate MatchFrom(ts: seq<Token>, w: string, pi: nat, ki: nat)
    requires pi <= |ts| && ki <= |w|
    decreases |ts| - pi, |w| - ki
  {
    if pi == |ts| then ki == |w|
    else
      match ts[pi]
      case Star => MatchFrom(ts, w, pi + 1, ki) || (ki < |w| && w[ki] != '/' && MatchFrom(ts, w, pi, ki + 1))
      case DoubleStar =>
        (SlashNext(ts, pi) && MatchFrom(ts, w, pi + 2, ki)) ||
        MatchFrom(ts, w, pi + 1, ki) ||
        (ki < |w| && MatchFrom(ts, w, pi, ki + 1))
      case _ => ki < |w| && Takes(ts[pi], w[ki]) && MatchFrom(ts, w, pi + 1, ki + 1)
  }

  // A recursion step in terms of the token alone.
  lemma MatchStep(ts: seq<Token>, w: string, pi: nat, ki: nat)
    requires pi < |ts| && ki <= |w|
    ensures MatchFrom(ts, w, pi, ki) ==
            if Loops(ts[pi]) then
              (ts[pi] == DoubleStar && SlashNext(ts, pi) && MatchFrom(ts, w, pi + 2, ki)) ||
              MatchFrom(ts, w, pi + 1, ki) ||
              (ki < |w| && Takes(ts[pi], w[ki]) && MatchFrom(ts, w, pi, ki + 1))
            else ki < |w| && Takes(ts[pi], w[ki]) && MatchFrom(ts, w, pi + 1, ki + 1)
  {
  }

  lemma PrependPiece(ts: seq<Token>, pi: nat, piece: string, w: string, pieces: seq<string>)
    requires pi < |ts| && SplitsFrom(ts, pi + 1, w, pieces) && PlainPiece(ts[pi], piece)
    ensures SplitsFrom(ts, pi, piece + w, [piece] + pieces)
  {
    var all := [piece] + pieces;
    assert all[1..] == pieces;
    forall i | 0 <= i < |all|
      ensures PlainPiece(ts[pi + i], all[i]) || (i > 0 && all[i] == "" && Droppable(ts, pi + i))
    {
      assert i > 0 ==> all[i] == pieces[i - 1] && pi + i == pi + 1 + (i - 1);
    }
  }

  lemma DropSlash(ts: seq<Token>, pi: nat, w: string, pieces: seq<string>)
    requires pi + 1 < |ts| && ts[pi] == DoubleStar && SlashNext(ts, pi) && SplitsFrom(ts, pi + 2, w, pieces)
    ensures SplitsFrom(ts, pi, w, ["", ""] + pieces)
  {
    var all := ["", ""] + pieces;
    assert all[1..] == [""] + pieces && all[1..][1..] == pieces;
    assert Concat(all) == "" + Concat(all[1..]) && Concat(all[1..]) == "" + Concat(pieces);
    forall i | 0 <= i < |all|
      ensures PlainPiece(ts[pi + i], all[i]) || (i > 0 && all[i] == "" && Droppable(ts, pi + i))
    {
      assert i > 1 ==> all[i] == pieces[i - 2] && pi + i == pi + 2 + (i - 2);
    }
  }

  lemma LengthenPiece(ts: seq<Token>, pi: nat, c: char, w: string, pieces: seq<string>)
    requires pi < |ts| && Loops(ts[pi]) && Takes(ts[pi], c) && SplitsFrom(ts, pi, w, pieces)
    ensures SplitsFrom(ts, pi, [c] + w, pieces[0 := [c] + pieces[0]])
  {
    var all := pieces[0 := [c] + pieces[0]];
    assert all[1..] == pieces[1..];
    assert Concat(all) == ([c] + pieces[0]) + Concat(pieces[1..]) == [c] + Concat(pieces);
    assert PlainPiece(ts[pi], all[0]) by {
      assert PlainPiece(ts[pi], pieces[0]);
    }
  }

  lemma {:induction false} MatchSplits(ts: seq<Token>, w: string, pi: nat, ki: nat) returns (pieces: seq<string>)
    requires pi <= |ts| && ki <= |w| && MatchFrom(ts, w, pi, ki)
    ensures SplitsFrom(ts, pi, w[ki..], pieces)
    decreases |ts| - pi, |w| - ki
  {
    hide Takes, SplitsFrom, PlainPiece;
    if pi == |ts| {
      pieces := [];
      EmptySplit(ts);
    } else {
      MatchStep(ts, w, pi, ki);
      hide MatchFrom;
      var t := ts[pi];
      if Loops(t) {
        if t == DoubleStar && SlashNext(ts, pi) && MatchFrom(ts, w, pi + 2, ki) {
          var rest := MatchSplits(ts, w, pi + 2, ki);
          DropSlash(ts, pi, w[ki..], rest);
          pieces := ["", ""] + rest;
        } else if MatchFrom(ts, w, pi + 1, ki) {
          var rest := MatchSplits(ts, w, pi + 1, ki);
          OnePiece(t, "");
          PrependPiece(ts, pi, "", w[ki..], rest);
          pieces := [""] + rest;
          assert "" + w[ki..] == w[ki..];
        } else {
          var rest := MatchSplits(ts, w, pi, ki + 1);
          LengthenPiece(ts, pi, w[ki], w[ki + 1..], rest);
          SplitHasPiece(ts, pi, w[ki + 1..], rest);
          pieces := rest[0 := [w[ki]] + rest[0]];
          assert [w[ki]] + w[ki + 1..] == w[ki..];
        }
      } else {
        var rest := MatchSplits(ts, w, pi + 1, ki + 1);
        OnePiece(t, [w[ki]]);
        PrependPiece(ts, pi, [w[ki]], w[ki + 1..], rest);
        pieces := [[w[ki]]] + rest;
        assert [w[ki]] + w[ki + 1..] == w[ki..];
      }
    }
  }

  lemma EmptySplit(ts: seq<Token>)
    ensures SplitsFrom(ts, |ts|, "", [])
  {
  }

  lemma SplitHasPiece(ts: seq<Token>, pi: nat, w: string, pieces: seq<string>)
    requires pi < |ts| && SplitsFrom(ts, pi, w, pieces)
    ensures |pieces| == |ts| - pi
  {
  }

  lemma OnePiece(t: Token, piece: string)
    requires if Loops(t) then piece == "" else |piece| == 1 && Takes(t, piece[0])
    ensures PlainPiece(t, piece)
  {
  }

  // The split that remains once the first piece is taken off, unless the second piece is dropped.
  lemma RestOfSplit(ts: seq<Token>, pi: nat, w: string, pieces: seq<string>)
    requires pi < |ts| && SplitsFrom(ts, pi, w, pieces)
    ensures PlainPiece(ts[pi], pieces[0]) && w == pieces[0] + Concat(pieces[1..])
    ensures pi + 1 == |ts| || PlainPiece(ts[pi + 1], pieces[1]) ==> SplitsFrom(ts, pi + 1, Concat(pieces[1..]), pieces[1..])
    ensures pi + 1 < |ts| && !PlainPiece(ts[pi + 1], pieces[1]) ==>
              ts[pi] == DoubleStar && SlashNext(ts, pi) && pieces[1] == "" &&
              SplitsFrom(ts, pi + 2, Concat(pieces[1..]), pieces[2..])
  {
    hide PlainPiece, Takes;
    var rest := pieces[1..];
    assert forall i :: 0 <= i < |rest| ==> rest[i] == pieces[i + 1];
    if pi + 1 < |ts| && !PlainPiece(ts[pi + 1], pieces[1]) {
      var rest2 := pieces[2..];
      assert rest[1..] == rest2 && Concat(rest) == "" + Concat(rest2);
      assert Droppable(ts, pi + 1);
      forall i | 0 <= i < |rest2|
        ensures PlainPiece(ts[pi + 2 + i], rest2[i]) || (i > 0 && rest2[i] == "" && Droppable(ts, pi + 2 + i))
      {
        assert rest2[i] == pieces[i + 2];
      }
    }
  }

  lemma ShortenPiece(ts: seq<Token>, pi: nat, w: string, pieces: seq<string>)
    requires pi < |ts| && Loops(ts[pi]) && SplitsFrom(ts, pi, w, pieces) && pieces[0] != ""
    ensures w != "" && Takes(ts[pi], w[0]) && SplitsFrom(ts, pi, w[1..], pieces[0 := pieces[0][1..]])
  {
    hide Takes;
    var all := pieces[0 := pieces[0][1..]];
    assert all[1..] == pieces[1..];
    assert w == pieces[0] + Concat(pieces[1..]);
    assert w[1..] == pieces[0][1..] + Concat(pieces[1..]);
    assert w[0] == pieces[0][0];
    assert PlainPiece(ts[pi], all[0]);
  }

  lemma {:induction false} SplitMatches(ts: seq<Token>, w: string, pi: nat, ki: nat, pieces: seq<string>)
    requires pi <= |ts| && ki <= |w| && SplitsFrom(ts, pi, w[ki..], pieces)
    ensures MatchFrom(ts, w, pi, ki)
    decreases |ts| - pi, |w| - ki
  {
    hide Takes, SplitsFrom, PlainPiece, MatchFrom;
    if pi == |ts| {
      EmptySplitWord(ts, w, ki, pieces);
    } else {
      MatchStep(ts, w, pi, ki);
      RestOfSplit(ts, pi, w[ki..], pieces);
      SplitHasPiece(ts, pi, w[ki..], pieces);
      if Loops(ts[pi]) && pieces[0] != "" {
        ShortenPiece(ts, pi, w[ki..], pieces);
        assert w[ki..][1..] == w[ki + 1..];
        SplitMatches(ts, w, pi, ki + 1, pieces[0 := pieces[0][1..]]);
      } else if Loops(ts[pi]) {
        assert Concat(pieces[1..]) == w[ki..];
        if pi + 1 < |ts| && !PlainPiece(ts[pi + 1], pieces[1]) {
          SplitMatches(ts, w, pi + 2, ki, pieces[2..]);
        } else {
          SplitMatches(ts, w, pi + 1, ki, pieces[1..]);
        }
      } else {
        OneCharacter(ts[pi], pieces[0]);
        assert w[ki..][0] == pieces[0][0] && w[ki..][1..] == w[ki + 1..] == Concat(pieces[1..]);
        SplitMatches(ts, w, pi + 1, ki + 1, pieces[1..]);
      }
    }
  }

  lemma EmptySplitWord(ts: seq<Token>, w: string, ki: nat, pieces: seq<string>)
    requires ki <= |w| && SplitsFrom(ts, |ts|, w[ki..], pieces)
    ensures MatchFrom(ts, w, |ts|, ki)
  {
    assert pieces == [];
  }

  lemma OneCharacter(t: Token, piece: string)
    requires !Loops(t) && PlainPiece(t, piece)
    ensures |piece| == 1 && Takes(t, piece[0])
  {
  }

  // The recursion decides exactly the declarative language.
  lemma MatchDecidesLanguage(ts: seq<Token>, w: string)
    ensures MatchFrom(ts, w, 0, 0) <==> InLanguage(ts, w)
  {
    assert w[0..] == w;
    if MatchFrom(ts, w, 0, 0) {
      var pieces := MatchSplits(ts, w, 0, 0);
      assert SplitsFrom(ts, 0, w, pieces);
    }
    if InLanguage(ts, w) {
      var pieces :| SplitsFrom(ts, 0, w, pieces);
      SplitMatches(ts, w, 0, 0, pieces);
    }
  }

  // ---- The memoised matcher -------------------------------------------------

  datatype State = State(pi: nat, ki: nat)

  // s is not above (pi, ki) in the lexicographic order that the recursion descends.
  predicate AtOrBelow(s: State, pi: nat, ki: nat) {
    s.pi > pi || (s.pi == pi && s.ki >= ki)
  }

  ghost predicate RightEntry(ts: seq<Token>, w: string, memo: map<State, bool>, s: State) {
    s.pi <= |ts| && s.ki <= |w| && s in memo && memo[s] == MatchFrom(ts, w, s.pi, s.ki)
  }

  // Every visited state at or below (pi, ki) is finished and its memo entry right. The states
  // above are the ones still on the call stack.
  ghost predicate MemoOk(ts: seq<Token>, w: string, seen: set<State>, memo: map<State, bool>, pi: nat, ki: nat) {
    forall s :: s in seen && AtOrBelow(s, pi, ki) ==> RightEntry(ts, w, memo, s)
  }

  // What a call at (pi, ki) changes: it visits and writes only states at or below its own.
  ghost predicate Touched(pi: nat, ki: nat, seen: set<State>, memo: map<State, bool>, seen': set<State>,
          memo': map<State, bool>) {
    seen <= seen' &&
    (forall s :: s in seen' && s !in seen ==> AtOrBelow(s, pi, ki)) &&
    (forall s :: s in memo && !AtOrBelow(s, pi, ki) ==> s in memo' && memo'[s] == memo[s])
  }

  // The same inside the call, while (pi, ki) itself is open.
  ghost predicate Open(ts: seq<Token>, w: string, pi: nat, ki: nat,
                       seen: set<State>, memo: map<State, bool>, seen': set<State>, memo': map<State, bool>) {
    Touched(pi, ki, seen, memo, seen', memo') && State(pi, ki) in seen' &&
    forall s :: s in seen' && AtOrBelow(s, pi, ki) && s != State(pi, ki) ==> RightEntry(ts, w, memo', s)
  }

  lemma OpenToCall(ts: seq<Token>, w: string, pi: nat, ki: nat, seen: set<State>, memo: map<State, bool>,
                   seen': set<State>, memo': map<State, bool>, pi2: nat, ki2: nat)
    requires Open(ts, w, pi, ki, seen, memo, seen', memo')
    requires pi2 > pi || (pi2 == pi && ki2 > ki)
    ensures MemoOk(ts, w, seen', memo', pi2, ki2)
  {
    hide RightEntry;
  }

  lemma CallToOpen(ts: seq<Token>, w: string, pi: nat, ki: nat, seen: set<State>, memo: map<State, bool>,
                   seen1: set<State>, memo1: map<State, bool>, pi2: nat, ki2: nat, seen2: set<State>, memo2: map<State, bool>)
    requires Open(ts, w, pi, ki, seen, memo, seen1, memo1)
    requires pi2 > pi || (pi2 == pi && ki2 > ki)
    requires Touched(pi2, ki2, seen1, memo1, seen2, memo2) && MemoOk(ts, w, seen2, memo2, pi2, ki2)
    ensures Open(ts, w, pi, ki, seen, memo, seen2, memo2)
  {
    hide MatchFrom;
  }

  // One recursive call made while (pi, ki) is open.
  method CallBelow(ts: seq<Token>, w: string, pi: nat, ki: nat, ghost seen: set<State>, ghost memo: map<State, bool>,
                   seen1: set<State>, memo1: map<State, bool>, pi2: nat, ki2: nat)
    returns (ok: bool, seen2: set<State>, memo2: map<State, bool>)
    requires pi2 <= |ts| && ki2 <= |w| && (pi2 > pi || (pi2 == pi && ki2 > ki))
    requires Open(ts, w, pi, ki, seen, memo, seen1, memo1)
    ensures ok == MatchFrom(ts, w, pi2, ki2)
    ensures Open(ts, w, pi, ki, seen, memo, seen2, memo2)
    decreases |ts| - pi2, |w| - ki2, 1
  {
    hide Open, MemoOk, Touched, MatchFrom;
    OpenToCall(ts, w, pi, ki, seen, memo, seen1, memo1, pi2, ki2);
    ok, seen2, memo2 := MatchAt(ts, w, pi2, ki2, seen1, memo1);
    CallToOpen(ts, w, pi, ki, seen, memo, seen1, memo1, pi2, ki2, seen2, memo2);
  }

  lemma OpenState(ts: seq<Token>, w: string, pi: nat, ki: nat, seen: set<State>, memo: map<State, bool>)
    requires MemoOk(ts, w, seen, memo, pi, ki)
    ensures Open(ts, w, pi, ki, seen, memo, seen + {State(pi, ki)}, memo)
  {
    hide RightEntry;
  }

  lemma CloseState(ts: seq<Token>, w: string, pi: nat, ki: nat, seen: set<State>, memo: map<State, bool>,
                   seen': set<State>, memo': map<State, bool>, ok: bool)
    requires pi <= |ts| && ki <= |w| && ok == MatchFrom(ts, w, pi, ki)
    requires Open(ts, w, pi, ki, seen, memo, seen', memo')
    ensures Touched(pi, ki, seen, memo, seen', memo'[State(pi, ki) := ok])
    ensures MemoOk(ts, w, seen', memo'[State(pi, ki) := ok], pi, ki)
  {
    hide MatchFrom;
  }

  lemma SeenEntry(ts: seq<Token>, w: string, pi: nat, ki: nat, seen: set<State>, memo: map<State, bool>)
    requires pi <= |ts| && ki <= |w| && MemoOk(ts, w, seen, memo, pi, ki) && State(pi, ki) in seen
    ensures State(pi, ki) in memo && memo[State(pi, ki)] == MatchFrom(ts, w, pi, ki)
    ensures Touched(pi, ki, seen, memo, seen, memo)
  {
    hide MatchFrom;
    assert AtOrBelow(State(pi, ki), pi, ki) && RightEntry(ts, w, memo, State(pi, ki));
  }

  // The recursive closure of Match, with its two maps passed along.
  method MatchAt(ts: seq<Token>, w: string, pi: nat, ki: nat, seen: set<State>, memo: map<State, bool>)
    returns (ok: bool, seen': set<State>, memo': map<State, bool>)
    requires pi <= |ts| && ki <= |w| && MemoOk(ts, w, seen, memo, pi, ki)
    ensures ok == MatchFrom(ts, w, pi, ki)
    ensures Touched(pi, ki, seen, memo, seen', memo') && MemoOk(ts, w, seen', memo', pi, ki)
    decreases |ts| - pi, |w| - ki, 0
  {
    if pi < |ts| {
      MatchStep(ts, w, pi, ki);
    }
    hide Open, MemoOk, Touched, MatchFrom;
    if State(pi, ki) in seen {
      SeenEntry(ts, w, pi, ki, seen, memo);
      return memo[State(pi, ki)], seen, memo;
    }
    OpenState(ts, w, pi, ki, seen, memo);
    seen', memo' := seen + {State(pi, ki)}, memo;
    if pi == |ts| {
      ok := ki == |w|;
      MatchAtEnd(ts, w, ki);
    } else {
      match ts[pi] {
        case Literal(c) =>
          ok := ki < |w| && w[ki] == c;
          if ok {
            ok, seen', memo' := CallBelow(ts, w, pi, ki, seen, memo, seen', memo', pi + 1, ki + 1);
          }
        case Question =>
          ok := ki < |w| && w[ki] != '/';
          if ok {
            ok, seen', memo' := CallBelow(ts, w, pi, ki, seen, memo, seen', memo', pi + 1, ki + 1);
          }
        case Star =>
          ok, seen', memo' := CallBelow(ts, w, pi, ki, seen, memo, seen', memo', pi + 1, ki);
          if !ok && ki < |w| && w[ki] != '/' {
            ok, seen', memo' := CallBelow(ts, w, pi, ki, seen, memo, seen', memo', pi, ki + 1);
          }
        case DoubleStar =>
          ok := false;
          if SlashNext(ts, pi) {
            ok, seen', memo' := CallBelow(ts, w, pi, ki, seen, memo, seen', memo', pi + 2, ki);
          }
          if !ok {
            ok, seen', memo' := CallBelow(ts, w, pi, ki, seen, memo, seen', memo', pi + 1, ki);
          }
          if !ok && ki < |w| {
            ok, seen', memo' := CallBelow(ts, w, pi, ki, seen, memo, seen', memo', pi, ki + 1);
          }
        case Class(negate, ranges) =>
          ok := ki < |w| && w[ki] != '/';
          if ok {
            var inside := InsideAny(ranges, w[ki]);
            ok := inside != negate;
            if ok {
              ok, seen', memo' := CallBelow(ts, w, pi, ki, seen, memo, seen', memo', pi + 1, ki + 1);
            }
          }
      }
    }
    CloseState(ts, w, pi, ki, seen, memo, seen', memo', ok);
    memo' := memo'[State(pi, ki) := ok];
  }

  lemma MatchAtEnd(ts: seq<Token>, w: string, ki: nat)
    requires ki <= |w|
    ensures MatchFrom(ts, w, |ts|, ki) == (ki == |w|)
  {
  }

  // Match: a malformed pattern is an error; otherwise the answer is membership of the whole key in
  // the language of the compiled tokens.
  method Match(pattern: string, key: string) returns (r: Result<bool>)
    ensures Compiled(pattern).Err? ==> r == Err(Compiled(pattern).error)
    ensures Compiled(pattern).Ok? ==> r.Ok? && (r.value <==> InLanguage(Compiled(pattern).value, key))
  {
    var compiled := Compile(pattern);
    if compiled.Err? {
      return Err(compiled.error);
    }
    hide MatchFrom, InLanguage;
    var ok, _, _ := MatchAt(compiled.value, key, 0, 0, {}, map[]);
    MatchDecidesLanguage(compiled.value, key);
    return Ok(ok);
  }
}
