/** CouldMatchSubject, the automaton search over open subjects (eventplane/routing/routing.go:108-206),
    and its relation to the language that Match decides. */
module SubjectSearch {
  import opened Routing
  import opened Matching

  // ---- The automaton --------------------------------------------------------

  // The states: how many tokens are behind.
  predicate IsState(ts: seq<Token>, j: int) {
    0 <= j <= |ts|
  }

  function States(ts: seq<Token>): set<int> {
    set j | 0 <= j <= |ts| && IsState(ts, j)
  }

  // All tokens from i up to j may match nothing.
  predicate Skips(ts: seq<Token>, i: int, j: int) {
    0 <= i <= j <= |ts| && forall k :: i <= k < j ==> Loops(ts[k])
  }

  function Closure(ts: seq<Token>, states: set<int>): set<int> {
    set j | j in States(ts) && exists i :: i in states && Skips(ts, i, j)
  }

  predicate Moves(ts: seq<Token>, i: int, c: char, j: int) {
    0 <= i < |ts| && Takes(ts[i], c) && j == if Loops(ts[i]) then i else i + 1
  }

  function Advanced(ts: seq<Token>, states: set<int>, c: char): set<int> {
    set j | j in States(ts) && exists i :: i in states && Moves(ts, i, c, j)
  }

  function Step(ts: seq<Token>, states: set<int>, c: char): set<int> {
    Closure(ts, Advanced(ts, states, c))
  }

  // The states after reading w.
  function Run(ts: seq<Token>, states: set<int>, w: string): set<int> {
    if w == "" then states else Step(ts, Run(ts, states, w[..|w| - 1]), w[|w| - 1])
  }

  function Start(ts: seq<Token>): set<int> {
    Closure(ts, {0})
  }

  lemma SkipsTransitive(ts: seq<Token>, i: int, j: int, k: int)
    requires Skips(ts, i, j) && Skips(ts, j, k)
    ensures Skips(ts, i, k)
  {
  }

  lemma ClosureClosed(ts: seq<Token>, states: set<int>, i: int, j: int)
    requires i in Closure(ts, states) && Skips(ts, i, j)
    ensures j in Closure(ts, states)
  {
    var h :| h in states && Skips(ts, h, i);
    SkipsTransitive(ts, h, i, j);
  }

  // A state set that is its own closure stays so along a run.
  ghost predicate Closed(ts: seq<Token>, states: set<int>) {
    states <= States(ts) && forall i, j :: i in states && Skips(ts, i, j) ==> j in states
  }

  lemma ClosureIsClosed(ts: seq<Token>, states: set<int>)
    ensures Closed(ts, Closure(ts, states))
  {
    forall i, j | i in Closure(ts, states) && Skips(ts, i, j)
      ensures j in Closure(ts, states)
    {
      ClosureClosed(ts, states, i, j);
    }
  }

  lemma RunClosed(ts: seq<Token>, states: set<int>, w: string)
    requires Closed(ts, states)
    ensures Closed(ts, Run(ts, states, w))
  {
    if w != "" {
      ClosureIsClosed(ts, Advanced(ts, Run(ts, states, w[..|w| - 1]), w[|w| - 1]));
    }
  }

  lemma {:induction false} RunConcat(ts: seq<Token>, states: set<int>, u: string, v: string)
    ensures Run(ts, states, u + v) == Run(ts, Run(ts, states, u), v)
    decreases |v|
  {
    if v == "" {
      assert u + v == u;
    } else {
      RunConcat(ts, states, u, v[..|v| - 1]);
      assert (u + v)[..|u + v| - 1] == u + v[..|v| - 1];
    }
  }

  // ---- The loops of the source ----------------------------------------------

  lemma NonEmpty(s: set<int>)
    ensures s == {} || exists i :: i in s
  {
    if !exists i :: i in s {
      assert s == {};
    }
  }

  method Queue(states: set<int>) returns (queue: seq<int>)
    ensures forall i :: i in queue <==> i in states
  {
    queue := [];
    var todo := states;
    while todo != {}
      invariant todo <= states
      invariant forall i :: i in states <==> i in queue || i in todo
      decreases todo
    {
      NonEmpty(todo);
      var i :| i in todo;
      queue := queue + [i];
      todo := todo - {i};
    }
  }

  lemma ClosureBasics(ts: seq<Token>, states: set<int>)
    requires states <= States(ts)
    ensures states <= Closure(ts, states) <= States(ts)
  {
    forall i | i in states
      ensures i in Closure(ts, states)
    {
      assert Skips(ts, i, i);
    }
  }

  lemma ClosureNext(ts: seq<Token>, states: set<int>, i: int)
    requires i in Closure(ts, states) && i < |ts| && Loops(ts[i])
    ensures i + 1 in Closure(ts, states)
  {
    assert Skips(ts, i, i + 1);
    ClosureClosed(ts, states, i, i + 1);
  }

  lemma ClosedContainsClosure(ts: seq<Token>, states: set<int>, out: set<int>)
    requires states <= out
    requires forall k :: k in out && 0 <= k < |ts| && Loops(ts[k]) ==> k + 1 in out
    ensures Closure(ts, states) <= out
  {
    forall j | j in Closure(ts, states)
      ensures j in out
    {
      var i :| i in states && Skips(ts, i, j);
      SkipsStay(ts, out, i, j);
    }
  }

  function Elements(queue: seq<int>): set<int> {
    set i | i in queue
  }

  lemma QueueElements(states: set<int>, queue: seq<int>)
    requires forall i :: i in queue <==> i in states
    ensures Elements(queue) == states
  {
    assert forall i :: i in Elements(queue) <==> i in states;
  }

  lemma ElementsTail(queue: seq<int>)
    requires queue != []
    ensures Elements(queue) == {queue[0]} + Elements(queue[1..])
  {
    assert queue == [queue[0]] + queue[1..];
  }

  lemma ElementsSnoc(queue: seq<int>, i: int)
    ensures Elements(queue + [i]) == Elements(queue) + {i}
  {
  }

  predicate Skip(ts: seq<Token>, i: int) {
    0 <= i < |ts| && Loops(ts[i])
  }

  // Between two rounds of the closure loop.
  ghost predicate Exploring(ts: seq<Token>, states: set<int>, out: set<int>, pending: set<int>) {
    (forall j :: j in out || j in pending ==> j in Closure(ts, states)) &&
    (forall j :: j in states ==> j in out || j in pending) &&
    (forall i :: i in out && Skip(ts, i) ==> i + 1 in out || i + 1 in pending)
  }

  lemma Explored(ts: seq<Token>, states: set<int>, out: set<int>, i: int, pending: set<int>, pending': set<int>)
    requires states <= States(ts) && Exploring(ts, states, out, {i} + pending)
    requires pending' == if Skip(ts, i) then pending + {i + 1} else pending
    ensures i in States(ts) && Exploring(ts, states, out + {i}, pending')
  {
    assert i in {i} + pending;
    ClosureBasics(ts, states);
    if Skip(ts, i) {
      ClosureNext(ts, states, i);
    }
    hide Closure, States, Skip;
  }

  lemma ExploredAll(ts: seq<Token>, states: set<int>, out: set<int>)
    requires states <= States(ts) && Exploring(ts, states, out, {})
    ensures out == Closure(ts, states)
  {
    hide Closure, States;
    assert forall k :: k in out && 0 <= k < |ts| && Loops(ts[k]) ==> Skip(ts, k) && k + 1 in out;
    assert forall j :: j in states ==> j in out;
    ClosedContainsClosure(ts, states, out);
    assert forall j :: j in out <==> j in Closure(ts, states);
  }

  method EpsilonClosure(ts: seq<Token>, states: set<int>) returns (out: set<int>)
    requires states <= States(ts)
    ensures out == Closure(ts, states)
  {
    out := {};
    var queue := Queue(states);
    ClosureBasics(ts, states);
    QueueElements(states, queue);
    ghost var left := States(ts);
    hide Closure, States, Elements, Exploring;
    Begin(ts, states);
    while queue != []
      invariant Exploring(ts, states, out, Elements(queue))
      invariant forall j :: j in States(ts) ==> j in out || j in left
      decreases left, |queue|
    {
      var i := queue[0];
      ElementsTail(queue);
      queue := queue[1..];
      ghost var pending := Elements(queue);
      if i !in out {
        if i < |ts| && (ts[i] == Star || ts[i] == DoubleStar) {
          ElementsSnoc(queue, i + 1);
          queue := queue + [i + 1];
        }
        Explored(ts, states, out, i, pending, Elements(queue));
        out := out + {i};
        left := left - {i};
      } else {
        Seen(ts, states, out, i, pending);
      }
    }
    NothingLeft();
    ExploredAll(ts, states, out);
  }

  lemma Begin(ts: seq<Token>, states: set<int>)
    requires states <= Closure(ts, states)
    ensures Exploring(ts, states, {}, states)
  {
    hide Closure;
  }

  lemma Seen(ts: seq<Token>, states: set<int>, out: set<int>, i: int, pending: set<int>)
    requires Exploring(ts, states, out, {i} + pending) && i in out
    ensures Exploring(ts, states, out, pending)
  {
    hide Closure, Skip;
  }

  lemma NothingLeft()
    ensures Elements([]) == {}
  {
  }

  lemma SkipsStay(ts: seq<Token>, out: set<int>, i: int, j: int)
    requires i in out && Skips(ts, i, j)
    requires forall k :: k in out && 0 <= k < |ts| && Loops(ts[k]) ==> k + 1 in out
    ensures j in out
    decreases j - i
  {
    if i < j {
      SkipsStay(ts, out, i + 1, j);
    }
  }

  method Advance(ts: seq<Token>, states: set<int>, c: char) returns (out: set<int>)
    requires states <= States(ts)
    ensures out == Advanced(ts, states, c)
  {
    out := {};
    var todo := states;
    while todo != {}
      invariant todo <= states
      invariant out == Advanced(ts, states - todo, c)
      decreases todo
    {
      var i :| i in todo;
      todo := todo - {i};
      ghost var done := states - todo;
      assert done == (done - {i}) + {i};
      if i != |ts| {
        var t := ts[i];
        var matches := (t.Literal? && t.c == c) || (t.Question? && c != '/') || (t.Star? && c != '/') || t.DoubleStar?;
        if t.Class? && c != '/' {
          var inside := InsideAny(t.ranges, c);
          matches := inside != t.negate;
        }
        AdvancedOne(ts, done - {i}, i, c);
        assert matches == Takes(t, c);
        if matches {
          if t.Star? || t.DoubleStar? {
            out := out + {i};
          } else {
            out := out + {i + 1};
          }
        }
      } else {
        AdvancedOne(ts, done - {i}, i, c);
      }
    }
    assert states - {} == states;
  }

  lemma AdvancedOne(ts: seq<Token>, states: set<int>, i: int, c: char)
    requires 0 <= i <= |ts|
    ensures Advanced(ts, states + {i}, c) ==
            Advanced(ts, states, c) +
            (if i < |ts| && Takes(ts[i], c) then {if Loops(ts[i]) then i else i + 1} else {})
  {
    hide Takes;
    var one := if i < |ts| && Takes(ts[i], c) then {if Loops(ts[i]) then i else i + 1} else {};
    forall j
      ensures j in Advanced(ts, states + {i}, c) <==> j in Advanced(ts, states, c) + one
    {
      if j in Advanced(ts, states, c) {
        var h :| h in states && Moves(ts, h, c, j);
        assert h in states + {i};
      }
      if j in one {
        assert Moves(ts, i, c, j);
      }
    }
  }

  // ---- What the automaton accepts -------------------------------------------

  // The pieces are matched by the first j tokens, the loose end by the looping token at j.
  ghost predicate Covers(ts: seq<Token>, j: int, w: string, pieces: seq<string>, v: string) {
    0 <= j <= |ts| && |pieces| == j && Concat(pieces) + v == w &&
    (forall i :: 0 <= i < j ==> PlainPiece(ts[i], pieces[i])) &&
    (v == "" || (j < |ts| && Loops(ts[j]) && PlainPiece(ts[j], v)))
  }

  ghost predicate At(ts: seq<Token>, j: int, w: string) {
    exists pieces, v :: Covers(ts, j, w, pieces, v)
  }

  // The words that split into one piece per token, no slash dropped.
  ghost predicate InPlain(ts: seq<Token>, w: string) {
    exists pieces :: Covers(ts, |ts|, w, pieces, "")
  }

  lemma {:induction false} ConcatSnoc(pieces: seq<string>, piece: string)
    ensures Concat(pieces + [piece]) == Concat(pieces) + piece
  {
    if pieces == [] {
      assert ([] + [piece])[1..] == [];
    } else {
      ConcatSnoc(pieces[1..], piece);
      assert (pieces + [piece])[1..] == pieces[1..] + [piece];
    }
  }

  lemma CoversSnoc(ts: seq<Token>, j: int, w: string, pieces: seq<string>, piece: string)
    requires Covers(ts, j, w, pieces, "") && j < |ts| && PlainPiece(ts[j], piece)
    ensures Covers(ts, j + 1, w + piece, pieces + [piece], "")
  {
    hide PlainPiece;
    ConcatSnoc(pieces, piece);
    assert w + "" == w;
    assert w + piece + "" == w + piece;
  }

  lemma CoversSplitLast(ts: seq<Token>, j: int, w: string, pieces: seq<string>)
    requires Covers(ts, j, w, pieces, "") && j > 0
    ensures var last := pieces[j - 1];
            PlainPiece(ts[j - 1], last) && |last| <= |w| && w == w[..|w| - |last|] + last &&
            Covers(ts, j - 1, w[..|w| - |last|], pieces[..j - 1], "")
  {
    hide PlainPiece;
    var last, rest := pieces[j - 1], pieces[..j - 1];
    assert pieces == rest + [last];
    ConcatSnoc(rest, last);
    assert w == Concat(rest) + last;
    assert w[..|w| - |last|] == Concat(rest);
    assert Concat(rest) + "" == Concat(rest);
  }

  lemma AtSkips(ts: seq<Token>, i: int, j: int, w: string)
    requires At(ts, i, w) && Skips(ts, i, j)
    ensures At(ts, j, w)
    decreases j - i
  {
    if i < j {
      var pieces, v :| Covers(ts, i, w, pieces, v);
      assert PlainPiece(ts[i], v);
      assert Covers(ts, i, Concat(pieces), pieces, "") by {
        assert Concat(pieces) + "" == Concat(pieces);
      }
      CoversSnoc(ts, i, Concat(pieces), pieces, v);
      AtSkips(ts, i + 1, j, w);
    }
  }

  lemma AtMoves(ts: seq<Token>, i: int, c: char, j: int, w: string)
    requires At(ts, i, w) && Moves(ts, i, c, j)
    ensures At(ts, j, w + [c])
  {
    hide Takes;
    var pieces, v :| Covers(ts, i, w, pieces, v);
    if Loops(ts[i]) {
      assert PlainPiece(ts[i], v + [c]);
      assert Concat(pieces) + (v + [c]) == w + [c];
      assert Covers(ts, i, w + [c], pieces, v + [c]);
    } else {
      assert PlainPiece(ts[i], [c]);
      CoversSnoc(ts, i, w, pieces, [c]);
    }
  }

  lemma CutLast(a: string, b: string, w: string, c: char)
    requires a + b == w + [c] && b != ""
    ensures b == b[..|b| - 1] + [c] && w == a + b[..|b| - 1]
  {
    assert b[|b| - 1] == (a + b)[|w|];
    assert w == (a + b)[..|w|];
  }

  lemma BackFromLooseEnd(ts: seq<Token>, j: int, w: string, c: char, pieces: seq<string>, v: string)
    requires Covers(ts, j, w + [c], pieces, v) && v != ""
    ensures Covers(ts, j, w, pieces, v[..|v| - 1]) && Moves(ts, j, c, j)
  {
    hide Takes;
    CutLast(Concat(pieces), v, w, c);
    assert Takes(ts[j], v[|v| - 1]);
  }

  lemma BackFromPiece(ts: seq<Token>, j: int, w: string, c: char, pieces: seq<string>)
    requires Covers(ts, j, w + [c], pieces, "") && j > 0 && pieces[j - 1] != ""
    ensures At(ts, j - 1, w) && exists i :: Moves(ts, j - 1, c, i) && Skips(ts, i, j)
  {
    hide Takes;
    CoversSplitLast(ts, j, w + [c], pieces);
    var last, rest := pieces[j - 1], pieces[..j - 1];
    var before := (w + [c])[..|w| + 1 - |last|];
    CutLast(before, last, w, c);
    assert Takes(ts[j - 1], last[|last| - 1]);
    assert Concat(rest) == before by {
      assert Concat(rest) + "" == Concat(rest);
    }
    if Loops(ts[j - 1]) {
      assert Covers(ts, j - 1, w, rest, last[..|last| - 1]);
      assert Moves(ts, j - 1, c, j - 1) && Skips(ts, j - 1, j);
    } else {
      assert last == [c] && w == before;
      assert Covers(ts, j - 1, w, rest, "");
      assert Moves(ts, j - 1, c, j) && Skips(ts, j, j);
    }
  }

  // The state before the last character, and the move on it.
  lemma AtBack(ts: seq<Token>, j: int, w: string, c: char) returns (h: int, i: int)
    requires At(ts, j, w + [c])
    ensures At(ts, h, w) && Moves(ts, h, c, i) && Skips(ts, i, j)
    decreases j
  {
    hide Takes, Moves;
    var pieces, v :| Covers(ts, j, w + [c], pieces, v);
    if v != "" {
      BackFromLooseEnd(ts, j, w, c, pieces, v);
      h, i := j, j;
      assert Covers(ts, j, w, pieces, v[..|v| - 1]);
    } else {
      NotEmptyAtZero(ts, j, w + [c], pieces);
      CoversSplitLast(ts, j, w + [c], pieces);
      if pieces[j - 1] == "" {
        assert (w + [c])[..|w| + 1] == w + [c];
        h, i := AtBack(ts, j - 1, w, c);
        SkipsTransitive(ts, i, j - 1, j);
      } else {
        BackFromPiece(ts, j, w, c, pieces);
        h := j - 1;
        i :| Moves(ts, h, c, i) && Skips(ts, i, j);
      }
    }
  }

  lemma NotEmptyAtZero(ts: seq<Token>, j: int, w: string, pieces: seq<string>)
    requires Covers(ts, j, w, pieces, "") && w != ""
    ensures j > 0
  {
    assert Concat(pieces) + "" == w;
  }

  lemma AtStart(ts: seq<Token>, j: int)
    ensures j in Start(ts) <==> At(ts, j, "")
  {
    if j in Start(ts) {
      assert Skips(ts, 0, j);
      assert Covers(ts, 0, "", [], "");
      AtSkips(ts, 0, j, "");
    }
    if At(ts, j, "") {
      var pieces, v :| Covers(ts, j, "", pieces, v);
      assert v == "";
      EmptyPieces(pieces);
      assert forall k :: 0 <= k < j ==> PlainPiece(ts[k], pieces[k]) && Loops(ts[k]);
      assert Skips(ts, 0, j);
    }
  }

  lemma {:induction false} EmptyPieces(pieces: seq<string>)
    requires Concat(pieces) == ""
    ensures forall i :: 0 <= i < |pieces| ==> pieces[i] == ""
  {
    if pieces != [] {
      assert |pieces[0]| + |Concat(pieces[1..])| == 0;
      EmptyPieces(pieces[1..]);
    }
  }

  // The states after reading w are the token counts that w can be at.
  lemma {:induction false} RunIsAt(ts: seq<Token>, w: string, j: int)
    ensures j in Run(ts, Start(ts), w) <==> At(ts, j, w)
    decreases |w|
  {
    if w == "" {
      AtStart(ts, j);
    } else {
      var w', c := w[..|w| - 1], w[|w| - 1];
      assert w == w' + [c];
      var before := Run(ts, Start(ts), w');
      if j in Run(ts, Start(ts), w) {
        var i :| i in Advanced(ts, before, c) && Skips(ts, i, j);
        var h :| h in before && Moves(ts, h, c, i);
        RunIsAt(ts, w', h);
        AtMoves(ts, h, c, i, w');
        AtSkips(ts, i, j, w);
      }
      if At(ts, j, w) {
        var h, i := AtBack(ts, j, w', c);
        RunIsAt(ts, w', h);
        assert i in Advanced(ts, before, c);
      }
    }
  }

  // The automaton accepts exactly the plain language.
  lemma AcceptsPlain(ts: seq<Token>, w: string)
    ensures |ts| in Run(ts, Start(ts), w) <==> InPlain(ts, w)
  {
    RunIsAt(ts, w, |ts|);
    if At(ts, |ts|, w) {
      var pieces, v :| Covers(ts, |ts|, w, pieces, v);
      assert v == "";
    }
  }

  // ---- The search over subjects ---------------------------------------------

  function Endpoints(ranges: seq<(char, char)>): seq<char> {
    if ranges == [] then [] else [ranges[0].0, ranges[0].1] + Endpoints(ranges[1..])
  }

  function TokenChars(t: Token): seq<char> {
    match t
    case Literal(c) => [c]
    case Class(_, ranges) => Endpoints(ranges)
    case _ => []
  }

  function TokensChars(ts: seq<Token>): seq<char> {
    if ts == [] then [] else TokenChars(ts[0]) + TokensChars(ts[1..])
  }

  const BASE_ALPHABET := ['a', '/', ':', '0', '-', '_', '.']

  // The characters the search tries, line breaks among them being skipped.
  function Alphabet(ts: seq<Token>): seq<char> {
    BASE_ALPHABET + TokensChars(ts)
  }

  predicate SearchChar(ts: seq<Token>, c: char) {
    c in Alphabet(ts) && c != '\n' && c != '\r'
  }

  predicate SearchWord(ts: seq<Token>, w: string) {
    forall i :: 0 <= i < |w| ==> SearchChar(ts, w[i])
  }

  method AppendEndpoints(alphabet: seq<char>, ranges: seq<(char, char)>) returns (r: seq<char>)
    ensures r == alphabet + Endpoints(ranges)
  {
    r := alphabet;
    for k := 0 to |ranges|
      invariant r + Endpoints(ranges[k..]) == alphabet + Endpoints(ranges)
    {
      assert ranges[k..][1..] == ranges[k + 1..];
      r := r + [ranges[k].0, ranges[k].1];
    }
    assert ranges[|ranges|..] == [];
  }

  lemma AlphabetStep(ts: seq<Token>, i: nat, before: seq<char>)
    requires i < |ts|
    ensures before + TokensChars(ts[i..]) == (before + TokenChars(ts[i])) + TokensChars(ts[i + 1..])
  {
    hide TokenChars;
    assert ts[i..][1..] == ts[i + 1..];
  }

  lemma NoTokensChars()
    ensures TokensChars([]) == []
  {
  }

  method BuildAlphabet(ts: seq<Token>) returns (alphabet: seq<char>)
    ensures alphabet == Alphabet(ts)
  {
    hide Endpoints, TokensChars;
    alphabet := BASE_ALPHABET;
    assert ts[0..] == ts;
    for i := 0 to |ts|
      invariant alphabet + TokensChars(ts[i..]) == Alphabet(ts)
    {
      AlphabetStep(ts, i, alphabet);
      if ts[i].Literal? {
        alphabet := alphabet + [ts[i].c];
      }
      if ts[i].Class? {
        alphabet := AppendEndpoints(alphabet, ts[i].ranges);
      }
    }
    NoTokensChars();
    assert ts[|ts|..] == [];
  }

  // One character on from a single state.
  function StepOf(ts: seq<Token>, q: int, c: char): set<int> {
    Step(ts, Closure(ts, {q}), c)
  }

  ghost predicate Reached(ts: seq<Token>, states: set<int>, q: int) {
    exists w :: SearchWord(ts, w) && q in Run(ts, states, w)
  }

  // All that q reaches on the given characters is visited or waiting.
  ghost predicate Expanded(ts: seq<Token>, known: set<int>, q: int, chars: seq<char>) {
    forall c, j :: c in chars && c != '\n' && c != '\r' && j in StepOf(ts, q, c) ==> j in known
  }

  ghost predicate Settled(ts: seq<Token>, known: set<int>, q: int) {
    !Skips(ts, q, |ts|) && Expanded(ts, known, q, Alphabet(ts))
  }

  // Between two rounds of the search; open is the state being expanded, if any.
  ghost predicate Searching(ts: seq<Token>, states: set<int>, seen: set<int>, known: set<int>, open: set<int>) {
    seen <= known <= States(ts) && states <= known &&
    (forall q :: q in known ==> Reached(ts, states, q)) &&
    (forall q :: q in seen && q !in open ==> Settled(ts, known, q))
  }

  lemma StepOfWithin(ts: seq<Token>, states: set<int>, q: int, c: char, j: int)
    requires Closed(ts, states) && q in states && j in StepOf(ts, q, c)
    ensures j in Step(ts, states, c)
  {
    var i :| i in Advanced(ts, Closure(ts, {q}), c) && Skips(ts, i, j);
    var h :| h in Closure(ts, {q}) && Moves(ts, h, c, i);
    assert Skips(ts, q, h) && h in states;
    assert i in Advanced(ts, states, c);
  }

  lemma StepOfCovers(ts: seq<Token>, states: set<int>, c: char, j: int) returns (q: int)
    requires j in Step(ts, states, c)
    ensures q in states && j in StepOf(ts, q, c)
  {
    var i :| i in Advanced(ts, states, c) && Skips(ts, i, j);
    q :| q in states && Moves(ts, q, c, i);
    assert Skips(ts, q, q);
    assert q in Closure(ts, {q});
    assert i in Advanced(ts, Closure(ts, {q}), c);
  }

  lemma ReachedNext(ts: seq<Token>, states: set<int>, q: int, c: char, j: int)
    requires Closed(ts, states) && Reached(ts, states, q) && SearchChar(ts, c) && j in StepOf(ts, q, c)
    ensures Reached(ts, states, j)
  {
    hide SearchChar, Step, StepOf;
    var w :| SearchWord(ts, w) && q in Run(ts, states, w);
    RunClosed(ts, states, w);
    StepOfWithin(ts, Run(ts, states, w), q, c, j);
    assert (w + [c])[..|w|] == w;
    assert SearchWord(ts, w + [c]);
  }

  lemma ReachedStart(ts: seq<Token>, states: set<int>, q: int)
    requires q in states
    ensures Reached(ts, states, q)
  {
    assert SearchWord(ts, "") && q in Run(ts, states, "");
  }

  lemma {:induction false} NothingEscapes(ts: seq<Token>, states: set<int>, known: set<int>, w: string)
    requires states <= known && (forall q :: q in known ==> Settled(ts, known, q)) && SearchWord(ts, w)
    ensures Run(ts, states, w) <= known
    decreases |w|
  {
    hide Step, StepOf;
    if w != "" {
      var w', c := w[..|w| - 1], w[|w| - 1];
      NothingEscapes(ts, states, known, w');
      forall j | j in Run(ts, states, w)
        ensures j in known
      {
        var q := StepOfCovers(ts, Run(ts, states, w'), c, j);
        assert Settled(ts, known, q);
      }
    }
  }

  lemma EndUnsettled(ts: seq<Token>, known: set<int>)
    ensures !Settled(ts, known, |ts|)
  {
    hide Expanded;
    assert Skips(ts, |ts|, |ts|);
  }

  lemma SearchFails(ts: seq<Token>, states: set<int>, seen: set<int>)
    requires Searching(ts, states, seen, seen, {})
    ensures !Reached(ts, states, |ts|)
  {
    hide Expanded;
    if Reached(ts, states, |ts|) {
      var w :| SearchWord(ts, w) && |ts| in Run(ts, states, w);
      NothingEscapes(ts, states, seen, w);
      EndUnsettled(ts, seen);
    }
  }

  lemma SearchSucceeds(ts: seq<Token>, states: set<int>, q: int)
    requires Closed(ts, states) && Reached(ts, states, q) && Skips(ts, q, |ts|)
    ensures Reached(ts, states, |ts|)
  {
    var w :| SearchWord(ts, w) && q in Run(ts, states, w);
    RunClosed(ts, states, w);
  }

  // The states that expanding q on one more character leaves known.
  lemma ExpandedMore(ts: seq<Token>, known: set<int>, known': set<int>, q: int, chars: seq<char>, c: char)
    requires Expanded(ts, known, q, chars) && known <= known'
    requires c != '\n' && c != '\r' ==> StepOf(ts, q, c) <= known'
    ensures Expanded(ts, known', q, chars + [c])
  {
    hide StepOf;
  }

  lemma SearchingMore(ts: seq<Token>, states: set<int>, seen: set<int>, known: set<int>, open: set<int>, q: int,
          c: char, known': set<int>)
    requires Closed(ts, states) && Searching(ts, states, seen, known, open)
    requires q in known && SearchChar(ts, c) && known <= known' <= known + StepOf(ts, q, c)
    ensures Searching(ts, states, seen, known', open)
  {
    hide Skips, SearchChar;
    forall j | j in known'
      ensures Reached(ts, states, j) && j in States(ts)
    {
      if j !in known {
        ReachedNext(ts, states, q, c, j);
        ClosureBasicsStep(ts, q, c);
      }
    }
    hide Reached, StepOf, States;
    forall k | k in seen && k !in open
      ensures Settled(ts, known', k)
    {
      assert Settled(ts, known, k);
    }
  }

  lemma ClosureBasicsStep(ts: seq<Token>, q: int, c: char)
    ensures StepOf(ts, q, c) <= States(ts) && Closure(ts, {q}) <= States(ts)
    ensures Advanced(ts, Closure(ts, {q}), c) <= States(ts)
  {
  }

  // The states that follow q on the characters of the alphabet are queued, unless seen.
  method Expand(ts: seq<Token>, ghost states: set<int>, seen: set<int>, q: int, alphabet: seq<char>, queue: seq<int>)
    returns (queue': seq<int>)
    requires Closed(ts, states) && q in States(ts) && q in seen && alphabet == Alphabet(ts)
    requires Searching(ts, states, seen, seen + Elements(queue), {q})
    ensures Searching(ts, states, seen, seen + Elements(queue'), {q})
    ensures Expanded(ts, seen + Elements(queue'), q, alphabet)
  {
    queue' := queue;
    hide Elements, Searching, Expanded, Closure, Advanced, States, Closed, Alphabet;
    var closure := ClosureOf(ts, q);
    NothingExpanded(ts, seen + Elements(queue), q);
    for k := 0 to |alphabet|
      invariant Searching(ts, states, seen, seen + Elements(queue'), {q})
      invariant Expanded(ts, seen + Elements(queue'), q, alphabet[..k])
    {
      var c := alphabet[k];
      assert alphabet[..k + 1] == alphabet[..k] + [c];
      ghost var known := seen + Elements(queue');
      if c != '\n' && c != '\r' {
        ClosureBasicsStep(ts, q, c);
        var advanced := Advance(ts, closure, c);
        var next := EpsilonClosure(ts, advanced);
        queue' := Enqueue(queue', seen, next);
        SearchCharOf(ts, c);
        SearchingMore(ts, states, seen, known, {q}, q, c, seen + Elements(queue'));
      }
      ExpandedMore(ts, known, seen + Elements(queue'), q, alphabet[..k], c);
    }
    assert alphabet[..|alphabet|] == alphabet;
  }

  lemma NothingExpanded(ts: seq<Token>, known: set<int>, q: int)
    ensures Expanded(ts, known, q, [])
  {
  }

  lemma SearchCharOf(ts: seq<Token>, c: char)
    requires c in Alphabet(ts) && c != '\n' && c != '\r'
    ensures SearchChar(ts, c)
  {
  }

  method ClosureOf(ts: seq<Token>, q: int) returns (closure: set<int>)
    requires q in States(ts)
    ensures closure == Closure(ts, {q}) && closure <= States(ts)
  {
    closure := EpsilonClosure(ts, {q});
    ClosureBasics(ts, {q});
  }

  // Every state of next that is not seen is appended.
  method Enqueue(queue: seq<int>, seen: set<int>, next: set<int>) returns (queue': seq<int>)
    ensures Elements(queue') == Elements(queue) + (next - seen)
  {
    queue' := queue;
    var todo := next;
    while todo != {}
      invariant todo <= next
      invariant Elements(queue') == Elements(queue) + (next - todo - seen)
      decreases todo
    {
      NonEmpty(todo);
      var j :| j in todo;
      todo := todo - {j};
      if j !in seen {
        ElementsSnoc(queue', j);
        queue' := queue' + [j];
      }
    }
  }

  method Search(ts: seq<Token>, states: set<int>) returns (found: bool)
    requires Closed(ts, states)
    ensures found <==> Reached(ts, states, |ts|)
  {
    var seen: set<int> := {};
    var queue := Queue(states);
    var alphabet := BuildAlphabet(ts);
    QueueElements(states, queue);
    ghost var left := States(ts);
    SearchBegins(ts, states);
    assert {} + Elements(queue) == states;
    hide Elements, Searching, Expanded, Closure, States, Alphabet, Reached;
    while queue != []
      invariant Searching(ts, states, seen, seen + Elements(queue), {})
      invariant forall j :: j in States(ts) ==> j in seen || j in left
      decreases left, |queue|
    {
      var state := queue[0];
      ElementsTail(queue);
      queue := queue[1..];
      if state in seen {
        assert seen + ({state} + Elements(queue)) == seen + Elements(queue);
        continue;
      }
      assert seen + ({state} + Elements(queue)) == (seen + {state}) + Elements(queue);
      SearchOpens(ts, states, seen, seen + {state} + Elements(queue), state);
      seen := seen + {state};
      left := left - {state};
      var closure := ClosureOf(ts, state);
      ClosureAccepts(ts, state);
      if |ts| in closure {
        SearchSucceeds(ts, states, state);
        return true;
      }
      queue := Expand(ts, states, seen, state, alphabet, queue);
      SearchCloses(ts, states, seen, seen + Elements(queue), state);
    }
    NothingLeft();
    assert seen + {} == seen;
    SearchFails(ts, states, seen);
    return false;
  }

  lemma SearchBegins(ts: seq<Token>, states: set<int>)
    requires Closed(ts, states)
    ensures Searching(ts, states, {}, states, {})
  {
    forall q | q in states
      ensures Reached(ts, states, q)
    {
      ReachedStart(ts, states, q);
    }
  }

  lemma SearchOpens(ts: seq<Token>, states: set<int>, seen: set<int>, known: set<int>, q: int)
    requires Searching(ts, states, seen, known, {}) && q in known
    ensures q in States(ts) && Reached(ts, states, q) && Searching(ts, states, seen + {q}, known, {q})
  {
    hide Reached, Settled, States;
  }

  lemma SearchCloses(ts: seq<Token>, states: set<int>, seen: set<int>, known: set<int>, q: int)
    requires Searching(ts, states, seen, known, {q}) && !Skips(ts, q, |ts|) && Expanded(ts, known, q, Alphabet(ts))
    ensures Searching(ts, states, seen, known, {})
  {
    hide Reached, Expanded, States;
  }

  lemma ClosureAccepts(ts: seq<Token>, q: int)
    ensures |ts| in Closure(ts, {q}) <==> Skips(ts, q, |ts|)
  {
    assert Skips(ts, q, |ts|) ==> q in {q};
  }
}
