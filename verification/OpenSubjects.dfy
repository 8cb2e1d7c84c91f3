/** What CouldMatchSubject answers (eventplane/routing/routing.go:108-160): the exact language it
    searches, soundness, and the condition under which it is complete for Match. */
module OpenSubjects {
  import opened Routing
  import opened Matching
  import opened SubjectSearch

  // ---- The method -----------------------------------------------------------

  // The subjects that the search can spell: empty, or a slash and characters of its alphabet.
  predicate Spellable(ts: seq<Token>, subject: string) {
    subject == "" || (subject[0] == '/' && SearchWord(ts, subject[1..]))
  }

  // Some spellable subject completes the prefix to a word of the plain language.
  ghost predicate Completable(ts: seq<Token>, prefix: string) {
    exists subject :: Spellable(ts, subject) && InPlain(ts, prefix + subject)
  }

  lemma AcceptedByPrefix(ts: seq<Token>, prefix: string)
    requires |ts| in Run(ts, Start(ts), prefix)
    ensures Completable(ts, prefix)
  {
    AcceptsPlain(ts, prefix);
    assert prefix + "" == prefix && Spellable(ts, "");
  }

  lemma AcceptedBySearch(ts: seq<Token>, prefix: string)
    requires |ts| !in Run(ts, Start(ts), prefix)
    ensures Reached(ts, Run(ts, Start(ts), prefix + "/"), |ts|) <==> Completable(ts, prefix)
  {
    hide Run, Start, SearchWord;
    var after := Run(ts, Start(ts), prefix + "/");
    if Reached(ts, after, |ts|) {
      var w :| SearchWord(ts, w) && |ts| in Run(ts, after, w);
      RunConcat(ts, Start(ts), prefix + "/", w);
      AcceptsPlain(ts, prefix + "/" + w);
      assert prefix + "/" + w == prefix + ("/" + w) && ("/" + w)[1..] == w;
      assert Spellable(ts, "/" + w);
    }
    if Completable(ts, prefix) {
      var subject :| Spellable(ts, subject) && InPlain(ts, prefix + subject);
      AcceptsPlain(ts, prefix + subject);
      assert prefix + "" == prefix;
      var w := subject[1..];
      assert prefix + subject == prefix + "/" + w;
      RunConcat(ts, Start(ts), prefix + "/", w);
    }
  }

  method CouldMatchSubject(pattern: string, prefix: string) returns (r: Result<bool>)
    ensures Compiled(pattern).Err? ==> r == Err(Compiled(pattern).error)
    ensures Compiled(pattern).Ok? ==> r.Ok? && (r.value <==> Completable(Compiled(pattern).value, prefix))
  {
    var compiled := Compile(pattern);
    if compiled.Err? {
      return Err(compiled.error);
    }
    var ts := compiled.value;
    ClosureIsClosed(ts, {0});
    var states := EpsilonClosure(ts, {0});
    for k := 0 to |prefix|
      invariant states == Run(ts, Start(ts), prefix[..k])
      invariant Closed(ts, states)
    {
      states := ReadOne(ts, states, prefix[k], prefix[..k]);
      assert prefix[..k + 1] == prefix[..k] + [prefix[k]];
    }
    assert prefix[..|prefix|] == prefix;
    if |ts| in states {
      AcceptedByPrefix(ts, prefix);
      return Ok(true);
    }
    states := ReadOne(ts, states, '/', prefix);
    assert prefix + ['/'] == prefix + "/";
    var found := Search(ts, states);
    AcceptedBySearch(ts, prefix);
    return Ok(found);
  }

  // One character of input.
  method ReadOne(ts: seq<Token>, states: set<int>, c: char, ghost read: string) returns (next: set<int>)
    requires Closed(ts, states) && states == Run(ts, Start(ts), read)
    ensures Closed(ts, next) && next == Run(ts, Start(ts), read + [c])
  {
    var advanced := Advance(ts, states, c);
    next := EpsilonClosure(ts, advanced);
    ClosureIsClosed(ts, advanced);
    assert (read + [c])[..|read|] == read;
  }

  // ---- Soundness ------------------------------------------------------------

  lemma PlainInLanguage(ts: seq<Token>, w: string)
    requires InPlain(ts, w)
    ensures InLanguage(ts, w)
  {
    hide PlainPiece;
    var pieces :| Covers(ts, |ts|, w, pieces, "");
    assert Concat(pieces) + "" == Concat(pieces);
    assert SplitsFrom(ts, 0, w, pieces);
  }

  // A yes is always justified: some legal subject behind the prefix matches.
  lemma Sound(ts: seq<Token>, prefix: string)
    requires Completable(ts, prefix)
    ensures exists subject :: ValidSubject(subject) && InLanguage(ts, prefix + subject)
  {
    hide SearchWord, InLanguage, InPlain;
    var subject :| Spellable(ts, subject) && InPlain(ts, prefix + subject);
    PlainInLanguage(ts, prefix + subject);
    if subject != "" {
      SearchWordLegal(ts, subject[1..]);
      assert forall i :: 0 < i < |subject| ==> subject[i] == subject[1..][i - 1];
    }
    assert ValidSubject(subject);
  }

  lemma SearchWordLegal(ts: seq<Token>, w: string)
    requires SearchWord(ts, w)
    ensures LineBreakFree(w)
  {
  }

  // ---- Which answers are exact ----------------------------------------------

  ghost predicate Matchable(ts: seq<Token>, prefix: string) {
    exists subject :: ValidSubject(subject) && InLanguage(ts, prefix + subject)
  }

  // The answer for a prefix is the one that Match gives over all subjects.
  ghost predicate AnsweredExactly(ts: seq<Token>, prefix: string) {
    Completable(ts, prefix) <==> Matchable(ts, prefix)
  }

  predicate LegalChar(c: char) {
    c != '\n' && c != '\r'
  }

  ghost predicate TakesSome(t: Token) {
    exists c :: Takes(t, c)
  }

  ghost predicate TakesLegal(t: Token) {
    Loops(t) || exists c :: LegalChar(c) && Takes(t, c)
  }

  // The search can spell what the token takes.
  ghost predicate TakesSearched(ts: seq<Token>, t: Token) {
    Loops(t) || exists c :: SearchChar(ts, c) && Takes(t, c)
  }

  ghost predicate LegalFrom(ts: seq<Token>, pi: nat) {
    forall k :: pi <= k < |ts| ==> TakesLegal(ts[k])
  }

  ghost predicate SearchedFrom(ts: seq<Token>, pi: nat) {
    forall k :: pi <= k < |ts| ==> TakesSearched(ts, ts[k])
  }

  predicate TakesSlash(t: Token) {
    t == Literal('/') || t == DoubleStar
  }

  // Nothing behind a "**/" takes line breaks only.
  ghost predicate SlashesDropSafely(ts: seq<Token>) {
    forall pi :: 0 <= pi < |ts| && ts[pi] == DoubleStar && SlashNext(ts, pi) ==> LegalFrom(ts, pi + 1)
  }

  // Behind a token that can take the slash of a subject, where nothing takes line breaks only, every
  // class takes a character of the alphabet.
  ghost predicate ClassesSearched(ts: seq<Token>) {
    forall pi, k :: 0 <= pi < k < |ts| && TakesSlash(ts[pi]) && LegalFrom(ts, pi + 1) && ts[k].Class? ==> TakesSearched(ts, ts[k])
  }

  // ---- Spelling a subject ---------------------------------------------------

  // From token pi on, the word splits with no slash dropped.
  ghost predicate PlainFrom(ts: seq<Token>, pi: nat, w: string)
    requires pi <= |ts|
    decreases |ts| - pi
  {
    if pi == |ts| then w == ""
    else exists k :: 0 <= k <= |w| && PlainPiece(ts[pi], w[..k]) && PlainFrom(ts, pi + 1, w[k..])
  }

  lemma PlainCons(ts: seq<Token>, pi: nat, piece: string, w: string)
    requires pi < |ts| && PlainPiece(ts[pi], piece) && PlainFrom(ts, pi + 1, w)
    ensures PlainFrom(ts, pi, piece + w)
  {
    hide PlainPiece;
    var k := |piece|;
    assert (piece + w)[..k] == piece && (piece + w)[k..] == w;
    assert PlainPiece(ts[pi], (piece + w)[..k]) && PlainFrom(ts, pi + 1, (piece + w)[k..]);
  }

  lemma {:induction false} PlainFromCovers(ts: seq<Token>, pi: nat, u: string, pieces: seq<string>, w: string)
    requires pi <= |ts| && Covers(ts, pi, u, pieces, "") && PlainFrom(ts, pi, w)
    ensures InPlain(ts, u + w)
    decreases |ts| - pi
  {
    hide PlainPiece, Concat;
    if pi == |ts| {
      assert u + w == u;
      assert Covers(ts, |ts|, u + w, pieces, "");
    } else {
      var k :| 0 <= k <= |w| && PlainPiece(ts[pi], w[..k]) && PlainFrom(ts, pi + 1, w[k..]);
      CoversSnoc(ts, pi, u, pieces, w[..k]);
      PlainFromCovers(ts, pi + 1, u + w[..k], pieces + [w[..k]], w[k..]);
      assert u + w[..k] + w[k..] == u + w;
    }
  }

  lemma PlainFromStart(ts: seq<Token>, w: string)
    requires PlainFrom(ts, 0, w)
    ensures InPlain(ts, w)
  {
    hide PlainFrom;
    assert Covers(ts, 0, "", [], "");
    PlainFromCovers(ts, 0, "", [], w);
    assert "" + w == w;
  }

  lemma EndOfSplit(ts: seq<Token>, w: string, pieces: seq<string>)
    requires SplitsFrom(ts, |ts|, w, pieces)
    ensures w == "" && PlainFrom(ts, |ts|, "")
  {
  }

  lemma PartsLegal(a: string, b: string)
    requires LineBreakFree(a + b)
    ensures LineBreakFree(a) && LineBreakFree(b)
  {
    assert forall i :: 0 <= i < |a| ==> a[i] == (a + b)[i];
    assert forall i :: 0 <= i < |b| ==> b[i] == (a + b)[|a| + i];
  }

  lemma LongerRun(a: string, b: string)
    ensures PlainPiece(DoubleStar, a + b)
  {
  }

  lemma {:induction false} LiteralInAlphabet(ts: seq<Token>, i: int)
    requires 0 <= i < |ts| && ts[i].Literal?
    ensures ts[i].c in TokensChars(ts)
  {
    if i == 0 {
      assert TokenChars(ts[0])[0] == ts[0].c;
    } else {
      LiteralInAlphabet(ts[1..], i - 1);
    }
  }

  // A token that takes a legal character and is no class is no matter for the search.
  lemma OthersSearched(ts: seq<Token>, k: nat)
    requires k < |ts| && TakesLegal(ts[k]) && !ts[k].Class?
    ensures TakesSearched(ts, ts[k])
  {
    match ts[k] {
      case Literal(c) =>
        LiteralInAlphabet(ts, k);
        assert SearchChar(ts, c) && Takes(ts[k], c);
      case Question =>
        assert BASE_ALPHABET[0] == 'a';
        assert SearchChar(ts, 'a') && Takes(ts[k], 'a');
      case _ =>
    }
  }

  // The shortest word of the tokens from pi on, spelled by the search.
  lemma {:induction false} Spell(ts: seq<Token>, pi: nat) returns (w: string)
    requires pi <= |ts| && SearchedFrom(ts, pi)
    ensures SearchWord(ts, w) && PlainFrom(ts, pi, w)
    decreases |ts| - pi
  {
    hide SearchChar, Takes, TakesSearched;
    if pi == |ts| {
      w := "";
    } else {
      var rest := Spell(ts, pi + 1);
      hide PlainFrom;
      var piece := SpellOne(ts, pi);
      w := piece + rest;
      PlainCons(ts, pi, piece, rest);
    }
  }

  lemma SpellOne(ts: seq<Token>, pi: nat) returns (piece: string)
    requires pi < |ts| && TakesSearched(ts, ts[pi])
    ensures SearchWord(ts, piece) && PlainPiece(ts[pi], piece)
  {
    hide SearchChar, Takes;
    if Loops(ts[pi]) {
      piece := "";
    } else {
      var c :| SearchChar(ts, c) && Takes(ts[pi], c);
      piece := [c];
    }
  }

  // The token takes the slash of the subject, behind what it took of the prefix, and the search spells
  // the rest.
  lemma SlashThenSpell(ts: seq<Token>, pi: nat, prefix: string) returns (subject: string)
    requires pi < |ts| && PlainPiece(ts[pi], prefix + "/") && SearchedFrom(ts, pi + 1)
    ensures Spellable(ts, subject) && PlainFrom(ts, pi, prefix + subject)
  {
    hide PlainPiece, PlainFrom, SearchWord, SearchedFrom;
    var w := Spell(ts, pi + 1);
    subject := "/" + w;
    assert subject[1..] == w;
    PlainCons(ts, pi, prefix + "/", w);
    assert (prefix + "/") + w == prefix + subject;
  }

  // What covers a legal word takes legal characters.
  lemma {:induction false} CoverIsLegal(ts: seq<Token>, pi: nat, w: string, pieces: seq<string>)
    requires pi <= |ts| && SplitsFrom(ts, pi, w, pieces) && LineBreakFree(w)
    ensures LegalFrom(ts, pi)
    decreases |ts| - pi
  {
    hide SplitsFrom, Takes, PlainPiece, TakesLegal;
    if pi < |ts| {
      RestOfSplit(ts, pi, w, pieces);
      SplitHasPiece(ts, pi, w, pieces);
      PartsLegal(pieces[0], Concat(pieces[1..]));
      PieceIsLegal(ts[pi], pieces[0]);
      if pi + 1 < |ts| && !PlainPiece(ts[pi + 1], pieces[1]) {
        SlashIsLegal(ts[pi + 1]);
        CoverIsLegal(ts, pi + 2, Concat(pieces[1..]), pieces[2..]);
      } else {
        CoverIsLegal(ts, pi + 1, Concat(pieces[1..]), pieces[1..]);
      }
    }
  }

  lemma PieceIsLegal(t: Token, piece: string)
    requires PlainPiece(t, piece) && LineBreakFree(piece)
    ensures TakesLegal(t)
  {
    hide Takes;
    if !Loops(t) {
      assert LegalChar(piece[0]) && Takes(t, piece[0]);
    }
  }

  lemma SlashIsLegal(t: Token)
    requires t == Literal('/')
    ensures TakesLegal(t)
  {
    assert LegalChar('/') && Takes(t, '/');
  }

  // What is asked of the tokens behind the one that takes the slash, for one prefix.
  ghost predicate Completing(ts: seq<Token>, prefix: string) {
    ClassesSearched(ts) && (SlashesDropSafely(ts) || LineBreakFree(prefix))
  }

  lemma LegalIsSearched(ts: seq<Token>, pi: nat)
    requires pi < |ts| && ClassesSearched(ts) && TakesSlash(ts[pi]) && LegalFrom(ts, pi + 1)
    ensures SearchedFrom(ts, pi + 1)
  {
    hide TakesSearched, TakesLegal;
    forall k | pi + 1 <= k < |ts|
      ensures TakesSearched(ts, ts[k])
    {
      if !ts[k].Class? {
        OthersSearched(ts, k);
      }
    }
  }

  // The piece that reaches into the subject is that of a token that takes the slash.
  lemma ReachesSlash(t: Token, prefix: string, piece: string)
    requires PlainPiece(t, piece) && |piece| > |prefix| && prefix == piece[..|prefix|] && piece[|prefix|] == '/'
    ensures TakesSlash(t) && PlainPiece(t, prefix + "/")
  {
    assert Takes(t, piece[|prefix|]);
    assert forall i :: 0 <= i < |prefix| ==> prefix[i] == piece[i];
  }

  lemma SwallowsAll(prefix: string)
    ensures PlainPiece(DoubleStar, prefix + "/")
  {
  }

  // A match of the prefix and some subject becomes a plain one of the prefix and a spelled subject: the
  // token that took the slash takes it again, and the search spells the rest. If a slash was dropped in
  // the prefix, the "**" before it swallows the rest of the prefix.
  lemma {:induction false} SpellSubject(ts: seq<Token>, pi: nat, prefix: string, subject: string,
          pieces: seq<string>) returns (subject': string)
    requires pi <= |ts| && SplitsFrom(ts, pi, prefix + subject, pieces) && ValidSubject(subject) && Completing(ts, prefix)
    ensures Spellable(ts, subject') && PlainFrom(ts, pi, prefix + subject')
    decreases |ts| - pi
  {
    hide PlainPiece, SplitsFrom, PlainFrom, ClassesSearched, LegalFrom, SearchWord;
    if pi == |ts| {
      EndOfSplit(ts, prefix + subject, pieces);
      assert |prefix| + |subject| == 0;
      subject' := "";
      assert prefix + subject' == "";
    } else {
      RestOfSplit(ts, pi, prefix + subject, pieces);
      SplitHasPiece(ts, pi, prefix + subject, pieces);
      var p, rest := pieces[0], Concat(pieces[1..]);
      if |p| > |prefix| {
        PieceInSubject(prefix, subject, p, rest);
        ReachesSlash(ts[pi], prefix, p);
        RestIsLegal(ts, pi, rest, pieces);
        LegalIsSearched(ts, pi);
        subject' := SlashThenSpell(ts, pi, prefix);
      } else {
        var prefix2 := prefix[|p|..];
        PieceInPrefix(prefix, subject, p, rest);
        if pi + 1 < |ts| && !PlainPiece(ts[pi + 1], pieces[1]) {
          DropIsLegal(ts, pi, prefix, prefix2 + subject, pieces);
          LegalIsSearched(ts, pi);
          SwallowsAll(prefix);
          subject' := SlashThenSpell(ts, pi, prefix);
        } else {
          CompletingRest(ts, p, prefix2);
          subject' := SpellSubject(ts, pi + 1, prefix2, subject, pieces[1..]);
          PlainCons(ts, pi, p, prefix2 + subject');
          assert prefix + subject' == p + (prefix2 + subject');
        }
      }
    }
  }

  lemma CompletingRest(ts: seq<Token>, p: string, rest: string)
    requires Completing(ts, p + rest)
    ensures Completing(ts, rest)
  {
    hide ClassesSearched, SlashesDropSafely;
    if LineBreakFree(p + rest) {
      PartsLegal(p, rest);
    }
  }

  lemma PieceInSubject(prefix: string, subject: string, p: string, rest: string)
    requires prefix + subject == p + rest && |p| > |prefix| && ValidSubject(subject)
    ensures prefix == p[..|prefix|] && p[|prefix|] == '/' && LineBreakFree(rest)
  {
    var w := prefix + subject;
    assert prefix == w[..|prefix|] && p == w[..|p|] && rest == w[|p|..];
    assert p[|prefix|] == w[|prefix|] == subject[0];
    forall i | 0 <= i < |rest|
      ensures rest[i] != '\n' && rest[i] != '\r'
    {
      assert rest[i] == subject[|p| + i - |prefix|];
    }
  }

  lemma PieceInPrefix(prefix: string, subject: string, p: string, rest: string)
    requires prefix + subject == p + rest && |p| <= |prefix|
    ensures prefix == p + prefix[|p|..] && rest == prefix[|p|..] + subject
  {
    var w := prefix + subject;
    assert p == w[..|p|] == prefix[..|p|];
    assert rest == w[|p|..];
  }

  lemma RestIsLegal(ts: seq<Token>, pi: nat, rest: string, pieces: seq<string>)
    requires pi < |ts| && |pieces| == |ts| - pi && LineBreakFree(rest)
    requires pi + 1 == |ts| || PlainPiece(ts[pi + 1], pieces[1]) ==> SplitsFrom(ts, pi + 1, rest, pieces[1..])
    requires pi + 1 < |ts| && !PlainPiece(ts[pi + 1], pieces[1]) ==> ts[pi + 1] == Literal('/') && SplitsFrom(ts, pi + 2, rest, pieces[2..])
    ensures LegalFrom(ts, pi + 1)
  {
    hide SplitsFrom, PlainPiece, TakesLegal;
    if pi + 1 < |ts| && !PlainPiece(ts[pi + 1], pieces[1]) {
      SlashIsLegal(ts[pi + 1]);
      CoverIsLegal(ts, pi + 2, rest, pieces[2..]);
    } else {
      CoverIsLegal(ts, pi + 1, rest, pieces[1..]);
    }
  }

  lemma DropIsLegal(ts: seq<Token>, pi: nat, prefix: string, rest: string, pieces: seq<string>)
    requires pi + 1 < |ts| && ts[pi] == DoubleStar && SlashNext(ts, pi) && |pieces| == |ts| - pi && SplitsFrom(ts, pi + 2, rest, pieces[2..])
    requires SlashesDropSafely(ts) || LineBreakFree(rest)
    ensures LegalFrom(ts, pi + 1)
  {
    hide SplitsFrom, TakesLegal;
    if LineBreakFree(rest) {
      SlashIsLegal(ts[pi + 1]);
      CoverIsLegal(ts, pi + 2, rest, pieces[2..]);
    }
  }

  lemma CompletingIsExact(ts: seq<Token>, prefix: string)
    requires Completing(ts, prefix)
    ensures AnsweredExactly(ts, prefix)
  {
    hide InPlain, Completing, SplitsFrom, Spellable, ValidSubject;
    if Completable(ts, prefix) {
      Sound(ts, prefix);
    }
    if Matchable(ts, prefix) {
      var subject :| ValidSubject(subject) && InLanguage(ts, prefix + subject);
      var pieces :| SplitsFrom(ts, 0, prefix + subject, pieces);
      var spelled := SpellSubject(ts, 0, prefix, subject, pieces);
      PlainFromStart(ts, prefix + spelled);
    }
  }

  // Every class that matches some legal character matches one of the alphabet.
  ghost predicate Witnessed(ts: seq<Token>) {
    forall i, c :: 0 <= i < |ts| && ts[i].Class? && LegalChar(c) && Takes(ts[i], c) ==>
      exists d :: SearchChar(ts, d) && Takes(ts[i], d)
  }

  // For a prefix without line breaks and witnessed classes the answer is exact for Match, although
  // the automaton never drops the slash of "**/".
  lemma Exact(ts: seq<Token>, prefix: string)
    requires Witnessed(ts) && LineBreakFree(prefix)
    ensures Completable(ts, prefix) <==> exists subject :: ValidSubject(subject) && InLanguage(ts, prefix + subject)
  {
    WitnessedIsSearched(ts);
    hide Witnessed, ClassesSearched, InLanguage, Completable;
    CompletingIsExact(ts, prefix);
  }

  lemma WitnessedIsSearched(ts: seq<Token>)
    requires Witnessed(ts)
    ensures ClassesSearched(ts)
  {
    hide SearchChar, Takes;
    forall pi, k | 0 <= pi < k < |ts| && TakesSlash(ts[pi]) && LegalFrom(ts, pi + 1) && ts[k].Class?
      ensures TakesSearched(ts, ts[k])
    {
      assert TakesLegal(ts[k]);
    }
  }

  // ---- Where the answer is wrong --------------------------------------------

  // How many of the first j tokens take one character each.
  function Singles(ts: seq<Token>, j: nat): nat
    requires j <= |ts|
  {
    if j == 0 then 0 else Singles(ts, j - 1) + if Loops(ts[j - 1]) then 0 else 1
  }

  lemma {:induction false} SinglesGrow(ts: seq<Token>, i: nat, j: nat)
    requires i <= j <= |ts|
    ensures Singles(ts, i) <= Singles(ts, j)
  {
    if i < j {
      SinglesGrow(ts, i, j - 1);
    }
  }

  // No word that the first j tokens cover is shorter.
  lemma {:induction false} CoverIsLong(ts: seq<Token>, j: nat, w: string, pieces: seq<string>)
    requires j <= |ts| && Covers(ts, j, w, pieces, "")
    ensures |w| >= Singles(ts, j)
  {
    hide Takes;
    if j > 0 {
      CoversSplitLast(ts, j, w, pieces);
      CoverIsLong(ts, j - 1, w[..|w| - |pieces[j - 1]|], pieces[..j - 1]);
    }
  }

  // The character that a token takes of a covered word, and where it stands at the earliest.
  lemma {:induction false} CharacterOf(ts: seq<Token>, k: nat, j: nat, w: string, pieces: seq<string>) returns (at: nat)
    requires k < j <= |ts| && !Loops(ts[k]) && Covers(ts, j, w, pieces, "")
    ensures Singles(ts, k) <= at < |w| && Takes(ts[k], w[at])
    decreases j
  {
    hide Takes, Covers;
    CoverHasPieces(ts, j, w, pieces);
    CoversSplitLast(ts, j, w, pieces);
    var front := w[..|w| - |pieces[j - 1]|];
    if k == j - 1 {
      CoverIsLong(ts, k, front, pieces[..k]);
      OneCharacter(ts[k], pieces[k]);
      at := |front|;
    } else {
      at := CharacterOf(ts, k, j - 1, front, pieces[..j - 1]);
    }
  }

  lemma CoverHasPieces(ts: seq<Token>, j: nat, w: string, pieces: seq<string>)
    requires Covers(ts, j, w, pieces, "")
    ensures |pieces| == j
  {
  }

  // A character for a token; a legal one if it takes any.
  lemma Pick(t: Token) returns (c: char)
    requires TakesSome(t)
    ensures Takes(t, c) && (TakesLegal(t) && !Loops(t) ==> LegalChar(c))
  {
    hide Takes, LegalChar;
    if !Loops(t) && TakesLegal(t) {
      c :| LegalChar(c) && Takes(t, c);
    } else {
      c :| Takes(t, c);
    }
  }

  lemma PickPiece(t: Token) returns (piece: string)
    requires TakesSome(t)
    ensures PlainPiece(t, piece) && |piece| == (if Loops(t) then 0 else 1) && (TakesLegal(t) ==> LineBreakFree(piece))
  {
    hide Takes;
    if Loops(t) {
      piece := "";
    } else {
      var c := Pick(t);
      piece := [c];
    }
  }

  ghost predicate Alive(ts: seq<Token>) {
    forall k :: 0 <= k < |ts| ==> TakesSome(ts[k])
  }

  lemma {:induction false} ShortestTo(ts: seq<Token>, j: nat) returns (w: string, pieces: seq<string>)
    requires j <= |ts| && Alive(ts)
    ensures Covers(ts, j, w, pieces, "") && |w| == Singles(ts, j)
  {
    hide TakesSome, PlainPiece, Covers;
    if j == 0 {
      w, pieces := "", [];
      CoversNothing(ts);
    } else {
      w, pieces := ShortestTo(ts, j - 1);
      var piece := PickPiece(ts[j - 1]);
      CoversSnoc(ts, j - 1, w, pieces, piece);
      w, pieces := w + piece, pieces + [piece];
    }
  }

  lemma CoversNothing(ts: seq<Token>)
    ensures Covers(ts, 0, "", [], "")
  {
  }

  // A shortest word from pi on, cut behind token k; its second part is legal.
  lemma {:induction false} ShortestFrom(ts: seq<Token>, pi: nat, k: nat) returns (a: string, b: string)
    requires pi <= k <= |ts| && Alive(ts) && LegalFrom(ts, k)
    ensures PlainFrom(ts, pi, a + b) && |a| == Singles(ts, k) - Singles(ts, pi) && LineBreakFree(b)
    decreases k - pi
  {
    hide TakesSome, PlainPiece, PlainFrom, TakesLegal;
    if pi == k {
      a := "";
      b := ShortestLegal(ts, k);
      assert a + b == b;
    } else {
      var piece := PickPiece(ts[pi]);
      var rest, tail := ShortestFrom(ts, pi + 1, k);
      SinglesStep(ts, pi);
      PlainCons(ts, pi, piece, rest + tail);
      a, b := piece + rest, tail;
      assert a + b == piece + (rest + tail);
    }
  }

  lemma SinglesStep(ts: seq<Token>, j: nat)
    requires j < |ts|
    ensures Singles(ts, j + 1) == Singles(ts, j) + if Loops(ts[j]) then 0 else 1
  {
  }

  lemma {:induction false} ShortestLegal(ts: seq<Token>, pi: nat) returns (w: string)
    requires pi <= |ts| && Alive(ts) && LegalFrom(ts, pi)
    ensures PlainFrom(ts, pi, w) && LineBreakFree(w)
    decreases |ts| - pi
  {
    hide TakesSome, PlainPiece, TakesLegal;
    if pi == |ts| {
      w := "";
    } else {
      var piece := PickPiece(ts[pi]);
      var rest := ShortestLegal(ts, pi + 1);
      hide PlainFrom;
      PlainCons(ts, pi, piece, rest);
      w := piece + rest;
    }
  }

  lemma {:induction false} PlainFromSplits(ts: seq<Token>, pi: nat, w: string) returns (pieces: seq<string>)
    requires pi <= |ts| && PlainFrom(ts, pi, w)
    ensures SplitsFrom(ts, pi, w, pieces)
    decreases |ts| - pi
  {
    hide PlainPiece, SplitsFrom;
    if pi == |ts| {
      pieces := [];
      EmptySplit(ts);
    } else {
      var k :| 0 <= k <= |w| && PlainPiece(ts[pi], w[..k]) && PlainFrom(ts, pi + 1, w[k..]);
      var rest := PlainFromSplits(ts, pi + 1, w[k..]);
      PrependPiece(ts, pi, w[..k], w[k..], rest);
      pieces := [w[..k]] + rest;
      assert w[..k] + w[k..] == w;
    }
  }

  lemma {:induction false} CoversThenSplits(ts: seq<Token>, j: nat, u: string, pieces: seq<string>, w: string, rest: seq<string>)
    requires j <= |ts| && Covers(ts, j, u, pieces, "") && SplitsFrom(ts, j, w, rest)
    ensures InLanguage(ts, u + w)
    decreases j
  {
    hide PlainPiece, SplitsFrom, Covers, InLanguage;
    if j == 0 {
      NothingCovered(ts, u, pieces);
      assert u + w == w;
      SplitIsIn(ts, w, rest);
    } else {
      CoverHasPieces(ts, j, u, pieces);
      CoversSplitLast(ts, j, u, pieces);
      var last := pieces[j - 1];
      var front := u[..|u| - |last|];
      PrependPiece(ts, j - 1, last, w, rest);
      CoversThenSplits(ts, j - 1, front, pieces[..j - 1], last + w, [last] + rest);
      assert front + (last + w) == u + w;
    }
  }

  lemma NothingCovered(ts: seq<Token>, u: string, pieces: seq<string>)
    requires Covers(ts, 0, u, pieces, "")
    ensures u == ""
  {
  }

  lemma SplitIsIn(ts: seq<Token>, w: string, pieces: seq<string>)
    requires SplitsFrom(ts, 0, w, pieces)
    ensures InLanguage(ts, w)
  {
  }

  // What a spelled subject holds: a slash first, and characters of the alphabet.
  lemma SpelledCharacter(ts: seq<Token>, subject: string, i: nat)
    requires Spellable(ts, subject) && i < |subject|
    ensures LegalChar(subject[i]) && (subject[i] == '/' || SearchChar(ts, subject[i]))
  {
    if i > 0 {
      SpellableChar(ts, subject, i);
    }
  }

  // A class that the search cannot spell, behind a token that can take the slash: the shortest prefix
  // leaves the class to the subject.
  lemma UnsearchedIsMissed(ts: seq<Token>, pi: nat, k: nat) returns (prefix: string)
    requires Alive(ts) && pi < k < |ts| && TakesSlash(ts[pi]) && LegalFrom(ts, pi + 1) && ts[k].Class? && !TakesSearched(ts, ts[k])
    ensures !AnsweredExactly(ts, prefix)
  {
    hide Alive, LegalFrom, PlainFrom, TakesSearched, Covers, InPlain, Spellable, Singles, InLanguage;
    var pieces: seq<string>;
    prefix, pieces := ShortestTo(ts, pi);
    var w := ShortestLegal(ts, pi + 1);
    SlashTaken(ts[pi]);
    PlainCons(ts, pi, "/", w);
    var rest := PlainFromSplits(ts, pi, "/" + w);
    CoversThenSplits(ts, pi, prefix, pieces, "/" + w, rest);
    SlashIsValid(w);
    assert Matchable(ts, prefix);
    SinglesGrow(ts, pi, k);
    if Completable(ts, prefix) {
      var subject :| Spellable(ts, subject) && InPlain(ts, prefix + subject);
      var at := CharacterIn(ts, k, prefix + subject);
      SpelledCharacter(ts, subject, at - |prefix|);
      assert (prefix + subject)[at] == subject[at - |prefix|];
      ClassUnsearched(ts, k, subject[at - |prefix|]);
    }
  }

  lemma CharacterIn(ts: seq<Token>, k: nat, w: string) returns (at: nat)
    requires k < |ts| && !Loops(ts[k]) && InPlain(ts, w)
    ensures Singles(ts, k) <= at < |w| && Takes(ts[k], w[at])
  {
    hide Covers, Takes, Singles;
    var pieces :| Covers(ts, |ts|, w, pieces, "");
    at := CharacterOf(ts, k, |ts|, w, pieces);
  }

  lemma ClassUnsearched(ts: seq<Token>, k: nat, c: char)
    requires k < |ts| && ts[k].Class? && !TakesSearched(ts, ts[k]) && (c == '/' || SearchChar(ts, c))
    ensures !Takes(ts[k], c)
  {
  }

  lemma SlashTaken(t: Token)
    requires TakesSlash(t)
    ensures PlainPiece(t, "/")
  {
  }

  lemma SlashIsValid(w: string)
    requires LineBreakFree(w)
    ensures ValidSubject("/" + w)
  {
  }

  lemma LastIllegal(ts: seq<Token>, pi: nat) returns (k: nat)
    requires pi <= |ts| && !LegalFrom(ts, pi)
    ensures pi <= k < |ts| && !TakesLegal(ts[k]) && LegalFrom(ts, k + 1)
    decreases |ts| - pi
  {
    hide TakesLegal;
    if LegalFrom(ts, pi + 1) {
      k := pi;
    } else {
      k := LastIllegal(ts, pi + 1);
    }
  }

  // A token behind a "**/" that takes line breaks only: in the shortest prefix that drops the slash, and
  // has all the line breaks, the slash is missing and no subject can make up for it.
  lemma DroppedIsMissed(ts: seq<Token>, d: nat) returns (prefix: string)
    requires Alive(ts) && d < |ts| && ts[d] == DoubleStar && SlashNext(ts, d) && !LegalFrom(ts, d + 1)
    ensures !AnsweredExactly(ts, prefix)
  {
    hide Alive, LegalFrom, PlainFrom, Covers, InPlain, Spellable, Singles, InLanguage, TakesLegal;
    var k := LastIllegal(ts, d + 1);
    SlashIsLegal(ts[d + 1]);
    var u, pieces := ShortestTo(ts, d);
    var a, b := ShortestFrom(ts, d + 2, k + 1);
    prefix := u + (a + b);
    var rest := PlainFromSplits(ts, d + 2, a + b);
    DropSlash(ts, d, a + b, rest);
    CoversThenSplits(ts, d, u, pieces, a + b, ["", ""] + rest);
    assert prefix + "" == prefix && ValidSubject("");
    assert Matchable(ts, prefix);
    IllegalTakesBreaks(ts[k]);
    SinglesStep(ts, d);
    SinglesStep(ts, d + 1);
    SinglesStep(ts, k);
    if Completable(ts, prefix) {
      var subject :| Spellable(ts, subject) && InPlain(ts, prefix + subject);
      var at := CharacterIn(ts, k, prefix + subject);
      LateIsLegal(ts, u, a, b, subject, at);
    }
  }

  lemma LateIsLegal(ts: seq<Token>, u: string, a: string, b: string, subject: string, at: nat)
    requires LineBreakFree(b) && Spellable(ts, subject) && |u| + |a| <= at < |u + (a + b) + subject|
    ensures LegalChar((u + (a + b) + subject)[at])
  {
    hide Spellable;
    var n := |u| + |a| + |b|;
    if at < n {
      assert (u + (a + b) + subject)[at] == b[at - |u| - |a|];
    } else {
      SpelledCharacter(ts, subject, at - n);
      assert (u + (a + b) + subject)[at] == subject[at - n];
    }
  }

  lemma IllegalTakesBreaks(t: Token)
    requires !TakesLegal(t)
    ensures !Loops(t) && forall c :: Takes(t, c) ==> !LegalChar(c)
  {
  }

  lemma PieceIsTaken(t: Token, piece: string)
    requires t.Class? && PlainPiece(t, piece)
    ensures TakesSome(t)
  {
    hide Takes;
    assert Takes(t, piece[0]);
  }

  // Only a class can take nothing.
  lemma OthersTakeSome(t: Token)
    ensures t.Class? || TakesSome(t)
  {
    match t {
      case Literal(c) => assert Takes(t, c);
      case Class(_, _) =>
      case _ => assert Takes(t, 'a');
    }
  }

  lemma MatchedIsAlive(ts: seq<Token>, w: string)
    requires InLanguage(ts, w)
    ensures Alive(ts)
  {
    hide TakesSome, PlainPiece;
    var pieces :| SplitsFrom(ts, 0, w, pieces);
    forall k | 0 <= k < |ts|
      ensures TakesSome(ts[k])
    {
      OthersTakeSome(ts[k]);
      if ts[k].Class? {
        assert PlainPiece(ts[0 + k], pieces[k]);
        PieceIsTaken(ts[k], pieces[k]);
      }
    }
  }

  // A pattern with a token that takes nothing matches nothing, and is not said to.
  lemma DeadIsExact(ts: seq<Token>, prefix: string)
    requires !Alive(ts)
    ensures AnsweredExactly(ts, prefix)
  {
    hide InPlain, InLanguage, Alive;
    if Completable(ts, prefix) {
      Sound(ts, prefix);
    }
    if Matchable(ts, prefix) {
      var subject :| ValidSubject(subject) && InLanguage(ts, prefix + subject);
      MatchedIsAlive(ts, prefix + subject);
    }
  }

  // The exact condition: of the patterns whose tokens all take something, those are answered exactly for
  // every prefix that have nothing behind a "**/" that takes line breaks only, and whose classes take a
  // character of the alphabet wherever a subject may have to spell them.
  lemma ExactlyWhen(ts: seq<Token>)
    ensures (forall prefix :: AnsweredExactly(ts, prefix)) <==> !Alive(ts) || (SlashesDropSafely(ts) && ClassesSearched(ts))
  {
    hide Alive, AnsweredExactly;
    if !Alive(ts) {
      forall prefix
        ensures AnsweredExactly(ts, prefix)
      {
        DeadIsExact(ts, prefix);
      }
    } else if !SlashesDropSafely(ts) {
      var d :| 0 <= d < |ts| && ts[d] == DoubleStar && SlashNext(ts, d) && !LegalFrom(ts, d + 1);
      var prefix := DroppedIsMissed(ts, d);
    } else if !ClassesSearched(ts) {
      var pi, k :| 0 <= pi < k < |ts| && TakesSlash(ts[pi]) && LegalFrom(ts, pi + 1) && ts[k].Class? && !TakesSearched(ts, ts[k]);
      var prefix := UnsearchedIsMissed(ts, pi, k);
    } else {
      forall prefix
        ensures AnsweredExactly(ts, prefix)
      {
        CompletingIsExact(ts, prefix);
      }
    }
  }

  // ---- The shortest cases ---------------------------------------------------

  const BASE_CLASS := Class(true, [('-', '-'), ('a', 'a'), ('0', '0'), (':', ':'), ('_', '_'), ('.', '.')])

  lemma BaseClassTakesNothingSearched(ts: seq<Token>, c: char)
    requires ts == [Literal('/'), BASE_CLASS] && SearchChar(ts, c)
    ensures !Takes(BASE_CLASS, c)
  {
    var r := BASE_CLASS.ranges;
    assert r[0].0 <= '-' <= r[0].1 && r[1].0 <= 'a' <= r[1].1 && r[2].0 <= '0' <= r[2].1;
    assert r[3].0 <= ':' <= r[3].1 && r[4].0 <= '_' <= r[4].1 && r[5].0 <= '.' <= r[5].1;
    assert TokensChars(ts) == ['/'] + TokensChars([BASE_CLASS]) by {
      assert ts[1..] == [BASE_CLASS];
    }
    assert TokensChars([BASE_CLASS]) == Endpoints(r) + [] by {
      assert [BASE_CLASS][1..] == [];
    }
    EndpointsAreEnds(r, c);
  }

  lemma {:induction false} EndpointsAreEnds(ranges: seq<(char, char)>, c: char)
    requires forall i :: 0 <= i < |ranges| ==> ranges[i].0 == ranges[i].1
    ensures c in Endpoints(ranges) ==> Inside(ranges, c)
  {
    if ranges != [] && c in Endpoints(ranges) {
      if c == ranges[0].0 {
        assert ranges[0].0 <= c <= ranges[0].1;
      } else {
        EndpointsAreEnds(ranges[1..], c);
        var i :| 0 <= i < |ranges[1..]| && ranges[1..][i].0 <= c <= ranges[1..][i].1;
        assert ranges[1..][i] == ranges[i + 1];
      }
    }
  }

  lemma PlainTail(ts: seq<Token>, w: string)
    requires ts != [] && !Loops(ts[|ts| - 1]) && InPlain(ts, w)
    ensures w != "" && Takes(ts[|ts| - 1], w[|w| - 1]) && InPlain(ts[..|ts| - 1], w[..|w| - 1])
  {
    hide Takes, Concat;
    var n := |ts|;
    var parts :| Covers(ts, n, w, parts, "");
    CoversSplitLast(ts, n, w, parts);
    assert w[|w| - 1] == parts[n - 1][0];
    assert Covers(ts[..n - 1], n - 1, w[..|w| - 1], parts[..n - 1], "");
  }

  lemma SpellableChar(ts: seq<Token>, subject: string, i: int)
    requires Spellable(ts, subject) && 0 < i < |subject|
    ensures SearchChar(ts, subject[i])
  {
    assert subject[1..][i - 1] == subject[i];
  }

  lemma BaseClassMatches(ts: seq<Token>)
    requires ts == [Literal('/'), BASE_CLASS]
    ensures InLanguage(ts, "/b")
  {
    var pieces := ["/", "b"];
    assert pieces[1..] == ["b"] && pieces[1..][1..] == [];
    assert PlainPiece(ts[0], "/") && PlainPiece(ts[1], "b");
    assert SplitsFrom(ts, 0, "/b", pieces);
  }

  lemma BaseClassNotCompletable(ts: seq<Token>)
    requires ts == [Literal('/'), BASE_CLASS]
    ensures !Completable(ts, "")
  {
    hide InPlain, Takes, Spellable;
    if Completable(ts, "") {
      var subject :| Spellable(ts, subject) && InPlain(ts, "" + subject);
      var w := "" + subject;
      assert w == subject;
      PlainTail(ts, w);
      PlainTail(ts[..1], w[..|w| - 1]);
      SpellableChar(ts, subject, |w| - 1);
      BaseClassTakesNothingSearched(ts, w[|w| - 1]);
    }
  }

  // A negated class that excludes the whole alphabet: "/b" matches, yet the search says no.
  lemma UnwitnessedClassIsMissed()
    ensures var ts := [Literal('/'), BASE_CLASS];
            Compiled(Show(ts)) == Ok(ts) && ValidSubject("/b") && InLanguage(ts, "" + "/b") && !Completable(ts, "")
  {
    var ts := [Literal('/'), BASE_CLASS];
    hide InLanguage, Compiled, Show, Completable;
    CompileIsInvertible("", ts);
    BaseClassMatches(ts);
    BaseClassNotCompletable(ts);
    assert "" + "/b" == "/b";
  }

  lemma LineBreakMatches(ts: seq<Token>)
    requires ts == [DoubleStar, Literal('/'), Literal('\n')]
    ensures InLanguage(ts, "\n")
  {
    var pieces := ["", "", "\n"];
    assert pieces[1..] == ["", "\n"] && pieces[1..][1..] == ["\n"] && pieces[1..][1..][1..] == [];
    assert PlainPiece(ts[0], "") && Droppable(ts, 1) && PlainPiece(ts[2], "\n");
    assert SplitsFrom(ts, 0, "\n", pieces);
  }

  lemma SlashBeforeBreak(ts: seq<Token>, subject: string)
    requires ts == [DoubleStar, Literal('/'), Literal('\n')] && InPlain(ts, "\n" + subject)
    ensures |subject| > 1 && subject[|subject| - 1] == '\n'
  {
    hide InPlain;
    var w := "\n" + subject;
    PlainTail(ts, w);
    PlainTail(ts[..2], w[..|w| - 1]);
    assert w[|w| - 2] == '/';
  }

  // A line break that "**/" hands to the tokens behind it cannot be repeated by a subject.
  lemma LineBreakInPrefixIsMissed()
    ensures var ts := [DoubleStar, Literal('/'), Literal('\n')];
            Compiled(Show(ts)) == Ok(ts) && Witnessed(ts) && InLanguage(ts, "\n" + "") && !Completable(ts, "\n")
  {
    var ts := [DoubleStar, Literal('/'), Literal('\n')];
    CompileIsInvertible("", ts);
    LineBreakMatches(ts);
    assert Witnessed(ts);
    hide InPlain, Spellable, InLanguage, Compiled, Show, Normal, Witnessed, SearchChar;
    assert "\n" + "" == "\n";
    if Completable(ts, "\n") {
      var subject :| Spellable(ts, subject) && InPlain(ts, "\n" + subject);
      NoBreakSpelled(ts, subject);
      SlashBeforeBreak(ts, subject);
    }
  }

  lemma NoBreakSpelled(ts: seq<Token>, subject: string)
    requires Spellable(ts, subject)
    ensures forall i :: 0 < i < |subject| ==> subject[i] != '\n'
  {
    forall i | 0 < i < |subject|
      ensures subject[i] != '\n'
    {
      SpellableChar(ts, subject, i);
    }
  }

  // The slash of "**/" is dropped after any run at all, not only for zero segments: "**/x" matches
  // "foox" too.
  lemma SlashDropsAfterAnyRun(rest: seq<Token>, u: string, w: string)
    requires InLanguage(rest, w)
    ensures InLanguage([DoubleStar, Literal('/')] + rest, u + w)
  {
    hide PlainPiece;
    var ts := [DoubleStar, Literal('/')] + rest;
    var pieces :| SplitsFrom(rest, 0, w, pieces);
    var all := [u, ""] + pieces;
    assert all[1..] == [""] + pieces && all[1..][1..] == pieces;
    assert Concat(all[1..]) == "" + Concat(pieces);
    LongerRun(u, "");
    assert u + "" == u;
    forall i | 0 <= i < |all|
      ensures PlainPiece(ts[i], all[i]) || (i > 0 && all[i] == "" && Droppable(ts, i))
    {
      if i > 1 {
        assert all[i] == pieces[i - 2] && ts[i] == rest[i - 2];
        assert i > 2 ==> ts[i - 1] == rest[i - 3];
      }
    }
    assert SplitsFrom(ts, 0, u + w, all);
  }
}
