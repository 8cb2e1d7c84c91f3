/** How the Dropbox index selects a subtree: a LIKE pattern over folded paths, against prefixes of lists of
    names (dropbox/internal/dropbox/store.go). */
module PathPrefix {

  // ---- LIKE -----------------------------------------------------------------

  function Lower(c: char): char {
    if 'A' <= c <= 'Z' then ((c as int - 'A' as int) + 'a' as int) as char else c
  }

  // SQLite's LIKE with a backslash for escape: letters of the ASCII alphabet match in either case.
  predicate Like(pattern: string, s: string)
    decreases |pattern| + |s|
  {
    if pattern == "" then s == ""
    else if pattern[0] == '\\' then |pattern| > 1 && s != "" && Lower(pattern[1]) == Lower(s[0]) && Like(pattern[2..], s[1..])
    else if pattern[0] == '%' then Like(pattern[1..], s) || (s != "" && Like(pattern, s[1..]))
    else if pattern[0] == '_' then s != "" && Like(pattern[1..], s[1..])
    else s != "" && Lower(pattern[0]) == Lower(s[0]) && Like(pattern[1..], s[1..])
  }

  predicate Meta(c: char) {
    c == '\\' || c == '%' || c == '_'
  }

  // escapeLike
  function EscapeLike(s: string): string {
    if s == "" then "" else (if Meta(s[0]) then ['\\', s[0]] else [s[0]]) + EscapeLike(s[1..])
  }

  // What foldPath leaves of the ASCII letters.
  predicate Folded(s: string) {
    forall i :: 0 <= i < |s| ==> !('A' <= s[i] <= 'Z')
  }

  lemma LowerFolded(c: char, d: char)
    requires !('A' <= c <= 'Z') && !('A' <= d <= 'Z')
    ensures Lower(c) == Lower(d) <==> c == d
  {
  }

  lemma LikeOfCharacter(c: char, rest: string, s: string)
    ensures Like((if Meta(c) then ['\\', c] else [c]) + rest, s) <==> s != "" && Lower(c) == Lower(s[0]) && Like(rest, s[1..])
  {
    var head := if Meta(c) then ['\\', c] else [c];
    assert (head + rest)[|head|..] == rest;
  }

  // An escaped text matches itself and nothing else.
  lemma {:induction false} LikeOfEscaped(text: string, rest: string, s: string)
    requires Folded(text) && Folded(s)
    ensures Like(EscapeLike(text) + rest, s) <==> text <= s && Like(rest, s[|text|..])
  {
    if text == "" {
      assert EscapeLike(text) + rest == rest;
    } else {
      var head := if Meta(text[0]) then ['\\', text[0]] else [text[0]];
      assert EscapeLike(text) + rest == head + (EscapeLike(text[1..]) + rest);
      LikeOfCharacter(text[0], EscapeLike(text[1..]) + rest, s);
      hide Like, EscapeLike, Lower;
      if s != "" {
        LowerFolded(text[0], s[0]);
        LikeOfEscaped(text[1..], rest, s[1..]);
        assert text <= s ==> s[1..][|text| - 1..] == s[|text|..];
        assert text <= s <==> text[0] == s[0] && text[1..] <= s[1..] by {
          PrefixByHead(text, s);
        }
      }
    }
  }

  lemma PrefixByHead(a: string, b: string)
    requires a != "" && b != ""
    ensures a <= b <==> a[0] == b[0] && a[1..] <= b[1..]
  {
    if a[0] == b[0] && a[1..] <= b[1..] {
      assert a == [a[0]] + a[1..] && b == [b[0]] + b[1..];
    }
  }

  lemma {:induction false} PercentMatchesAll(s: string)
    ensures Like("%", s)
  {
    if s != "" {
      PercentMatchesAll(s[1..]);
    }
  }

  // ---- The selection --------------------------------------------------------

  // path_lower = prefix OR path_lower LIKE escapeLike(prefix) || '/%'
  predicate Selected(prefix: string, path: string) {
    path == prefix || Like(EscapeLike(prefix) + "/%", path)
  }

  predicate IsUnder(prefix: string, path: string) {
    path == prefix || prefix + "/" <= path
  }

  // The rows selected are the path itself and what begins with it and a slash.
  lemma SelectedExactly(prefix: string, path: string)
    requires Folded(prefix) && Folded(path)
    ensures Selected(prefix, path) <==> IsUnder(prefix, path)
  {
    LikeOfEscaped(prefix, "/%", path);
    if prefix <= path {
      var rest := path[|prefix|..];
      if rest != "" {
        PercentMatchesAll(rest[1..]);
        assert "/%"[1..] == "%";
      }
      assert Like("/%", rest) <==> rest != "" && rest[0] == '/';
      hide Like;
      assert prefix + "/" <= path <==> rest != "" && rest[0] == '/';
    }
  }

  // Without the escape an underscore in a folder's name selects another folder's files.
  lemma UnescapedSelectsTooMuch()
    ensures Like("/a_b" + "/%", "/axb/c") && !Selected("/a_b", "/axb/c")
  {
    SelectedExactly("/a_b", "/axb/c");
    assert ("/a_b" + "/")[2] == '_' && "/axb/c"[2] == 'x';
    PercentMatchesAll("c");
    var p := "/a_b/%";
    assert "/a_b" + "/%" == p;
    assert p[1..] == "a_b/%" && p[1..][1..] == "_b/%" && "_b/%"[1..] == "b/%" && "b/%"[1..] == "/%" && "/%"[1..] == "%";
    var s := "/axb/c";
    assert s[1..] == "axb/c" && "axb/c"[1..] == "xb/c" && "xb/c"[1..] == "b/c" && "b/c"[1..] == "/c" && "/c"[1..] == "c";
    assert Like("/%", "/c");
    assert Like("b/%", "b/c");
    assert Like("_b/%", "xb/c");
    assert Like("a_b/%", "axb/c");
  }

  // ---- Lists of names -------------------------------------------------------

  predicate Name(s: string) {
    s != "" && Folded(s) && forall i :: 0 <= i < |s| ==> s[i] != '/'
  }

  predicate Names(p: seq<string>) {
    forall i :: 0 <= i < |p| ==> Name(p[i])
  }

  // The absolute path of a list of names.
  function Show(p: seq<string>): string {
    if p == [] then "" else "/" + p[0] + Show(p[1..])
  }

  predicate StartsPart(s: string) {
    s == "" || s[0] == '/'
  }

  lemma {:induction false} ShowIsFolded(p: seq<string>)
    requires Names(p)
    ensures Folded(Show(p)) && StartsPart(Show(p))
  {
    if p != [] {
      ShowIsFolded(p[1..]);
    }
  }

  // The length of the first name of a path without its leading slash.
  function SlashAt(s: string): nat {
    if s == "" || s[0] == '/' then 0 else 1 + SlashAt(s[1..])
  }

  lemma {:induction false} SlashAtEnd(a: string, x: string)
    requires StartsPart(x) && forall i :: 0 <= i < |a| ==> a[i] != '/'
    ensures SlashAt(a + x) == |a|
  {
    if a == "" {
      assert a + x == x;
    } else {
      assert (a + x)[1..] == a[1..] + x && (a + x)[0] == a[0];
      SlashAtEnd(a[1..], x);
    }
  }

  lemma SameHead(a: string, b: string, x: string, y: string)
    requires Name(a) && Name(b) && StartsPart(x) && StartsPart(y) && a + x == b + y
    ensures a == b && x == y
  {
    SlashAtEnd(a, x);
    SlashAtEnd(b, y);
    hide SlashAt;
    assert a == (a + x)[..|a|] && b == (b + y)[..|a|];
    assert x == (a + x)[|a|..] && y == (b + y)[|a|..];
  }

  lemma ShowStep(p: seq<string>, u: string)
    requires p != [] && Names(p) && StartsPart(u)
    ensures Show(p) + u != "" && (Show(p) + u)[1..] == p[0] + (Show(p[1..]) + u)
    ensures Name(p[0]) && Names(p[1..]) && StartsPart(Show(p[1..]) + u)
  {
    hide Name;
    ShowIsFolded(p[1..]);
    hide Folded;
    AfterSlash(p[0], Show(p[1..]), u);
    if Show(p[1..]) == "" {
      assert Show(p[1..]) + u == u;
    }
  }

  lemma AfterSlash(name: string, tail: string, u: string)
    ensures ("/" + name + tail + u)[1..] == name + (tail + u)
  {
    assert "/" + name + tail + u == "/" + (name + (tail + u));
  }

  // A path that continues another at a slash has the other's names first.
  lemma {:induction false} ContinuesExactly(p: seq<string>, q: seq<string>, u: string)
    requires Names(p) && Names(q) && StartsPart(u) && Show(q) == Show(p) + u
    ensures p <= q
  {
    if p != [] {
      ShowStep(p, u);
      assert q != [];
      ShowStep(q, "");
      hide Show, Name;
      assert Show(q) + "" == Show(q) && Show(q[1..]) + "" == Show(q[1..]);
      SameHead(q[0], p[0], Show(q[1..]), Show(p[1..]) + u);
      ContinuesExactly(p[1..], q[1..], u);
      assert p == [p[0]] + p[1..] && q == [q[0]] + q[1..];
    }
  }

  lemma {:induction false} PrefixContinues(p: seq<string>, q: seq<string>)
    requires Names(q) && p <= q
    ensures Show(q) == Show(p) + Show(q[|p|..])
  {
    if p == [] {
      assert q[0..] == q;
    } else {
      PrefixContinues(p[1..], q[1..]);
      assert q[1..][|p| - 1..] == q[|p|..];
    }
  }

  lemma UnderIsContinuation(prefix: string, path: string) returns (u: string)
    requires IsUnder(prefix, path)
    ensures path == prefix + u && StartsPart(u)
  {
    u := path[|prefix|..];
    assert path == path[..|prefix|] + u;
    if path != prefix {
      assert u[0] == (prefix + "/")[|prefix|];
      assert path[..|prefix|] == (prefix + "/")[..|prefix|] == prefix;
    }
  }

  lemma ContinuationIsUnder(prefix: string, u: string)
    requires StartsPart(u)
    ensures IsUnder(prefix, prefix + u)
  {
    if u == "" {
      assert prefix + u == prefix;
    } else {
      assert prefix + u == (prefix + "/") + u[1..];
    }
  }

  // The subtree that the index selects under a path is what lies under it as a list of names: a folder
  // /foo has /foo/bar under it and not /foobar.
  lemma SubtreeIsPrefix(p: seq<string>, q: seq<string>)
    requires Names(p) && Names(q)
    ensures Selected(Show(p), Show(q)) <==> p <= q
  {
    ShowIsFolded(p);
    ShowIsFolded(q);
    SelectedExactly(Show(p), Show(q));
    hide Selected, Show, IsUnder;
    assert Selected(Show(p), Show(q)) <==> IsUnder(Show(p), Show(q));
    if p <= q {
      PrefixContinues(p, q);
      ShowIsFolded(q[|p|..]);
      ContinuationIsUnder(Show(p), Show(q[|p|..]));
    }
    if IsUnder(Show(p), Show(q)) {
      var u := UnderIsContinuation(Show(p), Show(q));
      ContinuesExactly(p, q, u);
    }
  }
}
