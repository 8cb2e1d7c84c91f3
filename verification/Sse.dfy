/** The consumer's server-sent-events parser (eventplane/consumer/sse.go) over the frames the feed
    renders (eventplane/outbox/feed.go), under truncation at any byte. Compare sections 9.2.5 and
    9.2.6 of the WHATWG HTML Standard. */
module Sse {
  import opened Numeric

  // bufio.Scanner gives up on a line that fills this many bytes without a line feed.
  const MAX_LINE := 0x10_0000

  datatype Frame = Frame(id: string, event: string, data: string)

  // ---- Lines ----------------------------------------------------------------

  // The index of the first line feed, or the length of s.
  function LineEnd(s: string): (n: nat)
    ensures n <= |s|
    ensures forall i :: 0 <= i < n ==> s[i] != '\n'
    ensures n < |s| ==> s[n] == '\n'
  {
    if s == "" || s[0] == '\n' then 0 else 1 + LineEnd(s[1..])
  }

  function DropCR(line: string): string {
    if line != "" && line[|line| - 1] == '\r' then line[..|line| - 1] else line
  }

  // The lines bufio.Scanner yields: an unterminated last line counts, an over-long one ends the scan.
  function Lines(s: string): seq<string> {
    var n := LineEnd(s);
    if s == "" || n >= MAX_LINE then []
    else if n == |s| then [DropCR(s)]
    else [DropCR(s[..n])] + Lines(s[n + 1..])
  }

  // What follows the last line feed.
  function Tail(s: string): string {
    var n := LineEnd(s);
    if n == |s| then s else Tail(s[n + 1..])
  }

  lemma LinesStep(s: string)
    requires s != "" && LineEnd(s) < MAX_LINE
    ensures var n := LineEnd(s);
            Lines(s) == [DropCR(s[..n])] + Lines(if n == |s| then "" else s[n + 1..])
  {
    hide LineEnd, DropCR;
    assert s[..|s|] == s;
  }

  lemma EmptyScan()
    ensures Lines("") == [] && Scan("") == []
  {
  }

  lemma OverlongLine(s: string)
    requires LineEnd(s) >= MAX_LINE
    ensures Lines(s) == []
  {
  }

  lemma LineEndIs(s: string, n: nat)
    requires n <= |s|
    requires forall i :: 0 <= i < n ==> s[i] != '\n'
    requires n < |s| ==> s[n] == '\n'
    ensures LineEnd(s) == n
  {
  }

  // ---- Fields and frames ----------------------------------------------------

  function IndexOf(s: string, c: char): (n: nat)
    ensures n <= |s|
    ensures forall i :: 0 <= i < n ==> s[i] != c
    ensures n < |s| ==> s[n] == c
  {
    if s == "" || s[0] == c then 0 else 1 + IndexOf(s[1..], c)
  }

  // One line "field: value", without the single leading space of the value.
  function SplitField(line: string): (string, string) {
    var i := IndexOf(line, ':');
    if i == |line| then (line, "")
    else
      var value := line[i + 1..];
      (line[..i], if value != "" && value[0] == ' ' then value[1..] else value)
  }

  function Join(parts: seq<string>): string {
    if parts == [] then "" else if |parts| == 1 then parts[0] else parts[0] + "\n" + Join(parts[1..])
  }

  // The parser between two lines; sawData is parts != [].
  datatype Parser = Parser(id: string, event: string, parts: seq<string>)

  const FRESH := Parser("", "", [])

  function Dispatch(p: Parser): seq<Frame> {
    if p.parts == [] then [] else [Frame(p.id, p.event, Join(p.parts))]
  }

  // The effect of a line that is not blank.
  function Feed(p: Parser, line: string): Parser
    requires line != ""
  {
    if line[0] == ':' then p
    else
      var (field, value) := SplitField(line);
      if field == "id" then p.(id := value)
      else if field == "event" then p.(event := value)
      else if field == "data" then p.(parts := p.parts + [value])
      else p
  }

  // The frames that the lines dispatch, starting from parser state p.
  function Frames(p: Parser, lines: seq<string>): seq<Frame>
    decreases |lines|
  {
    if lines == [] then []
    else if lines[0] == "" then Dispatch(p) + Frames(FRESH, lines[1..])
    else Frames(Feed(p, lines[0]), lines[1..])
  }

  function Scan(stream: string): seq<Frame> {
    Frames(FRESH, Lines(stream))
  }

  // The frames handed to a callback that stops the scan at the first frame it rejects.
  function Through(frames: seq<Frame>, stop: Frame -> bool): seq<Frame> {
    if frames == [] || stop(frames[0]) then frames[..if frames == [] then 0 else 1]
    else [frames[0]] + Through(frames[1..], stop)
  }

  // scanFrames: the callback sees exactly the scanned frames up to the one it stops at.
  method ScanFrames(stream: string, stop: Frame -> bool) returns (delivered: seq<Frame>)
    ensures delivered == Through(Scan(stream), stop)
  {
    var id, event, dataBuf, sawData := "", "", [], false;
    var rest := stream;
    delivered := [];
    EmptyScan();
    hide LineEnd, Lines, Frames, DropCR, SplitField;
    while rest != ""
      invariant sawData == (dataBuf != [])
      invariant Through(Scan(stream), stop) ==
                delivered + Through(Frames(Parser(id, event, dataBuf), Lines(rest)), stop)
      decreases |rest|
    {
      var n := LineEnd(rest);
      if n >= MAX_LINE {
        OverlongLine(rest);
        NothingScanned(Parser(id, event, dataBuf));
        return;
      }
      var line := DropCR(rest[..n]);
      LinesStep(rest);
      rest := if n == |rest| then "" else rest[n + 1..];
      FramesStep(Parser(id, event, dataBuf), line, Lines(rest));
      if line == "" {
        if sawData {
          var frame := Frame(id, event, Join(dataBuf));
          delivered := delivered + [frame];
          if stop(frame) {
            return;
          }
        }
        id, event, dataBuf, sawData := "", "", [], false;
      } else if line[0] != ':' {
        var (field, value) := SplitField(line);
        if field == "id" {
          id := value;
        } else if field == "event" {
          event := value;
        } else if field == "data" {
          dataBuf, sawData := dataBuf + [value], true;
        }
      }
    }
    NothingScanned(Parser(id, event, dataBuf));
  }

  // ---- Truncation -----------------------------------------------------------

  // An unterminated line dispatches nothing, unless it is a lone carriage return.
  lemma UnterminatedLine(p: Parser, s: string)
    requires LineEnd(s) == |s| && s != "\r"
    ensures Frames(p, Lines(s)) == []
  {
    hide Feed, Dispatch;
    assert s != "" && |s| < MAX_LINE ==> Lines(s) == [DropCR(s)];
  }

  lemma LineEndOfCut(s: string, k: nat)
    requires LineEnd(s) < k <= |s|
    ensures LineEnd(s[..k]) == LineEnd(s)
    ensures s[..k][..LineEnd(s)] == s[..LineEnd(s)]
    ensures s[..k][LineEnd(s) + 1..] == s[LineEnd(s) + 1..][..k - LineEnd(s) - 1]
  {
    hide LineEnd;
    LineEndIs(s[..k], LineEnd(s));
  }

  lemma OneLineTail(s: string)
    requires LineEnd(s) == |s|
    ensures Tail(s) == s
  {
  }

  lemma TailStep(s: string)
    requires LineEnd(s) < |s|
    ensures Tail(s) == Tail(s[LineEnd(s) + 1..])
  {
    hide LineEnd;
  }

  function NextParser(p: Parser, line: string): Parser {
    if line == "" then FRESH else Feed(p, line)
  }

  // The parser behind the complete lines of the stream; None when an overlong line ended the scan.
  function Behind(p: Parser, s: string): Option<Parser>
    decreases |s|
  {
    var n := LineEnd(s);
    if n >= MAX_LINE then None
    else if n == |s| then Some(p)
    else Behind(NextParser(p, DropCR(s[..n])), s[n + 1..])
  }

  // The bytes end in a lone carriage return, and data lines wait for their blank line.
  predicate HalfBlank(p: Parser, s: string) {
    Tail(s) == "\r" && Behind(p, s).Some? && Behind(p, s).value.parts != []
  }

  lemma BehindStep(p: Parser, s: string)
    requires LineEnd(s) < |s| && LineEnd(s) < MAX_LINE
    ensures var n := LineEnd(s);
            Behind(p, s) == Behind(NextParser(p, DropCR(s[..n])), s[n + 1..])
  {
    hide LineEnd, NextParser, DropCR;
  }

  // A lone carriage return is a blank line if the stream ends with it.
  lemma LoneReturn(p: Parser)
    ensures Behind(p, "\r") == Some(p) && Tail("\r") == "\r" && Frames(p, Lines("\r")) == Dispatch(p)
  {
    LineEndIs("\r", 1);
    assert Lines("\r") == [""];
    assert [""][1..] == [];
    NothingScanned(FRESH);
    hide Dispatch;
    assert Dispatch(p) + [] == Dispatch(p);
  }

  // Cutting a stream anywhere dispatches a prefix of its frames, unless the cut leaves a lone
  // carriage return behind data lines. No bound on the lines is needed.
  lemma {:induction false} TruncationFrom(p: Parser, s: string, k: nat)
    requires k <= |s| && !HalfBlank(p, s[..k])
    ensures Frames(p, Lines(s[..k])) <= Frames(p, Lines(s))
    decreases |s|
  {
    hide Feed, Dispatch, LineEnd, Lines, DropCR, Tail, Frames, Behind, NextParser;
    var n := LineEnd(s);
    if k <= n {
      LineEndIs(s[..k], k);
      if s[..k] == "\r" {
        LoneReturn(p);
        NothingPending(p);
      } else {
        UnterminatedLine(p, s[..k]);
      }
    } else {
      var line, rest := DropCR(s[..n]), s[n + 1..];
      LineEndOfCut(s, k);
      TailStep(s[..k]);
      EmptyScan();
      if n < MAX_LINE {
        BehindStep(p, s[..k]);
        LinesStep(s);
        LinesStep(s[..k]);
        LineGoesOn(p, line, Lines(rest));
        LineGoesOn(p, line, Lines(rest[..k - n - 1]));
        TruncationFrom(NextParser(p, line), rest, k - n - 1);
      } else {
        OverlongLine(s[..k]);
        NothingScanned(p);
      }
    }
  }

  lemma NothingPending(p: Parser)
    ensures p.parts == [] ==> Dispatch(p) == []
  {
  }

  // The frames of a line list are those of its first line, and those of the rest from the next parser on.
  lemma LineGoesOn(p: Parser, line: string, rest: seq<string>)
    ensures Frames(p, [line] + rest) == (if line == "" then Dispatch(p) else []) + Frames(NextParser(p, line), rest)
  {
    FramesStep(p, line, rest);
    hide Frames, Dispatch, Feed;
  }

  // Bytes that turn the lone carriage return into the beginning of a line, and add data behind it.
  const MORE_DATA := "x" + "\n" + ("data:b" + "\n" + "\n")

  lemma MoreDataLines()
    ensures Lines("\r" + MORE_DATA) == ["\rx"] + (["data:b"] + [""])
  {
    assert Lines("\n") == [""] by {
      LineEndIs("\n", 0);
      assert "\n"[1..] == "";
    }
    hide LineEnd, Lines;
    LinesAre("data:b", "\n");
    LinesAre("\rx", "data:b" + "\n" + "\n");
    assert "\r" + MORE_DATA == "\rx" + "\n" + ("data:b" + "\n" + "\n");
  }

  lemma MoreDataFeeds(p: Parser)
    ensures Feed(p, "data:b") == p.(parts := p.parts + ["b"]) && Feed(p, "\rx") == p
  {
    IndexIs("data:b", ':', 4);
    IndexIs("\rx", ':', 2);
  }

  lemma MoreDataFrames(p: Parser)
    ensures Frames(p, Lines("\r" + MORE_DATA)) == Dispatch(p.(parts := p.parts + ["b"]))
  {
    hide Feed, Lines, Frames, Dispatch;
    MoreDataLines();
    MoreDataFeeds(p);
    var more := p.(parts := p.parts + ["b"]);
    NothingScanned(FRESH);
    FramesStep(more, "", []);
    assert [""] + [] == [""];
    FramesStep(p, "data:b", [""]);
    FramesStep(p, "\rx", ["data:b"] + [""]);
    assert Dispatch(more) + [] == Dispatch(more);
  }

  lemma {:induction false} JoinGrows(parts: seq<string>, part: string)
    requires parts != []
    ensures |Join(parts + [part])| > |Join(parts)|
  {
    if |parts| == 1 {
      assert (parts + [part])[1..] == [part];
    } else {
      assert (parts + [part])[1..] == parts[1..] + [part];
      JoinGrows(parts[1..], part);
    }
  }

  lemma {:induction false} HalfBlankBreaks(p: Parser, s: string)
    requires HalfBlank(p, s)
    ensures !(Frames(p, Lines(s)) <= Frames(p, Lines(s + MORE_DATA)))
    decreases |s|
  {
    hide Feed, LineEnd, Lines, DropCR, Tail, Frames, Behind, NextParser, Dispatch, Join;
    var n := LineEnd(s);
    if n == |s| {
      OneLineTail(s);
      LoneReturn(p);
      MoreDataFrames(p);
      MoreIsNotSame(p);
    } else {
      var line, rest := DropCR(s[..n]), s[n + 1..];
      var all := s + MORE_DATA;
      NotOverlong(p, s);
      TailStep(s);
      BehindStep(p, s);
      LineEndIs(all, n);
      assert all[..n] == s[..n] && all[n + 1..] == rest + MORE_DATA;
      LinesStep(s);
      LinesStep(all);
      LineGoesOn(p, line, Lines(rest));
      LineGoesOn(p, line, Lines(rest + MORE_DATA));
      HalfBlankBreaks(NextParser(p, line), rest);
      SamePrefix(if line == "" then Dispatch(p) else [], Frames(NextParser(p, line), Lines(rest)), Frames(NextParser(p, line), Lines(rest + MORE_DATA)));
    }
  }

  lemma NotOverlong(p: Parser, s: string)
    requires Behind(p, s).Some?
    ensures LineEnd(s) < MAX_LINE
  {
  }

  lemma MoreIsNotSame(p: Parser)
    requires p.parts != []
    ensures !(Dispatch(p) <= Dispatch(p.(parts := p.parts + ["b"])))
  {
    hide Join;
    JoinGrows(p.parts, "b");
    var more := p.(parts := p.parts + ["b"]);
    assert Dispatch(p)[0].data == Join(p.parts) && Dispatch(more)[0].data == Join(p.parts + ["b"]);
  }

  lemma SamePrefix(head: seq<Frame>, a: seq<Frame>, b: seq<Frame>)
    ensures head + a <= head + b <==> a <= b
  {
    assert (head + a)[|head|..] == a && (head + b)[|head|..] == b;
    if head + a <= head + b {
      assert b[..|a|] == (head + b)[|head|..|head| + |a|] == (head + a)[|head|..];
    }
  }

  // Exactly the received bytes whose frames stand whatever is still to come: all but those that end in
  // a lone carriage return behind data lines that have not been dispatched.
  lemma TruncationExactly(received: string)
    ensures (forall more :: Scan(received) <= Scan(received + more)) <==> !HalfBlank(FRESH, received)
  {
    hide Scan, HalfBlank;
    if HalfBlank(FRESH, received) {
      HalfBlankScan(received);
    } else {
      forall more
        ensures Scan(received) <= Scan(received + more)
      {
        StandsWhatever(received, more);
      }
    }
  }

  lemma HalfBlankScan(received: string)
    requires HalfBlank(FRESH, received)
    ensures !(Scan(received) <= Scan(received + MORE_DATA))
  {
    hide Frames, Lines, HalfBlank;
    HalfBlankBreaks(FRESH, received);
  }

  lemma StandsWhatever(received: string, more: string)
    requires !HalfBlank(FRESH, received)
    ensures Scan(received) <= Scan(received + more)
  {
    hide Frames, Lines, HalfBlank;
    assert (received + more)[..|received|] == received;
    TruncationFrom(FRESH, received + more, |received|);
  }

  lemma NothingScanned(p: Parser)
    ensures Frames(p, []) == []
  {
  }

  lemma TailWithin(s: string)
    ensures forall c :: c in Tail(s) ==> c in s
  {
  }

  // A stream without carriage returns never dispatches half a frame, wherever it is cut.
  lemma TruncationSafe(s: string, k: nat)
    requires '\r' !in s && k <= |s|
    ensures Scan(s[..k]) <= Scan(s)
  {
    var tail := Tail(s[..k]);
    TailWithin(s[..k]);
    assert '\r' !in tail;
    assert tail != "" ==> tail[0] in tail;
    TruncationFrom(FRESH, s, k);
  }

  lemma FeedsOfExample(p: Parser)
    ensures Feed(p, "data:a") == p.(parts := p.parts + ["a"]) && Feed(p, "\rx") == p && Feed(p, "id:7") == p.(id := "7")
  {
    IndexIs("data:a", ':', 4);
    IndexIs("\rx", ':', 2);
    IndexIs("id:7", ':', 2);
  }

  lemma LinesOfExample()
    ensures Lines("data:a" + "\n" + "\r") == ["data:a"] + [""]
    ensures Lines("data:a" + "\n" + ("\rx" + "\n" + ("id:7" + "\n" + "\n"))) == ["data:a"] + (["\rx"] + (["id:7"] + [""]))
  {
    assert Lines("\r") == [""] && Lines("\n") == [""] by {
      LineEndIs("\r", 1);
      LineEndIs("\n", 0);
      assert "\n"[1..] == "";
    }
    hide LineEnd, Lines;
    LinesAre("id:7", "\n");
    LinesAre("\rx", "id:7" + "\n" + "\n");
    LinesAre("data:a", "\rx" + "\n" + ("id:7" + "\n" + "\n"));
    LinesAre("data:a", "\r");
  }

  // With a carriage return the cut can dispatch a frame the whole stream does not contain.
  lemma CarriageReturnDispatchesHalfAFrame()
    ensures Scan("data:a" + "\n" + "\r") == [Frame("", "", "a")]
    ensures Scan("data:a" + "\n" + ("\rx" + "\n" + ("id:7" + "\n" + "\n"))) == [Frame("7", "", "a")]
  {
    hide Feed, Lines, Frames;
    var data := FRESH.(parts := [] + ["a"]);
    LinesOfExample();
    FeedsOfExample(FRESH);
    FeedsOfExample(data);
    NothingScanned(FRESH);
    FramesStep(data.(id := "7"), "", []);
    FramesStep(data, "id:7", [""]);
    FramesStep(data, "\rx", ["id:7"] + [""]);
    FramesStep(FRESH, "data:a", ["\rx"] + (["id:7"] + [""]));
    FramesStep(data, "", []);
    FramesStep(FRESH, "data:a", [""]);
    assert [""] + [] == [""];
  }

  // One terminated line in front of a stream.
  lemma LinesAre(line: string, rest: string)
    requires '\n' !in line && |line| < MAX_LINE && DropCR(line) == line
    ensures Lines(line + "\n" + rest) == [line] + Lines(rest)
  {
    var s := line + "\n" + rest;
    LineEndIs(s, |line|);
    assert s[..|line|] == line && s[|line| + 1..] == rest;
  }

  // One line in front of a line list.
  lemma FramesStep(p: Parser, line: string, rest: seq<string>)
    ensures Frames(p, [line] + rest) ==
            if line == "" then Dispatch(p) + Frames(FRESH, rest) else Frames(Feed(p, line), rest)
  {
    hide Feed, Dispatch;
    assert ([line] + rest)[1..] == rest;
  }

  lemma IndexIs(s: string, c: char, n: nat)
    requires n <= |s|
    requires forall i :: 0 <= i < n ==> s[i] != c
    requires n < |s| ==> s[n] == c
    ensures IndexOf(s, c) == n
  {
  }

  // ---- Rendered feeds -------------------------------------------------------

  // What the feed writes: event frames, control frames (caught-up, resync, status) and comments.
  datatype Item = EventItem(id: string, event: string, data: string) | ControlItem(event: string, data: string) | CommentItem(text: string)

  function ItemLines(item: Item): seq<string> {
    match item
    case EventItem(id, event, data) => ["id: " + id, "event: " + event, "data: " + data]
    case ControlItem(event, data) => ["event: " + event, "data: " + data]
    case CommentItem(text) => [": " + text]
  }

  function Unlines(lines: seq<string>): string {
    if lines == [] then "" else lines[0] + "\n" + Unlines(lines[1..])
  }

  function Render(item: Item): string {
    Unlines(ItemLines(item)) + "\n"
  }

  function RenderAll(items: seq<Item>): string {
    if items == [] then "" else Render(items[0]) + RenderAll(items[1..])
  }

  // A line the scanner takes back as it was written.
  predicate CleanLine(line: string) {
    '\n' !in line && '\r' !in line && |line| < MAX_LINE
  }

  predicate Clean(item: Item) {
    forall line :: line in ItemLines(item) ==> CleanLine(line)
  }

  predicate AllClean(items: seq<Item>) {
    forall item :: item in items ==> Clean(item)
  }

  function ItemFrame(item: Item): seq<Frame> {
    match item
    case EventItem(id, event, data) => [Frame(id, event, data)]
    case ControlItem(event, data) => [Frame("", event, data)]
    case CommentItem(_) => []
  }

  function ItemFrames(items: seq<Item>): seq<Frame> {
    if items == [] then [] else ItemFrame(items[0]) + ItemFrames(items[1..])
  }

  lemma CleanLineStays(line: string)
    requires CleanLine(line)
    ensures DropCR(line) == line
  {
    assert line != "" ==> line[|line| - 1] in line;
  }

  lemma {:induction false} LinesUnlines(lines: seq<string>, rest: string)
    requires forall line :: line in lines ==> CleanLine(line)
    ensures Lines(Unlines(lines) + rest) == lines + Lines(rest)
  {
    hide Lines, DropCR;
    if lines == [] {
      assert Unlines(lines) + rest == rest;
    } else {
      LinesUnlines(lines[1..], rest);
      CleanLineStays(lines[0]);
      LinesAre(lines[0], Unlines(lines[1..]) + rest);
      assert Unlines(lines) + rest == lines[0] + "\n" + (Unlines(lines[1..]) + rest);
      assert lines == [lines[0]] + lines[1..];
    }
  }

  lemma SplitRendered(name: string, value: string)
    requires ':' !in name
    ensures SplitField(name + ": " + value) == (name, value)
  {
    var line := name + ": " + value;
    IndexIs(line, ':', |name|);
    assert line[..|name|] == name && line[|name| + 1..] == " " + value;
  }

  lemma FeedRendered(p: Parser, value: string)
    ensures Feed(p, "id: " + value) == p.(id := value)
    ensures Feed(p, "event: " + value) == p.(event := value)
    ensures Feed(p, "data: " + value) == p.(parts := p.parts + [value])
    ensures Feed(p, ": " + value) == p
  {
    hide SplitField;
    SplitRendered("id", value);
    SplitRendered("event", value);
    SplitRendered("data", value);
    assert "id" + ": " + value == "id: " + value;
    assert "event" + ": " + value == "event: " + value;
    assert "data" + ": " + value == "data: " + value;
  }

  lemma FramesOfEventData(p: Parser, event: string, data: string, rest: seq<string>)
    requires p.parts == []
    ensures Frames(p, ["event: " + event] + (["data: " + data] + ([""] + rest))) ==
            [Frame(p.id, event, data)] + Frames(FRESH, rest)
  {
    hide Feed, Frames;
    var p1 := p.(event := event);
    var p2 := p1.(parts := [] + [data]);
    FeedRendered(p, event);
    FeedRendered(p1, data);
    FramesStep(p2, "", rest);
    FramesStep(p1, "data: " + data, [""] + rest);
    FramesStep(p, "event: " + event, ["data: " + data] + ([""] + rest));
  }

  lemma FramesOfItem(item: Item, rest: seq<string>)
    ensures Frames(FRESH, ItemLines(item) + [""] + rest) == ItemFrame(item) + Frames(FRESH, rest)
  {
    hide Feed, Frames;
    var blank := [""] + rest;
    match item {
      case EventItem(id, event, data) =>
        var tail := ["event: " + event] + (["data: " + data] + blank);
        FeedRendered(FRESH, id);
        FramesOfEventData(FRESH.(id := id), event, data, rest);
        FramesStep(FRESH, "id: " + id, tail);
        assert ItemLines(item) + [""] + rest == ["id: " + id] + tail;
      case ControlItem(event, data) =>
        FramesOfEventData(FRESH, event, data, rest);
        assert ItemLines(item) + [""] + rest == ["event: " + event] + (["data: " + data] + blank);
      case CommentItem(text) =>
        FeedRendered(FRESH, text);
        FramesStep(FRESH, "", rest);
        FramesStep(FRESH, ": " + text, blank);
        assert ItemLines(item) + [""] + rest == [": " + text] + blank;
    }
  }

  lemma LinesOfItem(item: Item, rest: string)
    requires Clean(item)
    ensures Lines(Render(item) + rest) == ItemLines(item) + [""] + Lines(rest)
  {
    hide Lines, ItemLines, Unlines;
    LinesUnlines(ItemLines(item), "\n" + rest);
    LinesAre("", rest);
    assert "" + "\n" + rest == "\n" + rest;
    assert Render(item) + rest == Unlines(ItemLines(item)) + ("\n" + rest);
    assert ItemLines(item) + ([""] + Lines(rest)) == ItemLines(item) + [""] + Lines(rest);
  }

  lemma {:induction false} ScanRendered(items: seq<Item>, rest: string)
    requires AllClean(items)
    ensures Scan(RenderAll(items) + rest) == ItemFrames(items) + Scan(rest)
  {
    hide Lines, Frames, Render, Clean, ItemFrame;
    if items == [] {
      assert RenderAll(items) + rest == rest;
    } else {
      var after := RenderAll(items[1..]) + rest;
      LinesOfItem(items[0], after);
      FramesOfItem(items[0], Lines(after));
      ScanRendered(items[1..], rest);
      assert RenderAll(items) + rest == Render(items[0]) + after;
    }
  }

  // Scanning what the feed rendered gives back exactly its frames, comments dropped.
  lemma ScanOfRender(items: seq<Item>)
    requires AllClean(items)
    ensures Scan(RenderAll(items)) == ItemFrames(items)
  {
    ScanRendered(items, "");
    assert RenderAll(items) + "" == RenderAll(items);
    assert Scan("") == [];
  }

  // How many whole items a cut after k bytes lets through.
  function WholeItems(items: seq<Item>, k: nat): (j: nat)
    ensures j <= |items|
  {
    if items == [] || k < |Render(items[0])| then 0
    else 1 + WholeItems(items[1..], k - |Render(items[0])|)
  }

  // Lines none of which is blank dispatch nothing.
  lemma {:induction false} NoBlankNoFrame(p: Parser, lines: seq<string>)
    requires "" !in lines
    ensures Frames(p, lines) == []
    decreases |lines|
  {
    hide Feed;
    if lines != [] {
      assert lines[0] in lines;
      NoBlankNoFrame(Feed(p, lines[0]), lines[1..]);
    }
  }

  lemma CutLineIsOneLine(line: string, k: nat)
    requires CleanLine(line) && k <= |line|
    ensures Lines(line[..k]) == if k == 0 then [] else [line[..k]]
  {
    forall i | 0 <= i < k
      ensures line[i] != '\n' && line[i] != '\r'
    {
      assert line[i] in line;
    }
    LineEndIs(line[..k], k);
  }

  // A cut inside one written line list leaves no blank line behind.
  lemma {:induction false} CutLinesHaveNoBlank(lines: seq<string>, k: nat)
    requires forall line :: line in lines ==> CleanLine(line) && line != ""
    requires k <= |Unlines(lines)|
    ensures "" !in Lines(Unlines(lines)[..k])
  {
    hide Lines, DropCR, LineEnd;
    EmptyScan();
    if lines != [] {
      var first, s := lines[0], Unlines(lines);
      if k <= |first| {
        assert s[..k] == first[..k];
        CutLineIsOneLine(first, k);
      } else {
        CleanLineStays(first);
        var rest := Unlines(lines[1..])[..k - |first| - 1];
        assert s[..k] == first + "\n" + rest;
        LinesAre(first, rest);
        CutLinesHaveNoBlank(lines[1..], k - |first| - 1);
      }
    }
  }

  lemma CutItemDispatchesNothing(item: Item, k: nat)
    requires Clean(item) && k < |Render(item)|
    ensures Scan(Render(item)[..k]) == []
  {
    var lines := ItemLines(item);
    assert Render(item)[..k] == Unlines(lines)[..k];
    CutLinesHaveNoBlank(lines, k);
    NoBlankNoFrame(FRESH, Lines(Unlines(lines)[..k]));
  }

  // Of a rendered feed cut after k bytes the consumer sees the frames of the whole items before
  // the cut, and of the item cut in two nothing: half a frame never moves a cursor.
  lemma {:induction false} CutFeedDeliversWholeItems(items: seq<Item>, k: nat)
    requires AllClean(items) && k <= |RenderAll(items)|
    ensures Scan(RenderAll(items)[..k]) == ItemFrames(items[..WholeItems(items, k)])
  {
    hide Scan, Render, Clean, ItemFrame;
    EmptyScan();
    if items != [] {
      var first, s := Render(items[0]), RenderAll(items);
      if k < |first| {
        assert s[..k] == first[..k];
        CutItemDispatchesNothing(items[0], k);
      } else {
        var rest := RenderAll(items[1..])[..k - |first|];
        CutFeedDeliversWholeItems(items[1..], k - |first|);
        ScanRendered([items[0]], rest);
        assert RenderAll([items[0]]) == first;
        assert s[..k] == first + rest;
        var j := WholeItems(items[1..], k - |first|);
        assert items[..1 + j] == [items[0]] + items[1..][..j];
        assert ItemFrames([items[0]]) == ItemFrame(items[0]);
      }
    }
  }
}
