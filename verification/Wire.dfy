/** From the bytes of a feed to the protocol: one round of the consumer engine over a feed that breaks off
    anywhere is a run of the event plane (eventplane/outbox/feed.go, eventplane/consumer/consumer.go). */
module Wire {
  import opened Numeric
  import opened Cursor
  import opened Sse
  import opened Outbox
  import opened Consumer
  import opened EventPlane
  import opened Delivery

  // ---- What a connection carries --------------------------------------------

  // What the feed writes on a connection.
  datatype Written = RowWritten(row: Row) | StatusWritten(data: string) | CaughtUpWritten | KeepaliveWritten | ResyncWritten(reason: Reason)

  // How it writes: the JSON encodings of an envelope and of a resync's reason are parameters.
  datatype Feed = Feed(generation: string, source: string, marshal: Row -> Option<string>, resync: Reason -> string)

  function ItemOf(f: Feed, w: Written): Item {
    match w
    case RowWritten(row) => EventFrame(f.generation, f.source, f.marshal, row)
    case StatusWritten(data) => ControlItem("status", data)
    case CaughtUpWritten => ControlItem("caught-up", "{}")
    case KeepaliveWritten => CommentItem("keepalive")
    case ResyncWritten(reason) => ControlItem("resync", f.resync(reason))
  }

  function ItemsOf(f: Feed, written: seq<Written>): seq<Item> {
    if written == [] then [] else [ItemOf(f, written[0])] + ItemsOf(f, written[1..])
  }

  // What of it the protocol has on its wire.
  function MessageOf(f: Feed, d: Decoder, w: Written): seq<Message> {
    match w
    case RowWritten(row) => if f.marshal(row).Some? then [EventMessage(row.num, d.envelope(f.marshal(row).value))] else []
    case ResyncWritten(reason) => [ResyncMessage(reason)]
    case _ => []
  }

  function WireOf(f: Feed, d: Decoder, written: seq<Written>): seq<Message> {
    if written == [] then [] else MessageOf(f, d, written[0]) + WireOf(f, d, written[1..])
  }

  // The receives of what was written; the n-th frame is answered by the n-th reply.
  function ReceivesOf(f: Feed, written: seq<Written>, replies: nat -> Reply, n: nat): seq<Action> {
    if written == [] then []
    else
      var frames := |ItemFrame(ItemOf(f, written[0]))|;
      (if written[0].ResyncWritten? || (written[0].RowWritten? && frames == 1)
       then [Receive(Returned(replies(n).verdict, replies(n).writes))] else [])
      + ReceivesOf(f, written[1..], replies, n + frames)
  }

  // A resync frame says its reason in a way the consumer reads.
  ghost predicate Tells(f: Feed, d: Decoder) {
    forall reason :: d.reason(f.resync(reason)) != ""
  }

  // The rows of a batch as the feed writes them.
  function RowsWritten(rows: seq<Row>): seq<Written> {
    if rows == [] then [] else [RowWritten(rows[0])] + RowsWritten(rows[1..])
  }

  lemma {:induction false} WireConcat(f: Feed, d: Decoder, a: seq<Written>, b: seq<Written>)
    ensures WireOf(f, d, a + b) == WireOf(f, d, a) + WireOf(f, d, b)
  {
    hide MessageOf;
    if a == [] {
      assert a + b == b;
    } else {
      WireConcat(f, d, a[1..], b);
      assert (a + b)[1..] == a[1..] + b;
    }
  }

  lemma {:induction false} RowsWrittenSnoc(rows: seq<Row>, row: Row)
    ensures RowsWritten(rows + [row]) == RowsWritten(rows) + [RowWritten(row)]
  {
    if rows == [] {
      assert [row][1..] == [];
    } else {
      RowsWrittenSnoc(rows[1..], row);
      assert (rows + [row])[1..] == rows[1..] + [row];
    }
  }

  // What the protocol puts on its wire for a batch is what the producer writes for it.
  lemma {:induction false} BatchIsWritten(c: Config, f: Feed, d: Decoder, batch: seq<Row>)
    requires forall row :: c.encodes(row) == f.marshal(row).Some?
    requires forall row :: f.marshal(row).Some? ==> c.parses(row) == d.envelope(f.marshal(row).value)
    ensures WireOf(f, d, RowsWritten(batch)) == Messages(c, batch)
    decreases |batch|
  {
    if batch != [] {
      var front, row := batch[..|batch| - 1], batch[|batch| - 1];
      BatchIsWritten(c, f, d, front);
      RowsWrittenSnoc(front, row);
      WireConcat(f, d, RowsWritten(front), [RowWritten(row)]);
      assert batch == front + [row];
      assert [RowWritten(row)][1..] == [];
    }
  }

  lemma {:induction false} BatchIsItems(f: Feed, batch: seq<Row>)
    ensures ItemsOf(f, RowsWritten(batch)) == FramesOf(f.generation, f.source, f.marshal, batch)
  {
    hide EventFrame;
    if batch != [] {
      BatchIsItems(f, batch[1..]);
      assert RowsWritten(batch)[1..] == RowsWritten(batch[1..]);
    }
  }

  // ---- One frame ------------------------------------------------------------

  // How an engine's outcome shows in the protocol: the row, cleared when the connection ended in a
  // resync; and the process, which is gone when the engine crashed.
  ghost predicate Agrees(s: System, s': System, row: Option<Offset>, res: Attempt, replies: nat -> Reply) {
    s.process.Some? &&
    s'.row == (if res.resync != "" then Cleared(row) else row) &&
    (res.resync != "" ==> !res.structural && !res.stalled) &&
    (s'.process.None? ==> res.structural || (res.resync == "" && !res.stalled && exists i: nat :: replies(i).shutdown)) &&
    (res.structural ==> s'.process.None?) &&
    (s'.process.Some? ==>
       s'.process.value.(link := None) == s.process.value.(link := None, needBootstrap := s.process.value.needBootstrap || res.resync != ""))
  }

  predicate Clear(res: Attempt) {
    res.resync == "" && !res.stalled && !res.structural
  }

  ghost predicate Receives(s: System, f: Feed, wire: seq<Message>) {
    HasLink(s) && TheLink(s).accepted && TheLink(s).generation == f.generation && TheLink(s).wire == wire
  }

  lemma RowFrame(f: Feed, row: Row)
    requires f.marshal(row).Some?
    ensures var frames := ItemFrame(ItemOf(f, RowWritten(row)));
            |frames| == 1 && frames[0].id == MakeCursor(f.generation, row.num) != "" && frames[0].data == f.marshal(row).value &&
            frames[0].event !in ["resync", "caught-up", "status"]
  {
    KeyIsNoControl(f.source, row.kind, row.subject);
    CursorNotEmpty(f.generation, row.num);
  }

  // An event or resync frame is handled as the protocol receives it.
  lemma FrameIsReceived(c: Config, s: System, f: Feed, d: Decoder, w: Written, rest: seq<Message>, replies: nat -> Reply,
          n: nat, res: Attempt)
    requires MessageOf(f, d, w) != [] && Receives(s, f, MessageOf(f, d, w) + rest) && Tells(f, d) && Clear(res)
    ensures |ItemFrame(ItemOf(f, w))| == 1
    ensures var r := replies(n);
            var (row', res', stop) := Handled(s.row, res, ItemFrame(ItemOf(f, w))[0], d, r);
            var s' := Apply(c, s, Receive(Returned(r.verdict, r.writes)));
            Agrees(s, s', row', res', replies) && res'.connected == res.connected &&
            (stop == Go ==> Receives(s', f, rest) && Clear(res')) && (stop != Go ==> !HasLink(s'))
  {
    hide MakeCursor;
    if w.RowWritten? {
      RowFrame(f, w.row);
      hide EventFrame;
    }
  }

  // A control frame that says something of no consequence, or a comment.
  lemma QuietFrames(f: Feed, d: Decoder, w: Written, row: Option<Offset>, res: Attempt, r: Reply)
    requires MessageOf(f, d, w) == []
    ensures var frames := ItemFrame(ItemOf(f, w));
            (frames != [] ==> |frames| == 1 && Handled(row, res, frames[0], d, r) == (row, res, Go)) &&
            (w.RowWritten? ==> frames == [])
  {
  }

  lemma {:induction false} NothingReceived(c: Config, s: System, f: Feed, written: seq<Written>, replies: nat -> Reply, n: nat)
    requires !HasLink(s)
    ensures Run(c, s, ReceivesOf(f, written, replies, n)) == s
  {
    hide ItemOf, ItemFrame;
    if written != [] {
      var frames := |ItemFrame(ItemOf(f, written[0]))|;
      NothingReceived(c, s, f, written[1..], replies, n + frames);
      var rest := ReceivesOf(f, written[1..], replies, n + frames);
      var a := Receive(Returned(replies(n).verdict, replies(n).writes));
      RunFirst(c, s, a, rest);
      assert [] + rest == rest;
    }
  }

  lemma RunFirst(c: Config, s: System, a: Action, rest: seq<Action>)
    ensures Run(c, s, [a] + rest) == Run(c, Apply(c, s, a), rest)
  {
    hide Apply;
    RunConcat(c, s, [a], rest);
    assert [a][..0] == [];
    assert Run(c, s, [a]) == Apply(c, Run(c, s, []), a);
  }

  // ---- One connection -------------------------------------------------------

  lemma AgreesThrough(s: System, s1: System, s2: System, row1: Option<Offset>, res1: Attempt, row: Option<Offset>, res: Attempt,
          replies: nat -> Reply)
    requires Agrees(s, s1, row1, res1, replies) && Clear(res1) && HasLink(s1) && Agrees(s1, s2, row, res, replies)
    ensures Agrees(s, s2, row, res, replies)
  {
  }

  lemma AgreesStill(s: System, res: Attempt, replies: nat -> Reply)
    requires s.process.Some? && Clear(res)
    ensures Agrees(s, s, s.row, res, replies)
  {
  }

  lemma StreamedFirst(row: Option<Offset>, res: Attempt, frame: Frame, frames: seq<Frame>, d: Decoder, replies: nat -> Reply, n: nat)
    ensures var (row', res', stop) := Handled(row, res, frame, d, replies(n));
            Streamed(row, res, [frame] + frames, d, replies, n) ==
            if stop == Go then Streamed(row', res', frames, d, replies, n + 1) else (row', res')
  {
    hide Handled;
    assert ([frame] + frames)[1..] == frames;
  }

  // What is written first, in each of the forms it takes.
  lemma WrittenFirst(f: Feed, d: Decoder, written: seq<Written>, rest: seq<Message>, replies: nat -> Reply, n: nat)
    requires written != []
    ensures var w, more := written[0], written[1..];
            var frames := ItemFrame(ItemOf(f, w));
            ItemFrames(ItemsOf(f, written)) == frames + ItemFrames(ItemsOf(f, more)) &&
            WireOf(f, d, written) + rest == MessageOf(f, d, w) + (WireOf(f, d, more) + rest) &&
            ReceivesOf(f, written, replies, n) ==
            (if MessageOf(f, d, w) != [] then [Receive(Returned(replies(n).verdict, replies(n).writes))] else [])
            + ReceivesOf(f, more, replies, n + |frames|)
  {
    hide EventFrame;
    var w := written[0];
    assert ItemsOf(f, written)[1..] == ItemsOf(f, written[1..]);
    FramesAndMessages(f, d, w);
  }

  lemma FramesAndMessages(f: Feed, d: Decoder, w: Written)
    ensures MessageOf(f, d, w) != [] <==> w.ResyncWritten? || (w.RowWritten? && |ItemFrame(ItemOf(f, w))| == 1)
  {
    hide MakeCursor;
  }

  // The engine's outcome of what was written from the n-th frame on is that of the protocol's run.
  ghost predicate StreamAgrees(c: Config, s: System, f: Feed, d: Decoder, written: seq<Written>, replies: nat -> Reply, n: nat, res: Attempt) {
    var (row', res') := Streamed(s.row, res, ItemFrames(ItemsOf(f, written)), d, replies, n);
    Agrees(s, Run(c, s, ReceivesOf(f, written, replies, n)), row', res', replies) && res'.connected == res.connected
  }

  lemma QuietFirst(c: Config, s: System, f: Feed, d: Decoder, written: seq<Written>, replies: nat -> Reply, n: nat, res: Attempt)
    requires written != [] && MessageOf(f, d, written[0]) == []
    requires StreamAgrees(c, s, f, d, written[1..], replies, n + |ItemFrame(ItemOf(f, written[0]))|, res)
    ensures StreamAgrees(c, s, f, d, written, replies, n, res)
  {
    hide ItemOf, ItemFrame, Handled, Agrees, MessageOf, Streamed, ItemFrames, ItemsOf, WireOf, ReceivesOf, Run;
    WrittenFirst(f, d, written, [], replies, n);
    QuietFrames(f, d, written[0], s.row, res, replies(n));
    var frames := ItemFrame(ItemOf(f, written[0]));
    var later := ItemFrames(ItemsOf(f, written[1..]));
    var actions := ReceivesOf(f, written[1..], replies, n + |frames|);
    assert [] + actions == actions && [] + later == later;
    if frames != [] {
      StreamedFirst(s.row, res, frames[0], later, d, replies, n);
      assert frames == [frames[0]];
    }
  }

  lemma LoudFirst(c: Config, s: System, f: Feed, d: Decoder, written: seq<Written>, wire: seq<Message>, replies: nat -> Reply, n: nat,
          res: Attempt)
    requires written != [] && MessageOf(f, d, written[0]) != [] && Tells(f, d) && Clear(res)
    requires Receives(s, f, MessageOf(f, d, written[0]) + wire)
    requires var s1 := Apply(c, s, Receive(Returned(replies(n).verdict, replies(n).writes)));
             forall res1 :: Clear(res1) && Receives(s1, f, wire) ==> StreamAgrees(c, s1, f, d, written[1..], replies, n + 1, res1)
    ensures StreamAgrees(c, s, f, d, written, replies, n, res)
  {
    hide ItemOf, ItemFrame, Handled, Agrees, Apply, MessageOf, Tells, Clear, Receives, Streamed, ItemFrames, ItemsOf, WireOf, ReceivesOf, Run;
    WrittenFirst(f, d, written, [], replies, n);
    FrameIsReceived(c, s, f, d, written[0], wire, replies, n, res);
    var frames := ItemFrame(ItemOf(f, written[0]));
    var later := ItemFrames(ItemsOf(f, written[1..]));
    var actions := ReceivesOf(f, written[1..], replies, n + 1);
    var a := Receive(Returned(replies(n).verdict, replies(n).writes));
    var s1 := Apply(c, s, a);
    RunFirst(c, s, a, actions);
    assert frames == [frames[0]];
    StreamedFirst(s.row, res, frames[0], later, d, replies, n);
    var (row1, res1, stop) := Handled(s.row, res, frames[0], d, replies(n));
    if stop == Go {
      RowStays(s, s1, row1, res1, replies);
      ReceivesLink(s1, f, wire);
      var (row', res') := Streamed(row1, res1, later, d, replies, n + 1);
      AgreesThrough(s, s1, Run(c, s1, actions), row1, res1, row', res', replies);
    } else {
      NothingReceived(c, s1, f, written[1..], replies, n + 1);
    }
  }

  // The frames of a connection, up to the one that stops it, are handled as the protocol receives them.
  lemma {:induction false} StreamIsARun(c: Config, s: System, f: Feed, d: Decoder, written: seq<Written>, rest: seq<Message>,
          replies: nat -> Reply, n: nat, res: Attempt)
    requires Receives(s, f, WireOf(f, d, written) + rest) && Tells(f, d) && Clear(res)
    ensures StreamAgrees(c, s, f, d, written, replies, n, res)
    decreases |written|
  {
    hide ItemOf, ItemFrame, Agrees, Apply, MessageOf, Tells, Clear, Receives;
    if written == [] {
      ReceivesLink(s, f, WireOf(f, d, written) + rest);
      AgreesStill(s, res, replies);
    } else {
      hide StreamAgrees, WireOf;
      WrittenFirst(f, d, written, rest, replies, n);
      var more := written[1..];
      var wire := WireOf(f, d, more) + rest;
      if MessageOf(f, d, written[0]) == [] {
        assert [] + wire == wire;
        StreamIsARun(c, s, f, d, more, rest, replies, n + |ItemFrame(ItemOf(f, written[0]))|, res);
        QuietFirst(c, s, f, d, written, replies, n, res);
      } else {
        var s1 := Apply(c, s, Receive(Returned(replies(n).verdict, replies(n).writes)));
        forall res1 | Clear(res1) && Receives(s1, f, wire)
          ensures StreamAgrees(c, s1, f, d, more, replies, n + 1, res1)
        {
          StreamIsARun(c, s1, f, d, more, rest, replies, n + 1, res1);
        }
        LoudFirst(c, s, f, d, written, wire, replies, n, res);
      }
    }
  }

  lemma ReceivesLink(s: System, f: Feed, wire: seq<Message>)
    requires Receives(s, f, wire)
    ensures HasLink(s) && s.process.Some?
  {
  }

  lemma RowStays(s: System, s': System, row: Option<Offset>, res: Attempt, replies: nat -> Reply)
    requires Agrees(s, s', row, res, replies) && Clear(res)
    ensures s'.row == row
  {
  }

  lemma {:induction false} ItemsConcat(f: Feed, written: seq<Written>, j: nat)
    requires j <= |written|
    ensures |ItemsOf(f, written)| == |written| && ItemsOf(f, written[..j]) == ItemsOf(f, written)[..j]
  {
    hide ItemOf;
    if written != [] {
      ItemsConcat(f, written[1..], if j > 0 then j - 1 else 0);
      if j > 0 {
        assert written[..j][1..] == written[1..][..j - 1];
      }
    }
  }

  // A connection of the protocol, in bytes: whatever part of the feed arrived, the engine does with it
  // what the protocol does with the frames that arrived whole, and the connection then drops.
  lemma ConnectionIsARun(c: Config, s: System, f: Feed, d: Decoder, written: seq<Written>, replies: nat -> Reply, k: nat)
    requires Receives(s, f, WireOf(f, d, written)) && Tells(f, d) && AllClean(ItemsOf(f, written)) && k <= |RenderAll(ItemsOf(f, written))|
    ensures var items := ItemsOf(f, written);
            var whole := WholeItems(items, k);
            var (row', res) := Attempted(s.row, Body(RenderAll(items)[..k], replies), d);
            whole <= |written| &&
            var s' := Run(c, s, ReceivesOf(f, written[..whole], replies, 0) + [Drop]);
            Agrees(s, s', row', res, replies) && !HasLink(s') && res.connected
  {
    hide Scan, Streamed, ReceivesOf, Agrees, WireOf, Tells, RenderAll;
    var items := ItemsOf(f, written);
    var whole := WholeItems(items, k);
    ItemsConcat(f, written, 0);
    ItemsConcat(f, written, whole);
    CutFeedDeliversWholeItems(items, k);
    WireConcat(f, d, written[..whole], written[whole..]);
    assert written == written[..whole] + written[whole..];
    StreamIsARun(c, s, f, d, written[..whole], WireOf(f, d, written[whole..]), replies, 0, CONNECTED);
    var actions := ReceivesOf(f, written[..whole], replies, 0);
    var s1 := Run(c, s, actions);
    assert (actions + [Drop])[..|actions|] == actions;
    var (row', res) := Streamed(s.row, CONNECTED, ItemFrames(ItemsOf(f, written[..whole])), d, replies, 0);
    DropAgrees(c, s, s1, row', res, replies);
  }

  lemma DropAgrees(c: Config, s: System, s': System, row: Option<Offset>, res: Attempt, replies: nat -> Reply)
    requires Agrees(s, s', row, res, replies)
    ensures Agrees(s, Apply(c, s', Drop), row, res, replies) && !HasLink(Apply(c, s', Drop))
  {
  }

  // ---- One round ------------------------------------------------------------

  // The loop variables that the protocol has too.
  predicate SameLoop(loop: Loop, p: Process) {
    loop.needBootstrap == p.needBootstrap && loop.bootstrapTail == p.bootstrapTail && loop.connectedOnce == p.connectedOnce
  }

  // What happens on the producer's side of a connection.
  predicate Serves(a: Action) {
    a.Produce? || a.Resolve? || a.DoFetch?
  }

  predicate AllServe(actions: seq<Action>) {
    forall a :: a in actions ==> Serves(a)
  }

  predicate SameConsumer(s: System, s': System) {
    s'.row == s.row && s.process.Some? && s'.process.Some? &&
    s'.process.value.(link := None) == s.process.value.(link := None)
  }

  lemma CutServes(s: System, s': System)
    requires s.process.Some? && s' == Cut(s)
    ensures SameConsumer(s, s') && (HasLink(s) ==> HasLink(s') && TheLink(s').request == TheLink(s).request)
  {
  }

  lemma ResolveServes(s: System)
    requires s.process.Some?
    ensures SameConsumer(s, Resolving(s)) && (HasLink(s) ==> HasLink(Resolving(s)) && TheLink(Resolving(s)).request == TheLink(s).request)
  {
    hide Checked, MaxNum;
  }

  lemma FetchServes(c: Config, s: System)
    requires s.process.Some?
    ensures SameConsumer(s, Fetching(c, s)) && (HasLink(s) ==> HasLink(Fetching(c, s)) && TheLink(Fetching(c, s)).request == TheLink(s).request)
  {
    hide Fetched, Messages, SteppedOver;
  }

  lemma ServeOnce(c: Config, s: System, a: Action)
    requires Serves(a) && s.process.Some?
    ensures SameConsumer(s, Apply(c, s, a))
    ensures HasLink(s) ==> HasLink(Apply(c, s, a)) && TheLink(Apply(c, s, a)).request == TheLink(s).request
  {
    hide Resolving, Fetching, Producing, Cut;
    CutServes(s, Cut(s));
    ResolveServes(s);
    FetchServes(c, s);
  }

  lemma {:induction false} Served(c: Config, s: System, actions: seq<Action>)
    requires AllServe(actions) && s.process.Some?
    ensures SameConsumer(s, Run(c, s, actions))
    ensures HasLink(s) ==> HasLink(Run(c, s, actions)) && TheLink(Run(c, s, actions)).request == TheLink(s).request
    decreases |actions|
  {
    hide Apply, Serves;
    if actions != [] {
      Served(c, s, actions[..|actions| - 1]);
      ServeOnce(c, Run(c, s, actions[..|actions| - 1]), actions[|actions| - 1]);
    }
  }

  // A round of the protocol up to its 200, with what the producer did meanwhile.
  function Opening(served: seq<Action>): seq<Action> {
    [Bootstrap, Connect] + served + [Accept200]
  }

  lemma OpeningRuns(c: Config, s: System, served: seq<Action>)
    ensures Run(c, s, Opening(served)) == Accepting(Run(c, Connecting(Bootstrapping(c, s)), served))
  {
    hide Run, Bootstrapping, Connecting, Accepting;
    RunConcat(c, s, [Bootstrap, Connect] + served, [Accept200]);
    RunConcat(c, s, [Bootstrap, Connect], served);
    RunFirst(c, s, Bootstrap, [Connect]);
    RunFirst(c, Apply(c, s, Bootstrap), Connect, []);
    RunFirst(c, Run(c, s, [Bootstrap, Connect] + served), Accept200, []);
    RunNothing(c, Connecting(Bootstrapping(c, s)));
    RunNothing(c, Accepting(Run(c, s, [Bootstrap, Connect] + served)));
    assert [Bootstrap] + [Connect] == [Bootstrap, Connect] && [Connect] + [] == [Connect] && [Accept200] + [] == [Accept200];
  }

  lemma RunNothing(c: Config, s: System)
    ensures Run(c, s, []) == s
  {
  }

  lemma RoundOpens(c: Config, s: System, loop: Loop, served: seq<Action>)
    requires s.process.Some? && s.process.value.link.None? && s.site.up && SameLoop(loop, s.process.value) && AllServe(served)
    ensures var t := Run(c, s, Opening(served));
            var (row, loop') := Bootstrapped(s.row, loop, c.from);
            HasLink(t) && TheLink(t).accepted && t.row == row && TheLink(t).request == RoundRequest(row, loop') &&
            SameLoop(loop'.(connectedOnce := true), t.process.value)
  {
    OpeningRuns(c, s, served);
    hide Run, Opening;
    Served(c, Connecting(Bootstrapping(c, s)), served);
  }

  // The outcome of a round in which the database works and no shutdown falls, if it goes on.
  predicate GoesOn(r: Round) {
    r.loads && r.marks && r.reloads && r.clears && !r.cancelled && !r.cancelledAfter && !r.cancelledInPause
  }

  lemma ConcludedAgrees(s: System, s': System, loop: Loop, row: Option<Offset>, res: Attempt, r: Round, replies: nat -> Reply)
    requires Agrees(s, s', row, res, replies) && GoesOn(r) && res.connected && (forall i: nat :: !replies(i).shutdown)
    requires SameLoop(loop.(connectedOnce := true), s.process.value) && !loop.needBootstrap
    ensures var (row', next) := Concluded(row, loop, res, r);
            s'.row == row' && (next.Crash? <==> s'.process.None?) && !next.Exit? &&
            (next.Again? ==> SameLoop(next.loop, s'.process.value))
  {
  }

  // One round of the engine is a run of the protocol: the bootstrap, the connection, whatever the
  // producer did meanwhile, the receives of the frames that arrived whole, and the drop. The engine
  // and the protocol have the same row behind it, the same loop variables, and crash together.
  lemma RoundIsARun(c: Config, s: System, loop: Loop, served: seq<Action>, f: Feed, d: Decoder, written: seq<Written>, k: nat, r: Round)
    requires s.process.Some? && s.process.value.link.None? && s.site.up && SameLoop(loop, s.process.value) && AllServe(served)
    requires Receives(Run(c, s, Opening(served)), f, WireOf(f, d, written)) && Tells(f, d)
    requires AllClean(ItemsOf(f, written)) && k <= |RenderAll(ItemsOf(f, written))|
    requires GoesOn(r) && r.connection.Body? && r.connection.bytes == RenderAll(ItemsOf(f, written))[..k]
    requires forall i: nat :: !r.connection.replies(i).shutdown
    ensures var whole := WholeItems(ItemsOf(f, written), k);
            var (row', next) := Turned(s.row, loop, c.from, d, r);
            whole <= |written| &&
            var s' := Run(c, s, Opening(served) + (ReceivesOf(f, written[..whole], r.connection.replies, 0) + [Drop]));
            s'.row == row' && !HasLink(s') && (next.Crash? <==> s'.process.None?) && !next.Exit? &&
            (next.Again? ==> SameLoop(next.loop, s'.process.value))
  {
    hide Opening, Agrees, Receives, WireOf, ItemsOf, RenderAll, Run, Concluded, AllClean, Tells, ReceivesOf;
    var replies := r.connection.replies;
    RoundOpens(c, s, loop, served);
    var t := Run(c, s, Opening(served));
    ConnectionIsARun(c, t, f, d, written, replies, k);
    var (row1, loop1) := Bootstrapped(s.row, loop, c.from);
    var actions := ReceivesOf(f, written[..WholeItems(ItemsOf(f, written), k)], replies, 0) + [Drop];
    RunConcat(c, s, Opening(served), actions);
    var (row2, res) := Attempted(row1, r.connection, d);
    assert r.connection == Body(RenderAll(ItemsOf(f, written))[..k], replies);
    ConcludedAgrees(t, Run(c, t, actions), loop1, row2, res, r, replies);
  }
}
