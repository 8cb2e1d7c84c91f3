/** The consumer engine: its durable offset row, the treatment of one frame, one connection and the
    reconnect loop (eventplane/consumer/store.go, consumer.go). */
module Consumer {
  import opened Numeric
  import opened Sse

  // ---- The offset row -------------------------------------------------------

  datatype Offset = Offset(cursor: Option<string>, subscribed: bool)

  // load: a missing row reads as never marked, never committed.
  function Loaded(row: Option<Offset>): Offset {
    if row.None? then Offset(None, false) else row.value
  }

  function Marked(row: Option<Offset>): Option<Offset> {
    Some(Offset(Loaded(row).cursor, true))
  }

  function Committed(row: Option<Offset>, cursor: string): Option<Offset> {
    Some(Offset(Some(cursor), true))
  }

  function Cleared(row: Option<Offset>): Option<Offset> {
    Some(Offset(None, false))
  }

  // A subscription that was never marked and never committed.
  predicate Fresh(row: Option<Offset>) {
    !Loaded(row).subscribed && Loaded(row).cursor.None?
  }

  // The table row; a write reports false, and changes nothing, when the database fails.
  class OffsetStore {
    var row: Option<Offset>

    constructor (row: Option<Offset>)
      ensures this.row == row
    {
      this.row := row;
    }

    method MarkSubscribed(works: bool) returns (ok: bool)
      modifies this
      ensures ok == works && row == if works then Marked(old(row)) else old(row)
    {
      if works {
        row := match row case None => Some(Offset(None, true)) case Some(o) => Some(o.(subscribed := true));
      }
      return works;
    }

    method Commit(cursor: string, works: bool) returns (ok: bool)
      modifies this
      ensures ok == works && row == if works then Committed(old(row), cursor) else old(row)
    {
      if works {
        row := Some(Offset(Some(cursor), true));
      }
      return works;
    }

    method ClearForResync(works: bool) returns (ok: bool)
      modifies this
      ensures ok == works && row == if works then Cleared(old(row)) else old(row)
    {
      if works {
        row := Some(Offset(None, false));
      }
      return works;
    }
  }

  // ---- Requests -------------------------------------------------------------

  datatype Request = FromCursor(cursor: string) | FromTail | FromBeginning

  function RequestFor(offset: Offset, useTail: bool): Request {
    if offset.cursor.Some? then FromCursor(offset.cursor.value) else if useTail then FromTail else FromBeginning
  }

  // ---- One frame ------------------------------------------------------------

  // What the service's handler says of an event.
  datatype Verdict = Accept | Skip | Fail

  // How the surroundings answer one frame: the handler's verdict, whether the offset row can be
  // written, and whether the process is being shut down.
  datatype Reply = Reply(verdict: Verdict, writes: bool, shutdown: bool)

  // The decoding of a frame's data is JSON: an envelope parses or not, a resync body has a reason.
  datatype Decoder = Decoder(envelope: string -> bool, reason: string -> string)

  // attemptResult
  datatype Attempt = Attempt(connected: bool, resync: string, structural: bool, stalled: bool, committedAny: bool)

  const TRANSPORT := Attempt(false, "", false, false, false)
  const CONNECTED := Attempt(true, "", false, false, false)

  datatype Stop = Go | StopResync | StopStructural | StopShutdown | StopStall

  // handleFrame
  function Handled(row: Option<Offset>, res: Attempt, f: Frame, d: Decoder, r: Reply): (Option<Offset>, Attempt, Stop) {
    if f.event == "resync" then (row, res.(resync := d.reason(f.data)), StopResync)
    else if f.event == "caught-up" || f.event == "status" || f.id == "" then (row, res, Go)
    else if d.envelope(f.data) && r.verdict == Fail then (row, res.(stalled := true), StopStall)
    else if r.writes then (Committed(row, f.id), res.(committedAny := true), Go)
    else if r.shutdown then (row, res, StopShutdown)
    else (row, res.(structural := true), StopStructural)
  }

  // The frames of one connection in order, up to the first that stops it; n counts them.
  function Streamed(row: Option<Offset>, res: Attempt, frames: seq<Frame>, d: Decoder, replies: nat -> Reply,
          n: nat): (Option<Offset>, Attempt)
    decreases |frames|
  {
    if frames == [] then (row, res)
    else
      var (row', res', stop) := Handled(row, res, frames[0], d, replies(n));
      if stop == Go then Streamed(row', res', frames[1..], d, replies, n + 1) else (row', res')
  }

  // ---- One connection -------------------------------------------------------

  // What came of a request: no 200, or the bytes received before the connection ended.
  datatype Connection = NoResponse | Body(bytes: string, replies: nat -> Reply)

  function Attempted(row: Option<Offset>, c: Connection, d: Decoder): (Option<Offset>, Attempt) {
    match c
    case NoResponse => (row, TRANSPORT)
    case Body(bytes, replies) => Streamed(row, CONNECTED, Scan(bytes), d, replies, 0)
  }

  // ---- Backoff --------------------------------------------------------------

  const BASE_BACKOFF := 250
  const MAX_BACKOFF := 30_000

  function NextBackoff(d: int): int {
    if d * 2 > MAX_BACKOFF then MAX_BACKOFF else d * 2
  }

  // ---- The reconnect loop ---------------------------------------------------

  // The variables of run that live as long as the process.
  datatype Loop = Loop(backoff: int, needBootstrap: bool, bootstrapTail: bool, connectedOnce: bool)

  const STARTED := Loop(BASE_BACKOFF, true, false, false)

  // One round's surroundings: which database calls fail, the connection, and whether the context is
  // cancelled before the round, after the connection, or during the pause.
  datatype Round = Round(loads: bool, marks: bool, reloads: bool, clears: bool, connection: Connection,
                         cancelled: bool, cancelledAfter: bool, cancelledInPause: bool)

  // A round ends in the next one, in a clean exit, or in a crash.
  datatype Next = Again(loop: Loop) | Exit | Crash

  function Fault(r: Round): Next {
    if r.cancelledAfter then Exit else Crash
  }

  // The bootstrap block: the loop variables and the row behind it.
  function Bootstrapped(row: Option<Offset>, loop: Loop, from: string): (Option<Offset>, Loop) {
    if !loop.needBootstrap then (row, loop)
    else (if Loaded(row).subscribed then row else Marked(row),
          loop.(needBootstrap := false, bootstrapTail := Fresh(row) && from == "tail", connectedOnce := false))
  }

  // The request of a round whose bootstrap is behind it.
  function RoundRequest(row: Option<Offset>, loop: Loop): Request {
    RequestFor(Loaded(row), loop.bootstrapTail && !loop.connectedOnce)
  }

  function Paused(loop: Loop, r: Round): Next {
    if r.cancelledAfter || r.cancelledInPause then Exit else Again(loop.(backoff := NextBackoff(loop.backoff)))
  }

  // What a round does with the outcome of its connection.
  function Concluded(row: Option<Offset>, loop: Loop, res: Attempt, r: Round): (Option<Offset>, Next) {
    if res.structural then (row, Fault(r))
    else
      var loop1 := loop.(connectedOnce := loop.connectedOnce || res.connected,
                         backoff := if res.committedAny then BASE_BACKOFF else loop.backoff);
      if res.resync != "" then
        if r.clears then (Cleared(row), Again(loop1.(needBootstrap := true, backoff := BASE_BACKOFF))) else (row, Fault(r))
      else if res.stalled && res.committedAny && !r.cancelledAfter then (row, Again(loop1))
      else (row, Paused(loop1, r))
  }

  // One round of run.
  function Turned(row: Option<Offset>, loop: Loop, from: string, d: Decoder, r: Round): (Option<Offset>, Next) {
    if r.cancelled then (row, Exit)
    else if loop.needBootstrap && !r.loads then (row, Fault(r))
    else if loop.needBootstrap && !Loaded(row).subscribed && !r.marks then (row, Fault(r))
    else
      var (row1, loop1) := Bootstrapped(row, loop, from);
      if !r.reloads then (row1, Fault(r))
      else
        var (row2, res) := Attempted(row1, r.connection, d);
        Concluded(row2, loop1, res, r)
  }

  function Ran(row: Option<Offset>, loop: Loop, from: string, d: Decoder, rounds: seq<Round>): (Option<Offset>, Next)
    decreases |rounds|
  {
    if rounds == [] then (row, Again(loop))
    else
      var (row', next) := Turned(row, loop, from, d, rounds[0]);
      if next.Again? then Ran(row', next.loop, from, d, rounds[1..]) else (row', next)
  }

  class Engine {
    const from: string
    const decoder: Decoder
    const store: OffsetStore

    constructor (from: string, decoder: Decoder, store: OffsetStore)
      ensures this.from == from && this.decoder == decoder && this.store == store
    {
      this.from, this.decoder, this.store := from, decoder, store;
    }

    method HandleFrame(f: Frame, r: Reply, res: Attempt) returns (res': Attempt, stop: Stop)
      modifies store
      ensures (store.row, res', stop) == Handled(old(store.row), res, f, decoder, r)
    {
      res', stop := res, Go;
      if f.event == "resync" {
        return res.(resync := decoder.reason(f.data)), StopResync;
      }
      if f.event == "caught-up" || f.event == "status" {
        return;
      }
      if f.id == "" {
        return;
      }
      if decoder.envelope(f.data) && r.verdict == Fail {
        return res.(stalled := true), StopStall;
      }
      var ok := store.Commit(f.id, r.writes);
      if !ok {
        if r.shutdown {
          return res, StopShutdown;
        }
        return res.(structural := true), StopStructural;
      }
      return res.(committedAny := true), Go;
    }

    method ConnectAndStream(c: Connection) returns (res: Attempt)
      modifies store
      ensures (store.row, res) == Attempted(old(store.row), c, decoder)
    {
      if c.NoResponse? {
        return TRANSPORT;
      }
      hide Handled, Scan;
      res := CONNECTED;
      var frames := ScanFrames(c.bytes, f => false);
      ThroughAll(Scan(c.bytes));
      var n := 0;
      assert frames[0..] == frames;
      while n < |frames|
        invariant 0 <= n <= |frames|
        invariant Attempted(old(store.row), c, decoder) == Streamed(store.row, res, frames[n..], decoder, c.replies, n)
      {
        assert frames[n..][1..] == frames[n + 1..];
        var stop: Stop;
        res, stop := HandleFrame(frames[n], c.replies(n), res);
        if stop != Go {
          return;
        }
        n := n + 1;
      }
    }

    method Turn(loop: Loop, r: Round) returns (next: Next)
      modifies store
      ensures (store.row, next) == Turned(old(store.row), loop, from, decoder, r)
    {
      hide Attempted;
      if r.cancelled {
        return Exit;
      }
      var now := loop;
      if now.needBootstrap {
        if !r.loads {
          return Fault(r);
        }
        var state := Loaded(store.row);
        var isNew := !state.subscribed && state.cursor.None?;
        now := now.(bootstrapTail := isNew && from == "tail", connectedOnce := false);
        if !state.subscribed {
          var ok := store.MarkSubscribed(r.marks);
          if !ok {
            return Fault(r);
          }
        }
        now := now.(needBootstrap := false);
      }
      if !r.reloads {
        return Fault(r);
      }
      var res := ConnectAndStream(r.connection);
      if res.structural {
        return Fault(r);
      }
      if res.connected {
        now := now.(connectedOnce := true);
      }
      if res.committedAny {
        now := now.(backoff := BASE_BACKOFF);
      }
      if res.resync != "" {
        var ok := store.ClearForResync(r.clears);
        if !ok {
          return Fault(r);
        }
        return Again(now.(needBootstrap := true, backoff := BASE_BACKOFF));
      }
      if res.stalled {
        if r.cancelledAfter {
          return Exit;
        }
        if res.committedAny {
          return Again(now);
        }
        if r.cancelledInPause {
          return Exit;
        }
        return Again(now.(backoff := NextBackoff(now.backoff)));
      }
      if r.cancelledAfter {
        return Exit;
      }
      if r.cancelledInPause {
        return Exit;
      }
      return Again(now.(backoff := NextBackoff(now.backoff)));
    }

    // run, over as many rounds as it is given.
    method Run(rounds: seq<Round>) returns (next: Next)
      modifies store
      ensures (store.row, next) == Ran(old(store.row), STARTED, from, decoder, rounds)
    {
      hide Turned;
      var i := 0;
      next := Again(STARTED);
      assert rounds[0..] == rounds;
      while i < |rounds| && next.Again?
        invariant 0 <= i <= |rounds|
        invariant Ran(old(store.row), STARTED, from, decoder, rounds) ==
                  if next.Again? then Ran(store.row, next.loop, from, decoder, rounds[i..]) else (store.row, next)
        decreases |rounds| - i
      {
        assert rounds[i..][1..] == rounds[i + 1..];
        next := Turn(next.loop, rounds[i]);
        i := i + 1;
      }
    }
  }

  lemma {:induction false} ThroughAll(frames: seq<Frame>)
    ensures Through(frames, f => false) == frames
  {
    if frames != [] {
      ThroughAll(frames[1..]);
    }
  }

  // ---- What a connection does to the row ------------------------------------

  // The row a connection leaves is the row it found or one that some received event frame committed.
  lemma {:induction false} RowAfterStream(row: Option<Offset>, res: Attempt, frames: seq<Frame>, d: Decoder,
          replies: nat -> Reply, n: nat)
    ensures var (row', _) := Streamed(row, res, frames, d, replies, n);
            row' == row || exists f :: f in frames && f.id != "" && row' == Committed(row, f.id)
    decreases |frames|
  {
    if frames != [] {
      var (row1, res1, stop) := Handled(row, res, frames[0], d, replies(n));
      if stop == Go {
        RowAfterStream(row1, res1, frames[1..], d, replies, n + 1);
        var (row', _) := Streamed(row1, res1, frames[1..], d, replies, n + 1);
        if row' != row1 {
          var f :| f in frames[1..] && f.id != "" && row' == Committed(row1, f.id);
          assert f in frames;
        }
      }
    }
  }

  // A stall leaves the cursor at the event before the failing one: the frames up to it are committed
  // as if the connection had ended there.
  lemma {:induction false} StallKeepsCursor(row: Option<Offset>, res: Attempt, frames: seq<Frame>, d: Decoder,
          replies: nat -> Reply, n: nat, k: nat)
    requires !res.stalled && k < |frames|
    requires forall i :: 0 <= i < k ==> Handled(row, res, frames[i], d, replies(n + i)).2 == Go
    requires Handled(row, res, frames[k], d, replies(n + k)).2 == StopStall
    ensures var (row', res') := Streamed(row, res, frames, d, replies, n);
            res'.stalled && row' == Streamed(row, res, frames[..k], d, replies, n).0
    decreases k
  {
    if k > 0 {
      var (row1, res1, stop) := Handled(row, res, frames[0], d, replies(n));
      var rest := frames[1..];
      assert Handled(row, res, frames[0], d, replies(n + 0)).2 == Go;
      forall i | 0 <= i < k - 1
        ensures Handled(row1, res1, rest[i], d, replies(n + 1 + i)).2 == Go
      {
        assert Handled(row, res, frames[i + 1], d, replies(n + (i + 1))).2 == Go;
      }
      StallKeepsCursor(row1, res1, rest, d, replies, n + 1, k - 1);
      assert frames[..k][1..] == rest[..k - 1];
    } else {
      assert frames[..0] == [];
    }
  }

  // ---- What the loop keeps --------------------------------------------------

  // The pause is between its bounds, and past the bootstrap the row is marked.
  predicate LoopOk(row: Option<Offset>, loop: Loop) {
    BASE_BACKOFF <= loop.backoff <= MAX_BACKOFF && (!loop.needBootstrap ==> Loaded(row).subscribed)
  }

  // Past the bootstrap, and past a 200 since then: no request of this loop is for the tail.
  predicate Connected(loop: Loop) {
    !loop.needBootstrap && loop.connectedOnce
  }

  // Every round keeps the pause between its bounds and the mark in place. A round that got a 200, or
  // came after one, sends no further tail request unless it was told to resync.
  lemma TurnKeeps(row: Option<Offset>, loop: Loop, from: string, d: Decoder, r: Round)
    requires LoopOk(row, loop) && Turned(row, loop, from, d, r).1.Again?
    ensures var (row', next) := Turned(row, loop, from, d, r);
            LoopOk(row', next.loop) &&
            ((r.connection.Body? || Connected(loop)) && !next.loop.needBootstrap ==>
               Connected(next.loop) && RoundRequest(row', next.loop) != FromTail) &&
            (next.loop.needBootstrap ==> row' == Some(Offset(None, false)))
  {
    hide Handled, Scan;
    var (row1, loop1) := Bootstrapped(row, loop, from);
    match r.connection {
      case NoResponse =>
      case Body(bytes, replies) =>
        StreamKeeps(row1, CONNECTED, Scan(bytes), d, replies, 0);
    }
  }

  lemma {:induction false} StreamKeeps(row: Option<Offset>, res: Attempt, frames: seq<Frame>, d: Decoder,
          replies: nat -> Reply, n: nat)
    requires Loaded(row).subscribed
    ensures var (row', res') := Streamed(row, res, frames, d, replies, n);
            Loaded(row').subscribed && res'.connected == res.connected
    decreases |frames|
  {
    if frames != [] {
      var (row1, res1, stop) := Handled(row, res, frames[0], d, replies(n));
      if stop == Go {
        StreamKeeps(row1, res1, frames[1..], d, replies, n + 1);
      }
    }
  }

  // Over any number of rounds.
  lemma {:induction false} RunKeeps(row: Option<Offset>, loop: Loop, from: string, d: Decoder, rounds: seq<Round>)
    requires LoopOk(row, loop) && Ran(row, loop, from, d, rounds).1.Again?
    ensures var (row', next) := Ran(row, loop, from, d, rounds);
            LoopOk(row', next.loop)
    decreases |rounds|
  {
    hide Turned;
    if rounds != [] {
      TurnKeeps(row, loop, from, d, rounds[0]);
      var (row1, next) := Turned(row, loop, from, d, rounds[0]);
      RunKeeps(row1, next.loop, from, d, rounds[1..]);
    }
  }

  // The rounds go on to the end and none of them is told to resync.
  predicate NoResync(row: Option<Offset>, loop: Loop, from: string, d: Decoder, rounds: seq<Round>)
    decreases |rounds|
  {
    rounds == [] ||
    (var (row', next) := Turned(row, loop, from, d, rounds[0]);
     next.Again? && !next.loop.needBootstrap && NoResync(row', next.loop, from, d, rounds[1..]))
  }

  lemma {:induction false} ConnectedStays(row: Option<Offset>, loop: Loop, from: string, d: Decoder, rounds: seq<Round>)
    requires LoopOk(row, loop) && NoResync(row, loop, from, d, rounds) && rounds != []
    requires Connected(loop) || rounds[0].connection.Body?
    ensures var (row', next) := Ran(row, loop, from, d, rounds);
            next.Again? && LoopOk(row', next.loop) && Connected(next.loop) && RoundRequest(row', next.loop) != FromTail
    decreases |rounds|
  {
    hide Turned, RoundRequest, LoopOk;
    TurnKeeps(row, loop, from, d, rounds[0]);
    var (row1, next) := Turned(row, loop, from, d, rounds[0]);
    if |rounds| > 1 {
      ConnectedStays(row1, next.loop, from, d, rounds[1..]);
    }
  }

  lemma {:induction false} RanConcat(row: Option<Offset>, loop: Loop, from: string, d: Decoder, a: seq<Round>, b: seq<Round>)
    ensures var (row', next) := Ran(row, loop, from, d, a);
            Ran(row, loop, from, d, a + b) == if next.Again? then Ran(row', next.loop, from, d, b) else (row', next)
    decreases |a|
  {
    hide Turned;
    if a == [] {
      assert a + b == b;
    } else {
      assert (a + b)[0] == a[0] && (a + b)[1..] == a[1..] + b;
      var (row1, next) := Turned(row, loop, from, d, a[0]);
      if next.Again? {
        RanConcat(row1, next.loop, from, d, a[1..], b);
      }
    }
  }

  // Over every run of the loop: from a round that got a 200 on, and until the next resync, no request
  // is for the tail, however many connections break in between.
  lemma NoTailAfter200(from: string, row: Option<Offset>, d: Decoder, before: seq<Round>, after: seq<Round>)
    requires Ran(row, STARTED, from, d, before).1.Again?
    requires after != [] && after[0].connection.Body?
    requires var (row1, next1) := Ran(row, STARTED, from, d, before); NoResync(row1, next1.loop, from, d, after)
    ensures var (row', next) := Ran(row, STARTED, from, d, before + after);
            next.Again? && RoundRequest(row', next.loop) != FromTail
  {
    hide Ran, NoResync, RoundRequest;
    assert LoopOk(row, STARTED);
    RunKeeps(row, STARTED, from, d, before);
    RanConcat(row, STARTED, from, d, before, after);
    var (row1, next1) := Ran(row, STARTED, from, d, before);
    ConnectedStays(row1, next1.loop, from, d, after);
  }
}
