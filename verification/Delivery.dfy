/** What the event plane guarantees: accounted delivery, order, and the start of a tail subscription,
    over every run of the protocol. */
module Delivery {
  import opened Numeric
  import opened Cursor
  import opened Routing
  import opened Sse
  import opened Outbox
  import opened Consumer
  import opened EventPlane

  // ---- The invariant --------------------------------------------------------

  // A row that reaches the handler, if it is still there: the feed can encode it and the consumer parse it.
  predicate Readable(c: Config, row: Row) {
    c.encodes(row) && c.parses(row)
  }

  // A named place is accounted for when the handler accepted or skipped it, when a fetch stepped over
  // it because it was trimmed, or when it is not readable.
  ghost predicate Accounted(c: Config, names: Names, ledger: Ledger, place: Place)
    requires place in names.named
  {
    place in ledger.done || place in ledger.lost || !Readable(c, names.named[place])
  }

  ghost predicate AccountedThrough(c: Config, names: Names, ledger: Ledger, g: string, from: int, to: int) {
    forall num :: from < num <= to && (g, num) in names.named ==> Accounted(c, names, ledger, (g, num))
  }

  // The position up to which the consumer has committed, or begun.
  function Reached(ledger: Ledger): int
    requires ledger.start.Some?
  {
    if ledger.committed.Some? then ledger.committed.value.1 else ledger.start.value.1
  }

  predicate BelowMark(site: Site, g: string, num: int) {
    Current(site) == Some(g) ==> num <= site.log.high
  }

  // The durable cursor is that of the committed place, and all that lies between the start and it is
  // accounted for.
  ghost predicate RowOk(c: Config, site: Site, row: Option<Offset>, ledger: Ledger) {
    match ledger.committed
    case None => Loaded(row).cursor == None
    case Some(at) =>
      Loaded(row).cursor == Some(MakeCursor(at.0, at.1)) && at in site.names.named && BelowMark(site, at.0, at.1) &&
      ledger.start.Some? && ledger.start.value.0 == at.0 && 0 <= ledger.start.value.1 <= at.1 < INT64_LIMIT &&
      AccountedThrough(c, site.names, ledger, at.0, ledger.start.value.1, at.1)
  }

  predicate Pending(ledger: Ledger, l: Link) {
    (l.wire == [] || (|l.wire| == 1 && l.wire[0].ResyncMessage?)) &&
    match ledger.committed
    case None => !l.request.FromCursor?
    case Some(at) => l.request == FromCursor(MakeCursor(at.0, at.1))
  }

  function NumOf(m: Message): int {
    if m.EventMessage? then m.num else 0
  }

  ghost predicate MessageOk(c: Config, names: Names, g: string, m: Message, from: int, to: int) {
    m.EventMessage? && from < m.num <= to && (g, m.num) in names.named && m.parses == c.parses(names.named[(g, m.num)]) &&
    c.encodes(names.named[(g, m.num)])
  }

  ghost predicate WireOk(c: Config, names: Names, g: string, wire: seq<Message>, from: int, to: int) {
    (forall i :: 0 <= i < |wire| ==> MessageOk(c, names, g, wire[i], from, to)) &&
    (forall i, j :: 0 <= i < j < |wire| ==> NumOf(wire[i]) < NumOf(wire[j]))
  }

  predicate OnWire(wire: seq<Message>, num: int) {
    exists i :: 0 <= i < |wire| && NumOf(wire[i]) == num
  }

  // What is named up to the position and not yet read is on the wire, lost, or cannot be encoded.
  ghost predicate Covered(c: Config, names: Names, lost: set<Place>, g: string, wire: seq<Message>, from: int, to: int) {
    forall num :: from < num <= to && (g, num) in names.named ==>
      (g, num) in lost || OnWire(wire, num) || !c.encodes(names.named[(g, num)])
  }

  ghost predicate Streaming(c: Config, site: Site, ledger: Ledger, l: Link, p: int) {
    ledger.start.Some? && ledger.start.value.0 == l.generation &&
    (ledger.committed.Some? ==> ledger.committed.value.0 == l.generation) &&
    0 <= Reached(ledger) <= p < INT64_LIMIT && 0 <= ledger.start.value.1 <= p && BelowMark(site, l.generation, p) &&
    WireOk(c, site.names, l.generation, l.wire, Reached(ledger), p) &&
    Covered(c, site.names, ledger.lost, l.generation, l.wire, Reached(ledger), p)
  }

  ghost predicate LinkOk(c: Config, site: Site, ledger: Ledger, l: Link) {
    l.generation in site.names.minted && (l.live ==> site.up && site.generation == l.generation) &&
    (l.position.None? ==> Pending(ledger, l)) &&
    (l.position.Some? ==> Streaming(c, site, ledger, l, l.position.value))
  }

  predicate StartsAtTail(ledger: Ledger, tail: Option<Place>) {
    ledger.start.Some? && (ledger.start.value.1 == 0 || ledger.start == tail)
  }

  // A process past its bootstrap works on a marked row, and asks for the tail only if the
  // subscription never had a 200.
  predicate ProcessOk(row: Option<Offset>, p: Process, got200: bool) {
    (p.link.Some? ==> !p.needBootstrap) &&
    (!p.needBootstrap ==> Loaded(row).subscribed && (p.bootstrapTail && !p.connectedOnce ==> !got200))
  }

  predicate TailOk(s: System) {
    (s.got200 ==> Loaded(s.row).subscribed) && (s.tail.Some? ==> s.tail.value.1 >= 0) &&
    (s.process.Some? ==> ProcessOk(s.row, s.process.value, s.got200)) &&
    (s.ledger.committed.Some? ==> StartsAtTail(s.ledger, s.tail)) &&
    (HasLink(s) && TheLink(s).position.Some? ==> StartsAtTail(s.ledger, s.tail)) &&
    (HasLink(s) && TheLink(s).position.None? && TheLink(s).request == FromTail ==> s.tail == None)
  }

  ghost predicate LostOk(s: System) {
    s.ledger.lost <= s.site.names.trimmed
  }

  ghost predicate Inv(c: Config, s: System) {
    Base(s.site) && LostOk(s) && RowOk(c, s.site, s.row, s.ledger) && TailOk(s) &&
    (HasLink(s) ==> LinkOk(c, s.site, s.ledger, TheLink(s)))
  }

  // ---- The producer acts ----------------------------------------------------

  lemma RowOutlives(c: Config, a: Site, b: Site, row: Option<Offset>, ledger: Ledger)
    requires Base(a) && NamesGrow(a, b) && RowOk(c, a, row, ledger)
    ensures RowOk(c, b, row, ledger)
  {
    hide Current, LogsOk, SidecarOk, NamesCover;
    if ledger.committed.Some? {
      var at := ledger.committed.value;
      forall num | ledger.start.value.1 < num <= at.1 && (at.0, num) in b.names.named
        ensures Accounted(c, b.names, ledger, (at.0, num))
      {
        assert (at.0, num) in a.names.named;
      }
    }
  }

  lemma LinkOutlives(c: Config, a: Site, b: Site, ledger: Ledger, l: Link)
    requires Base(a) && NamesGrow(a, b) && LinkOk(c, a, ledger, l) && (l.live ==> b.up && b.generation == l.generation)
    ensures LinkOk(c, b, ledger, l)
  {
    hide Current, LogsOk, SidecarOk, NamesCover, OnWire, Pending;
    if l.position.Some? {
      var p := l.position.value;
      forall i | 0 <= i < |l.wire|
        ensures MessageOk(c, b.names, l.generation, l.wire[i], Reached(ledger), p)
      {
        assert MessageOk(c, a.names, l.generation, l.wire[i], Reached(ledger), p);
      }
      forall num | Reached(ledger) < num <= p && (l.generation, num) in b.names.named
        ensures (l.generation, num) in ledger.lost || OnWire(l.wire, num) || !c.encodes(b.names.named[(l.generation, num)])
      {
        assert (l.generation, num) in a.names.named;
      }
    }
  }

  lemma CutKeeps(c: Config, s: System)
    requires Inv(c, s)
    ensures Inv(c, Cut(s)) && (HasLink(Cut(s)) ==> !TheLink(Cut(s)).live)
    ensures Cut(s).site == s.site && Cut(s).row == s.row && Cut(s).ledger == s.ledger
  {
    hide Base, RowOk, WireOk, Covered, AccountedThrough;
  }

  // What stays of a link's claim to be live.
  lemma StaysUp(c: Config, site: Site, a: ProducerAction)
    requires site.up && !a.Stop?
    ensures Producing(c, site, a).up && Producing(c, site, a).generation == site.generation
  {
  }

  lemma ProduceKeeps(c: Config, s: System, a: ProducerAction)
    requires ConfigOk(c) && Inv(c, s)
    ensures Inv(c, Apply(c, s, Produce(a)))
  {
    hide Base, RowOk, Pending, Streaming, Producing, Cut, NamesGrow, SidecarOk;
    ProducerKeeps(c, s.site, a);
    CutKeeps(c, s);
    var s0 := if a.Stop? then Cut(s) else s;
    var b := Producing(c, s.site, a);
    RowOutlives(c, s.site, b, s0.row, s0.ledger);
    if s.site.up && !a.Stop? {
      StaysUp(c, s.site, a);
    }
    if HasLink(s0) {
      LinkOutlives(c, s.site, b, s0.ledger, TheLink(s0));
    }
    LostStays(s0.ledger, s.site, b);
  }

  lemma LostStays(ledger: Ledger, a: Site, b: Site)
    requires NamesGrow(a, b) && ledger.lost <= a.names.trimmed
    ensures ledger.lost <= b.names.trimmed
  {
  }

  // ---- The consumer acts ----------------------------------------------------

  lemma BootstrapKeeps(c: Config, s: System)
    requires Inv(c, s)
    ensures Inv(c, Bootstrapping(c, s))
  {
    hide Base, AccountedThrough, BelowMark, Streaming, Pending;
  }

  lemma ConnectKeeps(c: Config, s: System)
    requires Inv(c, s)
    ensures Inv(c, Connecting(s))
  {
    hide AccountedThrough, BelowMark, Streaming, LogsOk, Minted, NamesCover, TrimSpace, Token32;
  }

  lemma AcceptKeeps(c: Config, s: System)
    requires Inv(c, s)
    ensures Inv(c, Accepting(s))
  {
    hide Base, RowOk, AccountedThrough, BelowMark, WireOk, Covered;
  }

  // Where a cursor-less stream begins nothing is owed yet.
  lemma NothingOwed(c: Config, site: Site, ledger: Ledger, l: Link, p: int)
    requires ledger.committed.None? || ledger.committed.value == (l.generation, p)
    requires ledger.start.Some? && ledger.start.value.0 == l.generation && 0 <= ledger.start.value.1 <= p < INT64_LIMIT
    requires ledger.committed.None? ==> ledger.start.value.1 == p
    requires BelowMark(site, l.generation, p) && l.wire == []
    ensures Streaming(c, site, ledger, l, p)
  {
  }

  lemma LiveIsCurrent(c: Config, site: Site, ledger: Ledger, l: Link)
    requires Base(site) && LinkOk(c, site, ledger, l) && l.live
    ensures Current(site) == Some(l.generation) && NamesCover(l.generation, site.log, site.names) && Contiguous(site.log)
    ensures l.generation != "" && MaxNum(site.log.rows) == site.log.high
  {
    hide TrimSpace, Streaming, Pending, NamesCover, Contiguous;
    Bounds(site.log);
  }

  lemma ResolveKeeps(c: Config, s: System)
    requires Inv(c, s)
    ensures Inv(c, Resolving(s))
  {
    if Resolving(s) != s {
      var l := TheLink(s);
      LiveIsCurrent(c, s.site, s.ledger, l);
      match l.request {
        case FromCursor(cursor) =>
          ResumeKeeps(c, s, cursor);
        case _ =>
          FreshStartKeeps(c, s);
      }
    }
  }

  lemma ResumeKeeps(c: Config, s: System, cursor: string)
    requires Inv(c, s) && HasLink(s) && TheLink(s).live && TheLink(s).position.None? && TheLink(s).wire == []
    requires TheLink(s).request == FromCursor(cursor)
    ensures Inv(c, Resolving(s))
  {
    hide Base, AccountedThrough, BelowMark, Streaming, Checked, MakeCursor, NamesCover, Contiguous;
    var l := TheLink(s);
    LiveIsCurrent(c, s.site, s.ledger, l);
    var at := s.ledger.committed.value;
    CommittedToken(c, s);
    var check := Checked(l.generation, s.site.log, cursor);
    if check.Resume? {
      ResumeIsSame(l.generation, s.site.log, at.0, at.1, check.num);
      NothingOwed(c, s.site, s.ledger, l.(position := Some(check.num)), check.num);
    }
  }

  lemma CommittedToken(c: Config, s: System)
    requires Inv(c, s) && s.ledger.committed.Some?
    ensures s.ledger.committed.value.0 != "" && s.ledger.committed.value.0 in s.site.names.minted
  {
    hide LogsOk, SidecarOk, NamesCover, AccountedThrough, LinkOk, TailOk;
    var at := s.ledger.committed.value;
    assert at in s.site.names.named;
    assert Token32(at.0);
  }

  // A cursor is honoured only by the generation that minted it, and at its own position.
  lemma ResumeIsSame(generation: string, log: Log, g: string, num: int, resumed: int)
    requires g != "" && 0 <= num < INT64_LIMIT && Checked(generation, log, MakeCursor(g, num)) == Resume(resumed)
    ensures g == generation && resumed == num
  {
    RoundTrip(g, num);
  }

  lemma FreshStartKeeps(c: Config, s: System)
    requires Inv(c, s) && HasLink(s) && TheLink(s).live && TheLink(s).position.None? && TheLink(s).wire == []
    requires !TheLink(s).request.FromCursor?
    ensures Inv(c, Resolving(s))
  {
    var l := TheLink(s);
    LiveIsCurrent(c, s.site, s.ledger, l);
    var p := if l.request == FromTail then s.site.log.high else 0;
    hide AccountedThrough, Checked, MakeCursor, NamesCover, Minted, TrimSpace, Token32, Current;
    NothingOwed(c, s.site, s.ledger.(start := Some((l.generation, p))), l.(position := Some(p)), p);
    hide Base, Streaming, BelowMark;
  }

  predicate FrameOfRow(c: Config, m: Message, batch: seq<Row>) {
    exists k :: 0 <= k < |batch| && c.encodes(batch[k]) && m == EventMessage(batch[k].num, c.parses(batch[k]))
  }

  predicate Ascend(wire: seq<Message>) {
    forall i, j :: 0 <= i < j < |wire| ==> NumOf(wire[i]) < NumOf(wire[j])
  }

  predicate AllFrames(c: Config, wire: seq<Message>, batch: seq<Row>) {
    forall i :: 0 <= i < |wire| ==> FrameOfRow(c, wire[i], batch)
  }

  predicate AllOnWire(c: Config, wire: seq<Message>, batch: seq<Row>) {
    forall k :: 0 <= k < |batch| && c.encodes(batch[k]) ==> OnWire(wire, batch[k].num)
  }

  lemma FrameOfMore(c: Config, m: Message, front: seq<Row>, row: Row)
    requires FrameOfRow(c, m, front) && forall k :: 0 <= k < |front| ==> front[k].num < row.num
    ensures FrameOfRow(c, m, front + [row]) && NumOf(m) < row.num
  {
    var k :| 0 <= k < |front| && c.encodes(front[k]) && m == EventMessage(front[k].num, c.parses(front[k]));
    assert (front + [row])[k] == front[k];
  }

  lemma OnLongerWire(wire: seq<Message>, more: seq<Message>, num: int)
    requires OnWire(wire, num)
    ensures OnWire(wire + more, num)
  {
    var i :| 0 <= i < |wire| && NumOf(wire[i]) == num;
    assert (wire + more)[i] == wire[i];
  }

  // One more row and its frame.
  lemma MessagesSnoc(c: Config, wire: seq<Message>, front: seq<Row>, row: Row)
    requires AllFrames(c, wire, front) && Ascend(wire) && AllOnWire(c, wire, front)
    requires forall k :: 0 <= k < |front| ==> front[k].num < row.num
    ensures var more := wire + if c.encodes(row) then [EventMessage(row.num, c.parses(row))] else [];
            AllFrames(c, more, front + [row]) && Ascend(more) && AllOnWire(c, more, front + [row])
  {
    hide FrameOfRow, OnWire;
    var m := EventMessage(row.num, c.parses(row));
    var last := if c.encodes(row) then [m] else [];
    forall i | 0 <= i < |wire|
      ensures FrameOfRow(c, wire[i], front + [row]) && NumOf(wire[i]) < row.num
    {
      FrameOfMore(c, wire[i], front, row);
    }
    forall k | 0 <= k < |front| && c.encodes(front[k])
      ensures OnWire(wire + last, front[k].num)
    {
      OnLongerWire(wire, last, front[k].num);
    }
    if c.encodes(row) {
      LastFrame(c, wire, front, row);
    }
  }

  lemma LastFrame(c: Config, wire: seq<Message>, front: seq<Row>, row: Row)
    requires c.encodes(row)
    ensures var m := EventMessage(row.num, c.parses(row));
            FrameOfRow(c, m, front + [row]) && OnWire(wire + [m], row.num)
  {
    assert (front + [row])[|front|] == row;
    assert NumOf((wire + [EventMessage(row.num, c.parses(row))])[|wire|]) == row.num;
  }

  // The frames of a batch come from its rows that can be encoded, in order, and each of those has one.
  lemma {:induction false} MessagesAre(c: Config, batch: seq<Row>)
    requires forall i, j :: 0 <= i < j < |batch| ==> batch[i].num < batch[j].num
    ensures AllFrames(c, Messages(c, batch), batch) && Ascend(Messages(c, batch)) && AllOnWire(c, Messages(c, batch), batch)
    decreases |batch|
  {
    hide AllFrames, Ascend, AllOnWire;
    if batch == [] {
      NoMessages(c);
    } else {
      var front, row := batch[..|batch| - 1], batch[|batch| - 1];
      MessagesAre(c, front);
      MessagesSnoc(c, Messages(c, front), front, row);
      assert batch == front + [row];
    }
  }

  lemma NoMessages(c: Config)
    ensures AllFrames(c, [], []) && Ascend([]) && AllOnWire(c, [], [])
  {
  }

  lemma RowIsNamed(g: string, log: Log, names: Names, row: Row)
    requires NamesCover(g, log, names) && row in log.rows
    ensures (g, row.num) in names.named && names.named[(g, row.num)] == row
  {
    var k :| 0 <= k < |log.rows| && log.rows[k] == row;
  }

  lemma FramesAreOk(c: Config, names: Names, g: string, log: Log, wire: seq<Message>, batch: seq<Row>, from: int, to: int)
    requires NamesCover(g, log, names) && AllFrames(c, wire, batch) && Ascend(wire)
    requires forall k :: 0 <= k < |batch| ==> batch[k] in log.rows && from < batch[k].num <= to
    ensures WireOk(c, names, g, wire, from, to)
  {
    hide NamesCover;
    forall i | 0 <= i < |wire|
      ensures MessageOk(c, names, g, wire[i], from, to)
    {
      assert FrameOfRow(c, wire[i], batch);
      var k :| 0 <= k < |batch| && c.encodes(batch[k]) && wire[i] == EventMessage(batch[k].num, c.parses(batch[k]));
      RowIsNamed(g, log, names, batch[k]);
    }
  }

  // A batch from the live log: its rows are named, follow the position in order, and leave behind
  // only what was stepped over or cannot be encoded.
  lemma BatchCovers(c: Config, site: Site, g: string, p: int)
    requires ConfigOk(c) && Contiguous(site.log) && NamesCover(g, site.log, site.names) && 0 <= p <= site.log.high
    ensures var batch := Fetched(site.log.rows, p, c.batch);
            var last := LastNum(batch, p);
            p <= last <= site.log.high &&
            WireOk(c, site.names, g, Messages(c, batch), p, last) &&
            Covered(c, site.names, SteppedOver(site, g, p, last), g, Messages(c, batch), p, last)
  {
    hide Fetched, Retained, Messages, OnWire, NamesCover, AllFrames, Ascend, WireOk;
    FetchedIsRun(site.log, p, c.batch);
    var batch := Fetched(site.log.rows, p, c.batch);
    var last := LastNum(batch, p);
    MessagesAre(c, batch);
    FramesAreOk(c, site.names, g, site.log, Messages(c, batch), batch, p, last);
    var first := if p < site.log.high - |site.log.rows| then site.log.high - |site.log.rows| + 1 else p + 1;
    forall num | p < num <= last && (g, num) in site.names.named
      ensures (g, num) in SteppedOver(site, g, p, last) || OnWire(Messages(c, batch), num) || !c.encodes(site.names.named[(g, num)])
    {
      RetainedExactly(site.log, num);
      if num >= first {
        RowIsNamed(g, site.log, site.names, batch[num - first]);
      }
    }
  }

  // Two stretches of wire in a row.
  lemma WireJoins(c: Config, names: Names, g: string, a: seq<Message>, b: seq<Message>, from: int, mid: int, to: int)
    requires WireOk(c, names, g, a, from, mid) && WireOk(c, names, g, b, mid, to) && from <= mid <= to
    ensures WireOk(c, names, g, a + b, from, to)
  {
    var w := a + b;
    forall i | 0 <= i < |w|
      ensures MessageOk(c, names, g, w[i], from, to)
    {
      assert if i < |a| then MessageOk(c, names, g, a[i], from, mid) else MessageOk(c, names, g, b[i - |a|], mid, to);
    }
    forall i, j | 0 <= i < j < |w|
      ensures NumOf(w[i]) < NumOf(w[j])
    {
      if i < |a| <= j {
        assert MessageOk(c, names, g, a[i], from, mid) && MessageOk(c, names, g, b[j - |a|], mid, to);
      }
    }
  }

  lemma CoverJoins(c: Config, names: Names, lost: set<Place>, more: set<Place>, g: string, a: seq<Message>, b: seq<Message>,
          from: int, mid: int, to: int)
    requires Covered(c, names, lost, g, a, from, mid) && Covered(c, names, more, g, b, mid, to)
    ensures Covered(c, names, lost + more, g, a + b, from, to)
  {
    var w := a + b;
    forall num | from < num <= to && (g, num) in names.named
      ensures (g, num) in lost + more || OnWire(w, num) || !c.encodes(names.named[(g, num)])
    {
      if num <= mid {
        if OnWire(a, num) {
          var i :| 0 <= i < |a| && NumOf(a[i]) == num;
          assert NumOf(w[i]) == num;
        }
      } else if OnWire(b, num) {
        var i :| 0 <= i < |b| && NumOf(b[i]) == num;
        assert NumOf(w[|a| + i]) == num;
      }
    }
  }

  // What a fetch steps over was trimmed.
  lemma SteppedOverTrimmed(site: Site, g: string, after: int, last: int)
    requires Contiguous(site.log) && NamesCover(g, site.log, site.names)
    ensures SteppedOver(site, g, after, last) <= site.names.trimmed
  {
    forall place | place in SteppedOver(site, g, after, last)
      ensures place in site.names.trimmed
    {
      RetainedExactly(site.log, place.1);
      assert place == (g, place.1);
    }
  }

  lemma MoreAccounted(c: Config, site: Site, row: Option<Offset>, a: Ledger, b: Ledger)
    requires RowOk(c, site, row, a) && a.start == b.start && a.committed == b.committed && a.done <= b.done && a.lost <= b.lost
    ensures RowOk(c, site, row, b)
  {
    hide BelowMark, MakeCursor;
    if a.committed.Some? {
      var at := a.committed.value;
      forall num | a.start.value.1 < num <= at.1 && (at.0, num) in site.names.named
        ensures Accounted(c, site.names, b, (at.0, num))
      {
        assert Accounted(c, site.names, a, (at.0, num));
      }
    }
  }

  lemma FetchKeeps(c: Config, s: System)
    requires ConfigOk(c) && Inv(c, s)
    ensures Inv(c, Fetching(c, s))
  {
    hide Fetched, Messages, SteppedOver, WireOk, Covered, RowOk, Base, NamesCover, Contiguous, Current, Pending;
    if Fetching(c, s) != s {
      var l := TheLink(s);
      var p := l.position.value;
      LiveIsCurrent(c, s.site, s.ledger, l);
      BatchCovers(c, s.site, l.generation, p);
      var batch := Fetched(s.site.log.rows, p, c.batch);
      var last := LastNum(batch, p);
      var more := SteppedOver(s.site, l.generation, p, last);
      WireJoins(c, s.site.names, l.generation, l.wire, Messages(c, batch), Reached(s.ledger), p, last);
      CoverJoins(c, s.site.names, s.ledger.lost, more, l.generation, l.wire, Messages(c, batch), Reached(s.ledger), p, last);
      SteppedOverTrimmed(s.site, l.generation, p, last);
      MoreAccounted(c, s.site, s.row, s.ledger, s.ledger.(lost := s.ledger.lost + more));
      MarkBounds(s.site, last);
    }
  }

  lemma MarkBounds(site: Site, num: int)
    requires Contiguous(site.log) && num <= site.log.high
    ensures num < INT64_LIMIT
  {
  }

  // ---- A frame is received --------------------------------------------------

  lemma HeadIsLeast(c: Config, names: Names, g: string, wire: seq<Message>, from: int, to: int)
    requires WireOk(c, names, g, wire, from, to) && wire != []
    ensures forall num :: num < NumOf(wire[0]) ==> !OnWire(wire, num)
  {
  }

  // The head of the wire is the next place owed: everything named before it is accounted for.
  lemma HeadIsNext(c: Config, site: Site, row: Option<Offset>, ledger: Ledger, l: Link, p: int)
    requires RowOk(c, site, row, ledger) && l.position == Some(p) && Streaming(c, site, ledger, l, p) && l.wire != []
    ensures MessageOk(c, site.names, l.generation, l.wire[0], Reached(ledger), p)
    ensures AccountedThrough(c, site.names, ledger, l.generation, ledger.start.value.1, l.wire[0].num - 1)
  {
    hide BelowMark, MakeCursor;
    var m := l.wire[0];
    assert MessageOk(c, site.names, l.generation, m, Reached(ledger), p);
    forall num | ledger.start.value.1 < num < m.num && (l.generation, num) in site.names.named
      ensures Accounted(c, site.names, ledger, (l.generation, num))
    {
      if num > Reached(ledger) {
        HeadIsLeast(c, site.names, l.generation, l.wire, Reached(ledger), p);
      }
    }
  }

  // The wire behind the head.
  lemma WireTail(c: Config, names: Names, lost: set<Place>, g: string, wire: seq<Message>, from: int, to: int)
    requires wire != [] && WireOk(c, names, g, wire, from, to) && Covered(c, names, lost, g, wire, from, to)
    ensures WireOk(c, names, g, wire[1..], wire[0].num, to) && Covered(c, names, lost, g, wire[1..], wire[0].num, to)
  {
    var rest := wire[1..];
    assert MessageOk(c, names, g, wire[0], from, to);
    forall i | 0 <= i < |rest|
      ensures MessageOk(c, names, g, rest[i], wire[0].num, to)
    {
      assert MessageOk(c, names, g, wire[i + 1], from, to);
      assert NumOf(wire[0]) < NumOf(wire[i + 1]);
    }
    forall num | wire[0].num < num <= to && (g, num) in names.named
      ensures (g, num) in lost || OnWire(rest, num) || !c.encodes(names.named[(g, num)])
    {
      if OnWire(wire, num) {
        var i :| 0 <= i < |wire| && NumOf(wire[i]) == num;
        assert NumOf(rest[i - 1]) == num;
      }
    }
  }

  lemma Committing(c: Config, site: Site, row: Option<Offset>, a: Ledger, b: Ledger, l: Link, p: int, num: int)
    requires RowOk(c, site, row, a) && l.position == Some(p) && Streaming(c, site, a, l, p) && l.wire != []
    requires l.wire[0].EventMessage? && l.wire[0].num == num
    requires b.start == a.start && b.lost == a.lost && b.committed == Some((l.generation, num))
    requires b.done == if l.wire[0].parses then a.done + {(l.generation, num)} else a.done
    ensures RowOk(c, site, Committed(row, MakeCursor(l.generation, num)), b)
    ensures Streaming(c, site, b, l.(wire := l.wire[1..]), p)
  {
    HeadIsNext(c, site, row, a, l, p);
    WireTail(c, site.names, a.lost, l.generation, l.wire, Reached(a), p);
    hide MakeCursor, WireOk, Covered, RowOk, Current;
    var g := l.generation;
    forall q | b.start.value.1 < q <= num && (g, q) in site.names.named
      ensures Accounted(c, site.names, b, (g, q))
    {
      if q < num {
        assert Accounted(c, site.names, a, (g, q));
      }
    }
    assert AccountedThrough(c, site.names, b, g, b.start.value.1, num);
    Restated(c, site, Committed(row, MakeCursor(g, num)), b);
  }

  lemma Restated(c: Config, site: Site, row: Option<Offset>, ledger: Ledger)
    requires ledger.committed.Some? && ledger.start.Some?
    requires var at := ledger.committed.value;
             Loaded(row).cursor == Some(MakeCursor(at.0, at.1)) && at in site.names.named && BelowMark(site, at.0, at.1) &&
             ledger.start.value.0 == at.0 && 0 <= ledger.start.value.1 <= at.1 < INT64_LIMIT &&
             AccountedThrough(c, site.names, ledger, at.0, ledger.start.value.1, at.1)
    ensures RowOk(c, site, row, ledger)
  {
  }

  lemma ResyncKeeps(c: Config, s: System, outcome: Outcome)
    requires Inv(c, s) && HasLink(s) && TheLink(s).accepted && TheLink(s).wire != [] && TheLink(s).wire[0].ResyncMessage?
    ensures Inv(c, Receiving(s, outcome))
  {
    hide Base, LinkOk;
  }

  lemma EventKeeps(c: Config, s: System, outcome: Outcome)
    requires Inv(c, s) && HasLink(s) && TheLink(s).accepted && TheLink(s).wire != [] && TheLink(s).wire[0].EventMessage?
    ensures Inv(c, Receiving(s, outcome))
  {
    hide Base, RowOk, Streaming, MakeCursor, BelowMark;
    var l := TheLink(s);
    var m := l.wire[0];
    var place := (l.generation, m.num);
    var done := s.ledger.(done := if m.parses then s.ledger.done + {place} else s.ledger.done);
    MoreAccounted(c, s.site, s.row, s.ledger, done);
    Committing(c, s.site, s.row, s.ledger, done.(committed := Some(place)), l, l.position.value, m.num);
  }

  lemma ReceiveKeeps(c: Config, s: System, outcome: Outcome)
    requires Inv(c, s)
    ensures Inv(c, Receiving(s, outcome))
  {
    hide Inv;
    if Receiving(s, outcome) != s {
      if TheLink(s).wire[0].ResyncMessage? {
        ResyncKeeps(c, s, outcome);
      } else {
        EventKeeps(c, s, outcome);
      }
    }
  }

  // ---- Every run ------------------------------------------------------------

  lemma ProcessKeeps(c: Config, s: System, a: Action)
    requires Inv(c, s) && (a.Start? || a.Die? || a.Drop?)
    ensures Inv(c, Apply(c, s, a))
  {
    hide Base, RowOk, LinkOk;
  }

  lemma StepKeeps(c: Config, s: System, a: Action)
    requires ConfigOk(c) && Inv(c, s)
    ensures Inv(c, Apply(c, s, a))
  {
    hide Inv, Bootstrapping, Connecting, Resolving, Accepting, Fetching, Receiving;
    match a {
      case Produce(p) => ProduceKeeps(c, s, p);
      case Bootstrap => BootstrapKeeps(c, s);
      case Connect => ConnectKeeps(c, s);
      case Resolve => ResolveKeeps(c, s);
      case Accept200 => AcceptKeeps(c, s);
      case DoFetch => FetchKeeps(c, s);
      case Receive(outcome) => ReceiveKeeps(c, s, outcome);
      case _ => ProcessKeeps(c, s, a);
    }
  }

  lemma InitialOk(c: Config)
    ensures Inv(c, INITIAL)
  {
  }

  lemma {:induction false} RunKeeps(c: Config, actions: seq<Action>)
    requires ConfigOk(c)
    ensures Inv(c, Run(c, INITIAL, actions))
    decreases |actions|
  {
    hide Inv, Apply;
    if actions == [] {
      InitialOk(c);
    } else {
      RunKeeps(c, actions[..|actions| - 1]);
      StepKeeps(c, Run(c, INITIAL, actions[..|actions| - 1]), actions[|actions| - 1]);
    }
  }

  // ---- The guarantees -------------------------------------------------------

  // The row whose durable cursor is that of (g, n) has committed (g, n).
  lemma CursorIsCommitted(c: Config, s: System, g: string, n: int)
    requires Inv(c, s) && Loaded(s.row).cursor == Some(MakeCursor(g, n))
    ensures s.ledger.committed == Some((g, n))
  {
    hide Base, AccountedThrough, TailOk, LinkOk, BelowMark, MakeCursor;
    var at := s.ledger.committed.value;
    CursorNamesOnePosition(at.0, at.1, g, n);
  }

  // At-least-once accounting: over every run, all that was named between the start of the
  // subscription's stream and its durable cursor was accepted or skipped, or is not readable, or was
  // trimmed before it was fetched.
  lemma AtLeastOnce(c: Config, actions: seq<Action>, g: string, n: int)
    requires ConfigOk(c)
    requires Loaded(Run(c, INITIAL, actions).row).cursor == Some(MakeCursor(g, n))
    ensures var s := Run(c, INITIAL, actions);
            (g, n) in s.site.names.named && s.ledger.start.Some? && s.ledger.start.value.0 == g &&
            AccountedThrough(c, s.site.names, s.ledger, g, s.ledger.start.value.1, n) &&
            s.ledger.lost <= s.site.names.trimmed
  {
    RunKeeps(c, actions);
    var s := Run(c, INITIAL, actions);
    CursorIsCommitted(c, s, g, n);
    hide Run, Base, TailOk, LinkOk, AccountedThrough, BelowMark;
  }

  // In-order delivery: over every run, when a frame is about to be handled, whatever was named between
  // the start and it is accounted for. So as long as a place is not, no later one is handled.
  lemma InOrder(c: Config, actions: seq<Action>)
    requires ConfigOk(c)
    requires var s := Run(c, INITIAL, actions);
             HasLink(s) && TheLink(s).accepted && TheLink(s).wire != [] && TheLink(s).wire[0].EventMessage?
    ensures var s := Run(c, INITIAL, actions);
            var num := TheLink(s).wire[0].num;
            var g := TheLink(s).generation;
            s.ledger.start.Some? && s.ledger.start.value.0 == g && s.ledger.start.value.1 < num &&
            (g, num) in s.site.names.named && TheLink(s).wire[0].parses == c.parses(s.site.names.named[(g, num)]) &&
            AccountedThrough(c, s.site.names, s.ledger, g, s.ledger.start.value.1, num - 1)
  {
    RunKeeps(c, actions);
    var s := Run(c, INITIAL, actions);
    hide Run, Base, RowOk, TailOk, WireOk, Covered, AccountedThrough, BelowMark;
    HeadIsNext(c, s.site, s.row, s.ledger, TheLink(s), TheLink(s).position.value);
    StartIsBehind(c, s.site, s.row, s.ledger);
  }

  lemma StartIsBehind(c: Config, site: Site, row: Option<Offset>, ledger: Ledger)
    requires RowOk(c, site, row, ledger) && ledger.start.Some?
    ensures ledger.start.value.1 <= Reached(ledger)
  {
    hide AccountedThrough, MakeCursor;
  }

  // A handler's error leaves the row and the account as they were, and ends the connection; the next
  // request is for the same cursor.
  lemma FailureStands(c: Config, s: System, commits: bool)
    requires HasLink(s) && TheLink(s).accepted && TheLink(s).wire != []
    requires TheLink(s).wire[0].EventMessage? && TheLink(s).wire[0].parses
    ensures var s' := Apply(c, s, Receive(Returned(Fail, commits)));
            s'.row == s.row && s'.ledger == s.ledger && s'.site == s.site && !HasLink(s') && s'.process.Some? &&
            (Loaded(s.row).cursor.Some? ==>
               TheRequest(s'.row, s'.process.value) == FromCursor(Loaded(s.row).cursor.value))
  {
  }

  // No silent restart at the tail: once a tail request was resolved at h, whatever was named above h
  // and up to the cursor is accounted for, also when the process died before it committed anything.
  lemma NoSilentTail(c: Config, actions: seq<Action>, g: string, h: int, n: int)
    requires ConfigOk(c)
    requires var s := Run(c, INITIAL, actions);
             s.tail == Some((g, h)) && Loaded(s.row).cursor == Some(MakeCursor(g, n))
    ensures var s := Run(c, INITIAL, actions);
            AccountedThrough(c, s.site.names, s.ledger, g, h, n)
  {
    AtLeastOnce(c, actions, g, n);
    RunKeeps(c, actions);
    var s := Run(c, INITIAL, actions);
    CursorIsCommitted(c, s, g, n);
    hide Run, Base, RowOk, LinkOk, ProcessOk;
  }

  // The tail is asked for only by a subscription that never had a 200, and from its first 200 on the
  // position resolved for it stands until a resync clears the row.
  lemma TailAskedOnce(c: Config, actions: seq<Action>, a: Action)
    requires ConfigOk(c)
    ensures var s := Run(c, INITIAL, actions);
            var s' := Apply(c, s, a);
            (HasLink(s') && !HasLink(s) && TheLink(s').request == FromTail ==> !s.got200) &&
            (s.got200 && !s'.got200 ==> a.Receive? && HasLink(s) && TheLink(s).wire != [] && TheLink(s).wire[0].ResyncMessage?) &&
            (s.got200 && s.tail.Some? && s'.got200 ==> s'.tail == s.tail)
  {
    RunKeeps(c, actions);
    var s := Run(c, INITIAL, actions);
    hide Run, Base, RowOk, LinkOk, LostOk, Checked, Fetched, MakeCursor, Producing, SteppedOver, Messages, MaxNum;
  }

  // ---- Cursors for ever -----------------------------------------------------

  lemma {:induction false} NamesStay(c: Config, s: System, more: seq<Action>, place: Place)
    requires ConfigOk(c) && Inv(c, s) && place in s.site.names.named
    ensures var s' := Run(c, s, more);
            Inv(c, s') && place in s'.site.names.named && s'.site.names.named[place] == s.site.names.named[place]
    decreases |more|
  {
    hide Inv, Apply;
    if more != [] {
      NamesStay(c, s, more[..|more| - 1], place);
      NamesStayOnce(c, Run(c, s, more[..|more| - 1]), more[|more| - 1], place);
    }
  }

  lemma NamesStayOnce(c: Config, s: System, a: Action, place: Place)
    requires ConfigOk(c) && Inv(c, s) && place in s.site.names.named
    ensures var s' := Apply(c, s, a);
            Inv(c, s') && place in s'.site.names.named && s'.site.names.named[place] == s.site.names.named[place]
  {
    hide Base, RowOk, TailOk, LinkOk, LostOk, Producing, Checked, Fetched, Messages, SteppedOver, MaxNum;
    StepKeeps(c, s, a);
    if a.Produce? {
      ProducerKeeps(c, s.site, a.p);
    }
  }

  lemma {:induction false} RunConcat(c: Config, s: System, a: seq<Action>, b: seq<Action>)
    ensures Run(c, s, a + b) == Run(c, Run(c, s, a), b)
    decreases |b|
  {
    hide Apply;
    if b == [] {
      assert a + b == a;
    } else {
      RunConcat(c, s, a, b[..|b| - 1]);
      assert (a + b)[..|a + b| - 1] == a + b[..|b| - 1];
    }
  }

  lemma RetainedHasName(c: Config, s: System, i: nat)
    requires Inv(c, s) && s.site.up && i < |s.site.log.rows|
    ensures var place := (s.site.generation, s.site.log.rows[i].num);
            place in s.site.names.named && s.site.names.named[place] == s.site.log.rows[i]
  {
    hide RowOk, TailOk, LinkOk, TrimSpace, Token32, Contiguous;
  }

  // A cursor names one event for ever: two rows that any two moments of a run serve under the same
  // cursor are the same row, whatever was appended, trimmed, restarted or restored in between.
  lemma CursorNamesOneEvent(c: Config, before: seq<Action>, between: seq<Action>, i: nat, j: nat)
    requires ConfigOk(c)
    requires var s := Run(c, INITIAL, before);
             var s' := Run(c, INITIAL, before + between);
             s.site.up && s'.site.up && i < |s.site.log.rows| && j < |s'.site.log.rows| &&
             MakeCursor(s.site.generation, s.site.log.rows[i].num) == MakeCursor(s'.site.generation, s'.site.log.rows[j].num)
    ensures Run(c, INITIAL, before).site.log.rows[i] == Run(c, INITIAL, before + between).site.log.rows[j]
  {
    RunKeeps(c, before);
    RunConcat(c, INITIAL, before, between);
    hide Run, Inv, MakeCursor;
    var s := Run(c, INITIAL, before);
    var s' := Run(c, INITIAL, before + between);
    RetainedHasName(c, s, i);
    NamesStay(c, s, between, (s.site.generation, s.site.log.rows[i].num));
    RetainedHasName(c, s', j);
    CursorNamesOnePosition(s.site.generation, s.site.log.rows[i].num, s'.site.generation, s'.site.log.rows[j].num);
  }

  // Over every run the connect-time check says exactly what became of a cursor that was ever minted:
  // its generation is over; or the row after it was trimmed; or it is honoured. It is never diverged
  // and never unintelligible.
  lemma ResyncReasonsExact(c: Config, actions: seq<Action>, place: Place)
    requires ConfigOk(c)
    requires var s := Run(c, INITIAL, actions);
             s.site.up && place in s.site.names.named
    ensures var s := Run(c, INITIAL, actions);
            Checked(s.site.generation, s.site.log, MakeCursor(place.0, place.1)) ==
            if place.0 != s.site.generation then Resync(StaleEpoch)
            else if (place.0, place.1 + 1) in s.site.names.trimmed then Resync(PastHorizon)
            else Resume(place.1)
  {
    RunKeeps(c, actions);
    var s := Run(c, INITIAL, actions);
    hide Run, RowOk, TailOk, LinkOk, Checked, TrimSpace, MakeCursor, Contiguous;
    assert Token32(place.0);
    if place.0 != s.site.generation {
      StaleWhateverTheNumber(s.site.generation, s.site.log, place.0, place.1);
    } else {
      assert place == (place.0, place.1);
      CheckIsExact(place.0, s.site.log, place.1);
      RetainedExactly(s.site.log, place.1 + 1);
    }
  }

  // ---- What was handled -----------------------------------------------------

  // What was handled is named and readable.
  ghost predicate DoneOk(c: Config, s: System) {
    forall place :: place in s.ledger.done ==> place in s.site.names.named && Readable(c, s.site.names.named[place])
  }

  lemma DoneAfter(c: Config, s: System, a: Action)
    ensures var s' := Apply(c, s, a);
            s'.ledger.done == s.ledger.done ||
            (a.Receive? && HasLink(s) && TheLink(s).accepted && TheLink(s).wire != [] && TheLink(s).wire[0].EventMessage? &&
             TheLink(s).wire[0].parses && s'.site == s.site &&
             s'.ledger.done == s.ledger.done + {(TheLink(s).generation, TheLink(s).wire[0].num)})
  {
    hide Checked, Fetched, Messages, SteppedOver, MaxNum, Producing, MakeCursor;
  }

  lemma HeadIsReadable(c: Config, s: System)
    requires Inv(c, s) && HasLink(s) && TheLink(s).wire != [] && TheLink(s).wire[0].EventMessage? && TheLink(s).wire[0].parses
    ensures var place := (TheLink(s).generation, TheLink(s).wire[0].num);
            place in s.site.names.named && Readable(c, s.site.names.named[place])
  {
    hide Base, TailOk, WireOk, Covered, AccountedThrough, BelowMark;
    HeadIsNext(c, s.site, s.row, s.ledger, TheLink(s), TheLink(s).position.value);
  }

  lemma StepKeepsDone(c: Config, s: System, a: Action)
    requires ConfigOk(c) && Inv(c, s) && DoneOk(c, s)
    ensures DoneOk(c, Apply(c, s, a))
  {
    DoneAfter(c, s, a);
    hide Inv, Apply, Readable;
    var s' := Apply(c, s, a);
    forall place | place in s'.ledger.done
      ensures place in s'.site.names.named && Readable(c, s'.site.names.named[place])
    {
      if place in s.ledger.done {
        NamesStayOnce(c, s, a, place);
      } else {
        HeadIsReadable(c, s);
      }
    }
  }

  lemma {:induction false} DoneIsReadable(c: Config, actions: seq<Action>)
    requires ConfigOk(c)
    ensures DoneOk(c, Run(c, INITIAL, actions))
    decreases |actions|
  {
    hide Inv, Apply;
    if actions != [] {
      DoneIsReadable(c, actions[..|actions| - 1]);
      RunKeeps(c, actions[..|actions| - 1]);
      StepKeepsDone(c, Run(c, INITIAL, actions[..|actions| - 1]), actions[|actions| - 1]);
    }
  }

  // In terms of the log alone: of what is retained between the start and the cursor, exactly the rows
  // that can be encoded and parsed have been handled.
  lemma RetainedIsHandled(c: Config, actions: seq<Action>, g: string, n: int, i: nat)
    requires ConfigOk(c)
    requires var s := Run(c, INITIAL, actions);
             Loaded(s.row).cursor == Some(MakeCursor(g, n)) && Current(s.site) == Some(g) && i < |s.site.log.rows| &&
             s.ledger.start.Some? && s.ledger.start.value.1 < s.site.log.rows[i].num <= n
    ensures var s := Run(c, INITIAL, actions);
            (g, s.site.log.rows[i].num) in s.ledger.done <==> Readable(c, s.site.log.rows[i])
  {
    AtLeastOnce(c, actions, g, n);
    RunKeeps(c, actions);
    DoneIsReadable(c, actions);
    hide Run, RowOk, TailOk, LinkOk, SidecarOk, Minted, Token32, TrimSpace, Readable;
    var s := Run(c, INITIAL, actions);
    var row := s.site.log.rows[i];
    assert (g, row.num) in s.site.names.named;
    assert Accounted(c, s.site.names, s.ledger, (g, row.num));
  }

  // ---- What a trim removes --------------------------------------------------

  predicate AppendsAt(a: Action) {
    a.Produce? && a.p.DoAppend?
  }

  // The producer's clock does not go back from one append to the next.
  predicate ClockNeverBack(actions: seq<Action>) {
    forall i, j :: 0 <= i < j < |actions| && AppendsAt(actions[i]) && AppendsAt(actions[j]) ==> actions[i].p.at <= actions[j].p.at
  }

  predicate AppendsBy(actions: seq<Action>, clock: int) {
    forall i :: 0 <= i < |actions| && AppendsAt(actions[i]) ==> actions[i].p.at <= clock
  }

  predicate LogsCreatedBy(site: Site, clock: int) {
    CreatedBy(site.log, clock) && forall i :: 0 <= i < |site.backups| ==> CreatedBy(site.backups[i], clock)
  }

  lemma LaterClock(site: Site, clock: int, later: int)
    requires LogsCreatedBy(site, clock) && clock <= later
    ensures LogsCreatedBy(site, later)
  {
    hide TimesAscend;
  }

  lemma StepKeepsTimes(c: Config, s: System, a: Action, clock: int)
    requires ConfigOk(c) && LogsOk(s.site) && LogsCreatedBy(s.site, clock) && (AppendsAt(a) ==> clock <= a.p.at)
    ensures LogsCreatedBy(Apply(c, s, a).site, if AppendsAt(a) then a.p.at else clock)
  {
    hide Bootstrapping, Connecting, Resolving, Accepting, Fetching, Receiving, AfterTrim, CreatedBy;
    ConsumerLeavesSite(c, s, a);
    if a.Produce? {
      match a.p {
        case DoAppend(ev, eventId, at) =>
          LaterClock(s.site, clock, at);
          AppendKeepsTimes(s.site.log, ev, eventId, at, clock);
        case DoTrim(at) => TrimKeepsTimes(s.site.log, at, c.days, c.maxRows, clock);
        case Boot(token) => BootKeepsLogs(s.site, token);
        case _ =>
      }
    }
  }

  lemma BootKeepsLogs(site: Site, token: string)
    ensures Booting(site, token).log == site.log && Booting(site, token).backups == site.backups
  {
  }

  lemma ConsumerLeavesSite(c: Config, s: System, a: Action)
    ensures !a.Produce? ==> Apply(c, s, a).site == s.site
    ensures a.Produce? ==> Apply(c, s, a).site == Producing(c, s.site, a.p)
  {
    hide Checked, Fetched, Messages, SteppedOver, MaxNum, Producing, MakeCursor;
  }

  lemma {:induction false} TimesInRun(c: Config, actions: seq<Action>, clock: int)
    requires ConfigOk(c) && ClockNeverBack(actions) && AppendsBy(actions, clock)
    ensures LogsCreatedBy(Run(c, INITIAL, actions).site, clock)
    decreases |actions|
  {
    hide Apply, Inv, LogsCreatedBy;
    if actions == [] {
      NothingCreated(clock);
    } else {
      var front, a := actions[..|actions| - 1], actions[|actions| - 1];
      var before := if AppendsAt(a) then a.p.at else clock;
      TimesInRun(c, front, before);
      RunKeeps(c, front);
      InvHasLogs(c, Run(c, INITIAL, front));
      StepKeepsTimes(c, Run(c, INITIAL, front), a, before);
      LaterClock(Run(c, INITIAL, actions).site, before, clock);
    }
  }

  lemma NothingCreated(clock: int)
    ensures LogsCreatedBy(INITIAL.site, clock)
  {
  }

  lemma InvHasLogs(c: Config, s: System)
    requires Inv(c, s)
    ensures LogsOk(s.site)
  {
    hide SidecarOk, Minted, RowOk, TailOk, LinkOk, NamesCover;
  }

  // Over every run with a clock that never went back, a trim removes exactly the rows that are beyond
  // the row horizon and beyond the time horizon.
  lemma TrimsBeyondBothHorizons(c: Config, actions: seq<Action>, at: int, i: nat)
    requires ConfigOk(c) && ClockNeverBack(actions)
    requires var s := Run(c, INITIAL, actions); s.site.up && i < |s.site.log.rows|
    ensures var s := Run(c, INITIAL, actions);
            var row := s.site.log.rows[i];
            row !in Apply(c, s, Produce(DoTrim(at))).site.log.rows <==>
            row.num <= s.site.log.high - c.maxRows && row.createdAt < at - c.days * DAY
  {
    var clock := LastClock(actions);
    TimesInRun(c, actions, clock);
    RunKeeps(c, actions);
    var s := Run(c, INITIAL, actions);
    InvHasLogs(c, s);
    hide Run, Inv, AfterTrim, TimesAscend, Contiguous;
    TrimmedBeyondBothHorizons(s.site.log, at, c.days, c.maxRows, s.site.log.rows[i]);
  }

  lemma {:induction false} LastClock(actions: seq<Action>) returns (clock: int)
    ensures AppendsBy(actions, clock)
    decreases |actions|
  {
    clock := 0;
    if actions != [] {
      var a := actions[|actions| - 1];
      clock := LastClock(actions[..|actions| - 1]);
      if AppendsAt(a) && a.p.at > clock {
        clock := a.p.at;
      }
    }
  }

  // ---- The frame on the wire ------------------------------------------------

  // An event on the wire is handled as the engine handles the frame that the feed writes for its row.
  lemma ReceiveIsHandled(c: Config, s: System, row: Row, source: string, marshal: Row -> Option<string>, d: Decoder, r: Reply)
    requires HasLink(s) && TheLink(s).accepted && TheLink(s).wire != [] && marshal(row).Some?
    requires TheLink(s).wire[0] == EventMessage(row.num, d.envelope(marshal(row).value))
    ensures var f := ItemFrame(EventFrame(TheLink(s).generation, source, marshal, row))[0];
            var (row', res, stop) := Handled(s.row, CONNECTED, f, d, r);
            var s' := Apply(c, s, Receive(Returned(r.verdict, r.writes)));
            s'.row == row' && (stop == Go <==> HasLink(s')) && (stop == StopStall <==> s'.process.Some? && !HasLink(s')) &&
            (stop == Go ==> s'.ledger.committed == Some((TheLink(s).generation, row.num)))
  {
    KeyIsNoControl(source, row.kind, row.subject);
    hide MakeCursor, Key;
    CursorNotEmpty(TheLink(s).generation, row.num);
  }

  lemma CursorNotEmpty(g: string, num: int)
    ensures MakeCursor(g, num) != ""
  {
  }

  // The header and the query parameter that a request is sent with.
  function HeaderOf(request: Request): string {
    if request.FromCursor? then request.cursor else ""
  }

  function FromOf(request: Request): string {
    if request.FromTail? then "tail" else ""
  }

  // A connection is resolved as the feed handler settles the position of its request.
  lemma ResolveIsStartPosition(s: System)
    requires HasLink(s) && TheLink(s).live && TheLink(s).position.None? && TheLink(s).wire == []
    requires TheLink(s).request.FromCursor? ==> TheLink(s).request.cursor != ""
    ensures var l := TheLink(s);
            var start := StartPosition(l.generation, s.site.log, HeaderOf(l.request), FromOf(l.request));
            var l' := TheLink(Resolving(s));
            if start.Resume? then l' == l.(position := Some(start.num)) else l' == l.(live := false, wire := [ResyncMessage(start.reason)])
  {
    hide Checked, MaxNum;
  }
}
