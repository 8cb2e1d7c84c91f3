/** The event plane as one protocol: a producer that appends, trims, restarts and is restored, a feed
    that streams, connections that break anywhere, and a consumer process that crashes anywhere
    (eventplane/outbox, eventplane/consumer). Every list of actions is a run; an action that is not
    possible in a state leaves it alone. */
module EventPlane {
  import opened Numeric
  import opened Cursor
  import opened Outbox
  import opened Consumer

  // ---- State ----------------------------------------------------------------

  // The number of a row under a generation.
  type Place = (string, int)

  // Bookkeeping that no component reads: the tokens minted, the row that each place has named, the
  // places trimmed, and the number up to which the newest generation names nothing.
  datatype Names = Names(minted: set<string>, named: map<Place, Row>, trimmed: set<Place>, floor: int)

  // The producer's durable state, and whether its process is up.
  datatype Site = Site(log: Log, backups: seq<Log>, sidecar: Sidecar, up: bool, generation: string, names: Names)

  // A frame on the wire: an event, or the resync frame that ends a connection.
  datatype Message = EventMessage(num: int, parses: bool) | ResyncMessage(reason: Reason)

  // A connection: what was asked; the generation of the producer that serves it; the position it has
  // streamed up to, once resolved; whether that producer still writes to it; whether the consumer
  // has its 200; and the frames the consumer has not read yet.
  datatype Link = Link(request: Request, generation: string, position: Option<int>, live: bool, accepted: bool, wire: seq<Message>)

  datatype Process = Process(needBootstrap: bool, bootstrapTail: bool, connectedOnce: bool, link: Option<Link>)

  // More bookkeeping: the places that the handler accepted or skipped, the places that a fetch
  // stepped over because they were gone, where the last cursor-less stream began, and the place of
  // the committed cursor.
  datatype Ledger = Ledger(done: set<Place>, lost: set<Place>, start: Option<Place>, committed: Option<Place>)

  // The last two fields are bookkeeping too: the position resolved for the latest tail request, and
  // whether the subscription has had a 200.
  datatype System = System(site: Site, row: Option<Offset>, process: Option<Process>, ledger: Ledger, tail: Option<Place>, got200: bool)

  const INITIAL := System(Site(EMPTY, [], Absent, false, "", Names({}, map[], {}, 0)), None, None, Ledger({}, {}, None, None), None, false)

  // The part of the configuration that the protocol depends on; whether the feed can encode a row, and
  // whether the consumer can parse what it then reads.
  datatype Config = Config(from: string, days: int, maxRows: int, batch: nat, encodes: Row -> bool, parses: Row -> bool)

  predicate ConfigOk(c: Config) {
    c.maxRows >= 1 && c.batch >= 1
  }

  // ---- Actions --------------------------------------------------------------

  datatype ProducerAction =
    | DoAppend(ev: Event, eventId: string, at: int)
    | DoTrim(at: int)
    | Stop
    | Boot(token: string)
    | Backup
    | Restore(which: nat)

  // What becomes of a handler call: it returns a verdict and the cursor is written or the process
  // dies before that; or the process dies inside the handler.
  datatype Outcome = Returned(verdict: Verdict, commits: bool) | DiedInside

  datatype Action =
    | Produce(p: ProducerAction)
    | Start
    | Die
    | Bootstrap
    | Connect
    | Resolve
    | Accept200
    | DoFetch
    | Receive(outcome: Outcome)
    | Drop

  // ---- The producer's side --------------------------------------------------

  function NamesOf(generation: string, rows: seq<Row>): map<Place, Row> {
    if rows == [] then map[]
    else NamesOf(generation, rows[..|rows| - 1])[(generation, rows[|rows| - 1].num) := rows[|rows| - 1]]
  }

  function Appending(site: Site, ev: Event, eventId: string, at: int): Site {
    if !site.up || Admission({}, site.log, ev) != Appended then site
    else
      var log := AfterAppend(site.log, ev, eventId, at);
      var row := log.rows[|log.rows| - 1];
      site.(log := log, names := site.names.(named := site.names.named[(site.generation, row.num) := row]))
  }

  function Gone(generation: string, before: Log, after: Log): set<Place> {
    set i | 0 <= i < |before.rows| && !Retained(after, before.rows[i].num) :: (generation, before.rows[i].num)
  }

  function Trimming(c: Config, site: Site, at: int): Site {
    if !site.up then site
    else
      var log := AfterTrim(site.log, at, c.days, c.maxRows);
      site.(log := log, names := site.names.(trimmed := site.names.trimmed + Gone(site.generation, site.log, log)))
  }

  // A boot reads the sidecar, or mints a token that was never used; it then names every row it finds.
  function Booting(site: Site, token: string): Site {
    if site.up || !Token32(token) || token in site.names.minted || Ensured(site.sidecar, token, true).None? then site
    else
      var (generation, sidecar) := Ensured(site.sidecar, token, true).value;
      var names := Names(site.names.minted + {generation}, site.names.named + NamesOf(generation, site.log.rows), site.names.trimmed,
                         if generation in site.names.minted then site.names.floor else site.log.high - |site.log.rows|);
      site.(up := true, generation := generation, sidecar := sidecar, names := names)
  }

  // A restore brings back a backed-up database and removes the sidecar.
  function Restoring(site: Site, which: nat): Site {
    if site.up || which >= |site.backups| then site else site.(log := site.backups[which], sidecar := Absent)
  }

  function Producing(c: Config, site: Site, a: ProducerAction): Site {
    match a
    case DoAppend(ev, eventId, at) => Appending(site, ev, eventId, at)
    case DoTrim(at) => Trimming(c, site, at)
    case Stop => site.(up := false)
    case Boot(token) => Booting(site, token)
    case Backup => site.(backups := site.backups + [site.log])
    case Restore(which) => Restoring(site, which)
  }

  // ---- The consumer's side --------------------------------------------------

  predicate HasLink(s: System) {
    s.process.Some? && s.process.value.link.Some?
  }

  function TheLink(s: System): Link
    requires HasLink(s)
  {
    s.process.value.link.value
  }

  function SetLink(s: System, link: Option<Link>): System
    requires s.process.Some?
  {
    s.(process := Some(s.process.value.(link := link)))
  }

  // A producer that stops writes nothing more to its connections.
  function Cut(s: System): System {
    if HasLink(s) then SetLink(s, Some(TheLink(s).(live := false))) else s
  }

  function Bootstrapping(c: Config, s: System): System {
    if s.process.None? || !s.process.value.needBootstrap || s.process.value.link.Some? then s
    else
      var p := s.process.value;
      var (row, loop) := Bootstrapped(s.row, Loop(BASE_BACKOFF, true, p.bootstrapTail, p.connectedOnce), c.from);
      s.(row := row, process := Some(p.(needBootstrap := false, bootstrapTail := loop.bootstrapTail, connectedOnce := loop.connectedOnce)))
  }

  function TheRequest(row: Option<Offset>, p: Process): Request {
    RoundRequest(row, Loop(BASE_BACKOFF, p.needBootstrap, p.bootstrapTail, p.connectedOnce))
  }

  function Connecting(s: System): System {
    if !s.site.up || s.process.None? || s.process.value.needBootstrap || s.process.value.link.Some? then s
    else
      var request := TheRequest(s.row, s.process.value);
      SetLink(s, Some(Link(request, s.site.generation, None, true, false, [])))
      .(tail := if request == FromTail then None else s.tail)
  }

  // The producer settles where the stream begins. It may do so before or after the consumer sees the
  // 200, which is on the wire first.
  function Resolving(s: System): System {
    if !HasLink(s) || !TheLink(s).live || TheLink(s).position.Some? || TheLink(s).wire != [] then s
    else
      var l := TheLink(s);
      match l.request
      case FromCursor(cursor) => (
        match Checked(l.generation, s.site.log, cursor)
        case Resume(num) => SetLink(s, Some(l.(position := Some(num))))
        case Resync(reason) => SetLink(s, Some(l.(live := false, wire := [ResyncMessage(reason)])))
      )
      case FromTail =>
        var head := MaxNum(s.site.log.rows);
        SetLink(s, Some(l.(position := Some(head))))
        .(ledger := s.ledger.(start := Some((l.generation, head))), tail := Some((l.generation, head)))
      case FromBeginning =>
        SetLink(s, Some(l.(position := Some(0)))).(ledger := s.ledger.(start := Some((l.generation, 0))))
  }

  function Accepting(s: System): System {
    if !HasLink(s) then s
    else s.(process := Some(s.process.value.(connectedOnce := true, link := Some(TheLink(s).(accepted := true)))), got200 := true)
  }

  // The frames of a batch: a row that cannot be encoded has none.
  function Messages(c: Config, batch: seq<Row>): seq<Message>
    decreases |batch|
  {
    if batch == [] then []
    else
      var row := batch[|batch| - 1];
      Messages(c, batch[..|batch| - 1]) + if c.encodes(row) then [EventMessage(row.num, c.parses(row))] else []
  }

  // The named places behind the position and up to the end of a batch that are no longer there.
  function SteppedOver(site: Site, generation: string, after: int, last: int): set<Place> {
    set place | place in site.names.named && place.0 == generation && after < place.1 <= last && !Retained(site.log, place.1)
  }

  function Fetching(c: Config, s: System): System {
    if !HasLink(s) || !TheLink(s).live || TheLink(s).position.None? then s
    else
      var l := TheLink(s);
      var batch := Fetched(s.site.log.rows, l.position.value, c.batch);
      var last := LastNum(batch, l.position.value);
      SetLink(s, Some(l.(position := Some(last), wire := l.wire + Messages(c, batch))))
      .(ledger := s.ledger.(lost := s.ledger.lost + SteppedOver(s.site, l.generation, l.position.value, last)))
  }

  // The consumer handles the next frame.
  function Receiving(s: System, outcome: Outcome): System {
    if !HasLink(s) || !TheLink(s).accepted || TheLink(s).wire == [] then s
    else
      var l := TheLink(s);
      match l.wire[0]
      case ResyncMessage(_) =>
        s.(row := Cleared(s.row),
           process := Some(s.process.value.(needBootstrap := true, link := None)),
           ledger := s.ledger.(start := None, committed := None), tail := None, got200 := false)
      case EventMessage(num, parses) =>
        if parses && outcome.DiedInside? then s.(process := None)
        else if parses && outcome.verdict == Fail then SetLink(s, None)
        else
          var place := (l.generation, num);
          var handled := if parses then s.ledger.(done := s.ledger.done + {place}) else s.ledger;
          if outcome.DiedInside? || !outcome.commits then s.(process := None, ledger := handled)
          else
            SetLink(s, Some(l.(wire := l.wire[1..])))
            .(row := Committed(s.row, MakeCursor(l.generation, num)), ledger := handled.(committed := Some(place)))
  }

  function Apply(c: Config, s: System, a: Action): System {
    match a
    case Produce(p) => (if p.Stop? then Cut(s) else s).(site := Producing(c, s.site, p))
    case Start => if s.process.None? then s.(process := Some(Process(true, false, false, None))) else s
    case Die => s.(process := None)
    case Bootstrap => Bootstrapping(c, s)
    case Connect => Connecting(s)
    case Resolve => Resolving(s)
    case Accept200 => Accepting(s)
    case DoFetch => Fetching(c, s)
    case Receive(outcome) => Receiving(s, outcome)
    case Drop => if s.process.Some? then SetLink(s, None) else s
  }

  function Run(c: Config, s: System, actions: seq<Action>): System
    decreases |actions|
  {
    if actions == [] then s else Apply(c, Run(c, s, actions[..|actions| - 1]), actions[|actions| - 1])
  }

  // ---- What the producer keeps ----------------------------------------------

  // The generation that the sidecar holds.
  function Current(site: Site): Option<string> {
    if site.sidecar.Content? then Some(TrimSpace(site.sidecar.text)) else None
  }

  predicate SidecarOk(site: Site) {
    (site.sidecar == Absent ||
     (site.sidecar.Content? && Token32(Current(site).value) && Current(site).value in site.names.minted)) &&
    (site.up ==> Current(site) == Some(site.generation))
  }

  predicate LogsOk(site: Site) {
    Contiguous(site.log) && forall i :: 0 <= i < |site.backups| ==> Contiguous(site.backups[i])
  }

  // Under generation g the names are those from the floor to the mark, the trimmed ones are those
  // that are not retained, and every retained row has its name.
  ghost predicate NamesCover(g: string, log: Log, names: Names) {
    names.floor <= log.high - |log.rows| &&
    (forall num :: (g, num) in names.named <==> names.floor < num <= log.high) &&
    (forall num :: (g, num) in names.trimmed <==> names.floor < num <= log.high - |log.rows|) &&
    (forall i :: 0 <= i < |log.rows| ==>
       (g, log.rows[i].num) in names.named && names.named[(g, log.rows[i].num)] == log.rows[i])
  }

  ghost predicate Minted(names: Names) {
    (forall place :: place in names.named ==> place.0 in names.minted && 1 <= place.1 < INT64_LIMIT) &&
    (forall place :: place in names.trimmed ==> place.0 in names.minted) &&
    (forall g :: g in names.minted ==> Token32(g))
  }

  ghost predicate Base(site: Site) {
    LogsOk(site) && SidecarOk(site) && Minted(site.names) &&
    (Current(site).Some? ==> NamesCover(Current(site).value, site.log, site.names))
  }

  // Names are kept for ever; a new one belongs to a token just minted, or to the generation in force
  // and a number above the mark. A generation once left never comes back.
  ghost predicate NamesGrow(a: Site, b: Site) {
    (forall place :: place in a.names.named ==> place in b.names.named && b.names.named[place] == a.names.named[place]) &&
    (forall place :: place in b.names.named && place !in a.names.named ==>
       place.0 !in a.names.minted || (Current(a) == Some(place.0) && place.1 > a.log.high)) &&
    a.names.minted <= b.names.minted && a.names.trimmed <= b.names.trimmed &&
    (Current(b).Some? && Current(b).value in a.names.minted ==> Current(a) == Current(b) && a.log.high <= b.log.high)
  }

  lemma AppendBase(site: Site, ev: Event, eventId: string, at: int)
    requires Base(site)
    ensures Base(Appending(site, ev, eventId, at)) && NamesGrow(site, Appending(site, ev, eventId, at))
  {
    hide TrimSpace, Token32;
    if Appending(site, ev, eventId, at) != site {
      AppendKeepsRun(site.log, ev, eventId, at);
    }
  }

  lemma GoneExactly(g: string, log: Log, at: int, days: int, maxRows: int, num: int)
    requires Contiguous(log) && maxRows >= 1
    ensures var after := AfterTrim(log, at, days, maxRows);
            (g, num) in Gone(g, log, after) <==> log.high - |log.rows| < num <= log.high - |after.rows|
  {
    TrimKeepsRun(log, at, days, maxRows);
    hide AfterTrim;
    var after := AfterTrim(log, at, days, maxRows);
    RetainedExactly(after, num);
    hide Retained;
    if log.high - |log.rows| < num <= log.high - |after.rows| {
      assert log.rows[num - (log.high - |log.rows| + 1)].num == num;
    }
  }

  lemma GonePlaces(g: string, log: Log, at: int, days: int, maxRows: int)
    requires Contiguous(log) && maxRows >= 1
    ensures var after := AfterTrim(log, at, days, maxRows);
            (forall num :: (g, num) in Gone(g, log, after) <==> log.high - |log.rows| < num <= log.high - |after.rows|) &&
            (forall place :: place in Gone(g, log, after) ==> place.0 == g)
  {
    forall num
      ensures (g, num) in Gone(g, log, AfterTrim(log, at, days, maxRows)) <==>
              log.high - |log.rows| < num <= log.high - |AfterTrim(log, at, days, maxRows).rows|
    {
      GoneExactly(g, log, at, days, maxRows, num);
    }
    hide AfterTrim, Retained, Contiguous;
  }

  lemma TrimBase(c: Config, site: Site, at: int)
    requires ConfigOk(c) && Base(site)
    ensures Base(Trimming(c, site, at)) && NamesGrow(site, Trimming(c, site, at))
  {
    hide TrimSpace, Token32, AfterTrim, Gone;
    if site.up {
      TrimKeepsRun(site.log, at, c.days, c.maxRows);
      GonePlaces(site.generation, site.log, at, c.days, c.maxRows);
    }
  }

  lemma {:induction false} NamesOfRows(generation: string, rows: seq<Row>, last: int)
    requires forall i :: 0 <= i < |rows| ==> rows[i].num == last - |rows| + 1 + i
    ensures forall num :: (generation, num) in NamesOf(generation, rows) <==> last - |rows| < num <= last
    ensures forall i :: 0 <= i < |rows| ==> (generation, rows[i].num) in NamesOf(generation, rows) && NamesOf(generation, rows)[(generation, rows[i].num)] == rows[i]
    ensures forall place :: place in NamesOf(generation, rows) ==> place.0 == generation
  {
    if rows != [] {
      NamesOfRows(generation, rows[..|rows| - 1], last - 1);
    }
  }

  // A boot that finds no sidecar starts a new generation, which names what is there.
  lemma FirstBoot(site: Site, token: string)
    requires Base(site) && !site.up && Token32(token) && token !in site.names.minted && site.sidecar == Absent
    ensures Base(Booting(site, token)) && NamesGrow(site, Booting(site, token)) && Booting(site, token).generation == token
  {
    TokenStays(token);
    NamesOfRows(token, site.log.rows, site.log.high);
    hide TrimSpace, Token32, NamesOf;
  }

  // Any other boot goes on with the generation there was, and names nothing anew.
  lemma LaterBoot(site: Site, token: string)
    requires Base(site) && !site.up && Token32(token) && token !in site.names.minted && site.sidecar.Content?
    ensures Booting(site, token) == site.(up := true, generation := Current(site).value)
  {
    var g := Current(site).value;
    NamesOfRows(g, site.log.rows, site.log.high);
    hide TrimSpace, Token32, NamesOf;
    var more := NamesOf(g, site.log.rows);
    forall place | place in more
      ensures place in site.names.named && more[place] == site.names.named[place]
    {
      assert place == (g, place.1);
      var i := place.1 - (site.log.high - |site.log.rows| + 1);
      assert site.log.rows[i].num == place.1;
    }
    assert site.names.named + more == site.names.named;
    assert site.names.minted + {g} == site.names.minted;
  }

  lemma BootBase(site: Site, token: string)
    requires Base(site)
    ensures Base(Booting(site, token)) && NamesGrow(site, Booting(site, token))
  {
    if Booting(site, token) != site {
      if site.sidecar == Absent {
        FirstBoot(site, token);
      } else {
        LaterBoot(site, token);
        hide Booting, TrimSpace, Token32, Contiguous;
      }
    }
  }

  lemma ProducerKeeps(c: Config, site: Site, a: ProducerAction)
    requires ConfigOk(c) && Base(site)
    ensures Base(Producing(c, site, a)) && NamesGrow(site, Producing(c, site, a))
  {
    hide Appending, Trimming, Booting, TrimSpace, Token32, Contiguous;
    match a {
      case DoAppend(ev, eventId, at) => AppendBase(site, ev, eventId, at);
      case DoTrim(at) => TrimBase(c, site, at);
      case Boot(token) => BootBase(site, token);
      case _ =>
    }
  }
}
