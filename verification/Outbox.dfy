/** The producer's outbox: append, retention, generations and the connect-time check
    (eventplane/outbox/outbox.go, retention.go, feed.go). A log value stands for the outbox table and
    its AUTOINCREMENT mark; the class keeps them in fields. */
module Outbox {
  import opened Numeric
  import opened Cursor
  import opened Routing
  import opened Sse

  datatype Row = Row(num: int, eventId: string, kind: string, subject: string, payload: string, createdAt: int)

  // The table in insertion order, and the highest sequence number ever handed out.
  datatype Log = Log(rows: seq<Row>, high: nat)

  const EMPTY := Log([], 0)

  // ---- Aggregates -----------------------------------------------------------

  // SELECT COALESCE(MAX(seq), 0) over sequence numbers that are never negative.
  function MaxNum(rows: seq<Row>): int {
    if rows == [] then 0 else
      var rest := MaxNum(rows[..|rows| - 1]);
      if rows[|rows| - 1].num > rest then rows[|rows| - 1].num else rest
  }

  // SELECT COALESCE(MIN(seq), 0)
  function MinNum(rows: seq<Row>): int {
    if rows == [] then 0
    else if |rows| == 1 then rows[0].num
    else
      var rest := MinNum(rows[1..]);
      if rows[0].num < rest then rows[0].num else rest
  }

  // The retained rows are one run of consecutive numbers that ends at the mark, and only a log that
  // never had a row is empty.
  predicate Contiguous(log: Log) {
    |log.rows| <= log.high < INT64_LIMIT && (log.rows == [] ==> log.high == 0) &&
    forall i :: 0 <= i < |log.rows| ==> log.rows[i].num == log.high - |log.rows| + 1 + i
  }

  lemma {:induction false} MaxOfRun(rows: seq<Row>, last: int)
    requires rows != [] && last >= |rows|
    requires forall i :: 0 <= i < |rows| ==> rows[i].num == last - |rows| + 1 + i
    ensures MaxNum(rows) == last
  {
    if |rows| > 1 {
      MaxOfRun(rows[..|rows| - 1], last - 1);
    }
  }

  lemma {:induction false} MinOfRun(rows: seq<Row>, first: int)
    requires rows != []
    requires forall i :: 0 <= i < |rows| ==> rows[i].num == first + i
    ensures MinNum(rows) == first
  {
    if |rows| > 1 {
      MinOfRun(rows[1..], first + 1);
    }
  }

  // The head is the mark, and the least number retained is the mark less the length.
  lemma Bounds(log: Log)
    requires Contiguous(log)
    ensures MaxNum(log.rows) == log.high
    ensures log.rows != [] ==> MinNum(log.rows) == log.high - |log.rows| + 1 >= 1
    ensures log.rows == [] ==> MinNum(log.rows) == 0
  {
    if log.rows != [] {
      MaxOfRun(log.rows, log.high);
      MinOfRun(log.rows, log.high - |log.rows| + 1);
    }
  }

  predicate Retained(log: Log, num: int) {
    exists i :: 0 <= i < |log.rows| && log.rows[i].num == num
  }

  lemma RetainedExactly(log: Log, num: int)
    requires Contiguous(log)
    ensures Retained(log, num) <==> log.high - |log.rows| < num <= log.high
  {
    if log.high - |log.rows| < num <= log.high {
      assert log.rows[num - (log.high - |log.rows| + 1)].num == num;
    }
  }

  // ---- Append ---------------------------------------------------------------

  datatype Event = Event(kind: string, subject: string, payload: string)

  datatype AppendError = InvalidKind | InvalidSubject | UndeclaredKind | LogFull

  datatype AppendResult = Appended | Rejected(error: AppendError)

  // An empty registry leaves the kinds unconstrained.
  function Admission(registry: set<string>, log: Log, ev: Event): AppendResult {
    if !ValidKind(ev.kind) then Rejected(InvalidKind)
    else if !ValidSubject(ev.subject) then Rejected(InvalidSubject)
    else if registry != {} && ev.kind !in registry then Rejected(UndeclaredKind)
    else if log.high + 1 >= INT64_LIMIT then Rejected(LogFull)
    else Appended
  }

  function AfterAppend(log: Log, ev: Event, eventId: string, now: int): Log {
    Log(log.rows + [Row(log.high + 1, eventId, ev.kind, ev.subject, ev.payload, now)], log.high + 1)
  }

  lemma AppendKeepsRun(log: Log, ev: Event, eventId: string, now: int)
    requires Contiguous(log) && log.high + 1 < INT64_LIMIT
    ensures Contiguous(AfterAppend(log, ev, eventId, now))
  {
  }

  // ---- Retention ------------------------------------------------------------

  const DAY := 24 * 60 * 60 * 1000
  const DEFAULT_RETENTION_DAYS := 7
  const DEFAULT_RETENTION_ROWS := 1_000_000

  function RetentionDays(option: int): (r: int)
    ensures r >= 1
  {
    if option <= 0 then DEFAULT_RETENTION_DAYS else option
  }

  function RetentionRows(option: int): (r: int)
    ensures r >= 1
  {
    if option <= 0 then DEFAULT_RETENTION_ROWS else option
  }

  function OlderThan(rows: seq<Row>, cutoff: int): seq<Row> {
    if rows == [] then []
    else if rows[0].createdAt < cutoff then [rows[0]] + OlderThan(rows[1..], cutoff)
    else OlderThan(rows[1..], cutoff)
  }

  function Above(rows: seq<Row>, floor: int): seq<Row> {
    if rows == [] then []
    else if rows[0].num > floor then [rows[0]] + Above(rows[1..], floor)
    else Above(rows[1..], floor)
  }

  lemma {:induction false} OlderThanMembers(rows: seq<Row>, cutoff: int, r: Row)
    ensures r in OlderThan(rows, cutoff) <==> r in rows && r.createdAt < cutoff
  {
    if rows != [] {
      assert rows == [rows[0]] + rows[1..];
      OlderThanMembers(rows[1..], cutoff, r);
    }
  }

  lemma {:induction false} AboveMembers(rows: seq<Row>, floor: int, r: Row)
    ensures r in Above(rows, floor) <==> r in rows && r.num > floor
  {
    if rows != [] {
      assert rows == [rows[0]] + rows[1..];
      AboveMembers(rows[1..], floor, r);
    }
  }

  function TrimFloor(log: Log, now: int, days: int, maxRows: int): int {
    var rowFloor := MaxNum(log.rows) - maxRows;
    var timeFloor := MaxNum(OlderThan(log.rows, now - days * DAY));
    if timeFloor < rowFloor then timeFloor else rowFloor
  }

  function AfterTrim(log: Log, now: int, days: int, maxRows: int): Log {
    if MaxNum(log.rows) == 0 || TrimFloor(log, now, days, maxRows) <= 0 then log
    else log.(rows := Above(log.rows, TrimFloor(log, now, days, maxRows)))
  }

  lemma {:induction false} AboveOfRun(rows: seq<Row>, first: int, floor: int)
    requires forall i :: 0 <= i < |rows| ==> rows[i].num == first + i
    ensures Above(rows, floor) ==
            rows[if floor < first then 0 else if floor >= first + |rows| then |rows| else floor - first + 1..]
  {
    if rows != [] {
      AboveOfRun(rows[1..], first + 1, floor);
      if rows[0].num > floor {
        assert rows == [rows[0]] + rows[1..];
      }
    }
  }

  // A trim removes a prefix and never the newest row, so the retained rows stay one run to the head.
  lemma TrimKeepsRun(log: Log, now: int, days: int, maxRows: int)
    requires Contiguous(log) && maxRows >= 1
    ensures var after := AfterTrim(log, now, days, maxRows);
            Contiguous(after) && after.high == log.high && |after.rows| <= |log.rows| &&
            after.rows == log.rows[|log.rows| - |after.rows|..]
  {
    Bounds(log);
    hide Above, MaxNum, MinNum, OlderThan;
    if AfterTrim(log, now, days, maxRows) != log {
      AboveOfRun(log.rows, log.high - |log.rows| + 1, TrimFloor(log, now, days, maxRows));
    }
  }

  lemma {:induction false} MaxNumIsMax(rows: seq<Row>)
    ensures MaxNum(rows) >= 0
    ensures forall r :: r in rows ==> r.num <= MaxNum(rows)
    ensures MaxNum(rows) > 0 ==> exists r :: r in rows && r.num == MaxNum(rows)
  {
    if rows != [] {
      var last := rows[|rows| - 1];
      MaxNumIsMax(rows[..|rows| - 1]);
      assert rows == rows[..|rows| - 1] + [last];
    }
  }

  // Exactly which rows a trim removes, whatever the clock did: those beyond the row horizon that are
  // not newer than some row older than the time horizon.
  lemma TrimmedExactly(log: Log, now: int, days: int, maxRows: int, r: Row)
    requires Contiguous(log) && maxRows >= 1 && r in log.rows
    ensures r !in AfterTrim(log, now, days, maxRows).rows <==>
            r.num <= log.high - maxRows && exists old_ :: old_ in log.rows && old_.createdAt < now - days * DAY && r.num <= old_.num
  {
    hide OlderThan, Above, MaxNum, MinNum;
    Bounds(log);
    var cutoff := now - days * DAY;
    var older := OlderThan(log.rows, cutoff);
    MaxNumIsMax(older);
    AboveMembers(log.rows, TrimFloor(log, now, days, maxRows), r);
    assert r.num >= 1 by {
      var i :| 0 <= i < |log.rows| && log.rows[i] == r;
    }
    if exists old_ :: old_ in log.rows && old_.createdAt < cutoff && r.num <= old_.num {
      var old_ :| old_ in log.rows && old_.createdAt < cutoff && r.num <= old_.num;
      OlderThanMembers(log.rows, cutoff, old_);
    }
    if r.num <= MaxNum(older) {
      var old_ :| old_ in older && old_.num == MaxNum(older);
      OlderThanMembers(log.rows, cutoff, old_);
    }
  }

  predicate TimesAscend(log: Log) {
    forall i, j :: 0 <= i <= j < |log.rows| ==> log.rows[i].createdAt <= log.rows[j].createdAt
  }

  // The rows were created in order, and none after the clock.
  predicate CreatedBy(log: Log, clock: int) {
    TimesAscend(log) && forall i :: 0 <= i < |log.rows| ==> log.rows[i].createdAt <= clock
  }

  lemma AppendKeepsTimes(log: Log, ev: Event, eventId: string, now: int, clock: int)
    requires CreatedBy(log, clock) && clock <= now
    ensures CreatedBy(AfterAppend(log, ev, eventId, now), now)
  {
  }

  lemma TrimKeepsTimes(log: Log, now: int, days: int, maxRows: int, clock: int)
    requires Contiguous(log) && maxRows >= 1 && CreatedBy(log, clock)
    ensures CreatedBy(AfterTrim(log, now, days, maxRows), clock)
  {
    TrimKeepsRun(log, now, days, maxRows);
    hide AfterTrim, Contiguous, CreatedBy;
    SuffixCreatedBy(log, |log.rows| - |AfterTrim(log, now, days, maxRows).rows|, clock);
  }

  lemma SuffixCreatedBy(log: Log, k: nat, clock: int)
    requires k <= |log.rows| && CreatedBy(log, clock)
    ensures CreatedBy(Log(log.rows[k..], log.high), clock)
  {
  }

  // With a clock that never ran backwards a trim removes exactly the rows beyond both horizons.
  lemma TrimmedBeyondBothHorizons(log: Log, now: int, days: int, maxRows: int, r: Row)
    requires Contiguous(log) && TimesAscend(log) && maxRows >= 1 && r in log.rows
    ensures r !in AfterTrim(log, now, days, maxRows).rows <==>
            r.num <= log.high - maxRows && r.createdAt < now - days * DAY
  {
    TrimmedExactly(log, now, days, maxRows, r);
    hide AfterTrim;
    if exists old_ :: old_ in log.rows && old_.createdAt < now - days * DAY && r.num <= old_.num {
      var old_ :| old_ in log.rows && old_.createdAt < now - days * DAY && r.num <= old_.num;
      var i :| 0 <= i < |log.rows| && log.rows[i] == r;
      var j :| 0 <= j < |log.rows| && log.rows[j] == old_;
      assert i <= j;
    }
  }

  // ---- Fetching -------------------------------------------------------------

  lemma NothingAbove(floor: int)
    ensures Above([], floor) == []
  {
  }

  lemma AboveStep(rows: seq<Row>, i: nat, floor: int)
    requires i < |rows|
    ensures Above(rows[i..], floor) == (if rows[i].num > floor then [rows[i]] else []) + Above(rows[i + 1..], floor)
  {
    assert rows[i..][1..] == rows[i + 1..];
  }

  function Fetched(rows: seq<Row>, after: int, limit: nat): seq<Row> {
    var later := Above(rows, after);
    if |later| <= limit then later else later[..limit]
  }

  function LastNum(rows: seq<Row>, after: int): int {
    if rows == [] then after else rows[|rows| - 1].num
  }

  // A batch is the run of retained rows that begins at the first one behind the position.
  lemma FetchedIsRun(log: Log, after: int, limit: nat)
    requires Contiguous(log) && after >= 0
    ensures var batch := Fetched(log.rows, after, limit);
            var first := if after < log.high - |log.rows| then log.high - |log.rows| + 1 else after + 1;
            |batch| <= limit && (forall i :: 0 <= i < |batch| ==> batch[i].num == first + i && batch[i] in log.rows) &&
            (batch == [] && limit > 0 ==> after >= log.high) &&
            LastNum(batch, after) <= if after > log.high then after else log.high
  {
    AboveOfRun(log.rows, log.high - |log.rows| + 1, after);
    hide Above;
    var batch := Fetched(log.rows, after, limit);
    var k := |log.rows| - |Above(log.rows, after)|;
    assert batch == log.rows[k..k + |batch|];
    forall i | 0 <= i < |batch|
      ensures batch[i] == log.rows[k + i] && batch[i] in log.rows
    {
    }
  }

  // ---- The connect-time check -----------------------------------------------

  datatype Reason = StaleEpoch | PastHorizon | Diverged | Unintelligible

  datatype Check = Resume(num: int) | Resync(reason: Reason)

  function Checked(generation: string, log: Log, cursor: string): Check {
    match ParseCursor(cursor)
    case None => Resync(Unintelligible)
    case Some(p) =>
      if p.generation != generation then Resync(StaleEpoch)
      else if p.num > MaxNum(log.rows) then Resync(Diverged)
      else
        var min := MinNum(log.rows);
        if min > 0 && p.num + 1 < min then Resync(PastHorizon) else Resume(p.num)
  }

  // What the check says of a minted cursor of the live generation: it is honoured exactly when the
  // next row is retained or not yet written; it is past the horizon exactly when that row existed
  // and is gone; and it is never diverged unless the log has lost rows it once had.
  lemma CheckIsExact(generation: string, log: Log, num: int)
    requires Contiguous(log) && generation != "" && 0 <= num < INT64_LIMIT
    ensures var check := Checked(generation, log, MakeCursor(generation, num));
            (check == Resume(num) <==> Retained(log, num + 1) || num == log.high) &&
            (check == Resync(PastHorizon) <==> 1 <= num + 1 <= log.high && !Retained(log, num + 1)) &&
            (check == Resync(Diverged) <==> num > log.high)
  {
    RoundTrip(generation, num);
    Bounds(log);
    RetainedExactly(log, num + 1);
  }

  // A cursor of another generation is stale whatever its number: the only guard against a number
  // that a restore handed out twice.
  lemma StaleWhateverTheNumber(generation: string, log: Log, other: string, num: int)
    requires other != "" && other != generation && 0 <= num < INT64_LIMIT
    ensures Checked(generation, log, MakeCursor(other, num)) == Resync(StaleEpoch)
  {
    RoundTrip(other, num);
  }

  // The position a feed request starts at (the Last-Event-ID header, ?from=tail, or neither).
  function StartPosition(generation: string, log: Log, lastEventId: string, from: string): Check {
    if lastEventId != "" then Checked(generation, log, lastEventId)
    else if from == "tail" then Resume(MaxNum(log.rows))
    else Resume(0)
  }

  // ---- Generations ----------------------------------------------------------

  // A token of newULID: base32 without padding.
  predicate Token32(s: string) {
    s != "" && forall i :: 0 <= i < |s| ==> 'A' <= s[i] <= 'Z' || '2' <= s[i] <= '7'
  }

  datatype Sidecar = Absent | Unreadable | Content(text: string)

  // The generation in force after a boot, and the sidecar it leaves; None when the file cannot be
  // read or written.
  function Ensured(sidecar: Sidecar, minted: string, writable: bool): Option<(string, Sidecar)> {
    if sidecar == Unreadable then None
    else if sidecar.Content? && TrimSpace(sidecar.text) != "" then Some((TrimSpace(sidecar.text), sidecar))
    else if writable then Some((minted, Content(minted + "\n"))) else None
  }

  lemma TokenStays(s: string)
    requires Token32(s)
    ensures TrimSpace(s + "\n") == s
  {
    assert (s + "\n")[0] == s[0] && !IsSpace(s[0]) && !IsSpace(s[|s| - 1]);
    assert TrimRight(s + "\n") == TrimRight(s) by {
      assert (s + "\n")[..|s|] == s;
    }
  }

  // A reboot keeps the generation; only a boot that finds no token starts a new one.
  lemma RebootKeepsGeneration(sidecar: Sidecar, minted: string, writable: bool, later: string, writable': bool)
    requires Token32(minted) && Ensured(sidecar, minted, writable).Some?
    ensures var (generation, file) := Ensured(sidecar, minted, writable).value;
            Ensured(file, later, writable') == Some((generation, file)) &&
            (generation == minted || (sidecar.Content? && sidecar == file))
  {
    TokenStays(minted);
  }

  // ---- Frames ---------------------------------------------------------------

  // The frame of a row; marshal is the JSON encoding of its envelope. A row whose payload cannot be
  // encoded leaves a comment in its place.
  function EventFrame(generation: string, source: string, marshal: Row -> Option<string>, row: Row): Item {
    match marshal(row)
    case None => CommentItem("skip")
    case Some(data) => EventItem(MakeCursor(generation, row.num), Key(source, row.kind, row.subject), data)
  }

  // No routing key is the name of a control frame, so an event is never taken for one.
  lemma KeyIsNoControl(source: string, kind: string, subject: string)
    ensures Key(source, kind, subject) !in ["resync", "caught-up", "status"]
  {
    var key := Key(source, kind, subject);
    assert key[|source|] == ':';
    var names := ["resync", "caught-up", "status"];
    assert forall i :: 0 <= i < 6 ==> names[0][i] != ':';
    assert forall i :: 0 <= i < 9 ==> names[1][i] != ':';
    assert forall i :: 0 <= i < 6 ==> names[2][i] != ':';
  }

  // ---- The outbox -----------------------------------------------------------

  class Producer {
    var rows: seq<Row>
    var high: nat
    var generation: string
    const source: string
    const registry: set<string>
    const retentionDays: int
    const retentionRows: int

    function Contents(): Log
      reads this
    {
      Log(rows, high)
    }

    ghost predicate Valid()
      reads this
    {
      Contiguous(Contents()) && retentionRows >= 1
    }

    // New, over the database it is given and the generation that EnsureGeneration settled.
    constructor (log: Log, generation: string, source: string, registry: set<string>, days: int, maxRows: int)
      requires Contiguous(log)
      ensures Valid() && Contents() == log && this.generation == generation
      ensures this.source == source && this.registry == registry
      ensures retentionDays == RetentionDays(days) && retentionRows == RetentionRows(maxRows)
    {
      this.rows, this.high, this.generation := log.rows, log.high, generation;
      this.source, this.registry := source, registry;
      this.retentionDays, this.retentionRows := RetentionDays(days), RetentionRows(maxRows);
    }

    method Append(ev: Event, eventId: string, now: int) returns (r: AppendResult)
      requires Valid()
      modifies this
      ensures Valid() && generation == old(generation)
      ensures r == Admission(registry, old(Contents()), ev)
      ensures Contents() == if r == Appended then AfterAppend(old(Contents()), ev, eventId, now) else old(Contents())
    {
      if !ValidKind(ev.kind) {
        return Rejected(InvalidKind);
      }
      if !ValidSubject(ev.subject) {
        return Rejected(InvalidSubject);
      }
      if |registry| > 0 && ev.kind !in registry {
        return Rejected(UndeclaredKind);
      }
      if high + 1 >= INT64_LIMIT {
        return Rejected(LogFull);
      }
      AppendKeepsRun(Contents(), ev, eventId, now);
      high := high + 1;
      rows := rows + [Row(high, eventId, ev.kind, ev.subject, ev.payload, now)];
      return Appended;
    }

    method Trim(now: int)
      requires Valid()
      modifies this`rows
      ensures Valid() && Contents() == AfterTrim(old(Contents()), now, retentionDays, retentionRows)
    {
      TrimKeepsRun(Contents(), now, retentionDays, retentionRows);
      hide Above, MaxNum, OlderThan, Contiguous;
      var maxSeq := MaxNum(rows);
      if maxSeq == 0 {
        return;
      }
      var rowFloor := maxSeq - retentionRows;
      var timeFloor := MaxNum(OlderThan(rows, now - retentionDays * DAY));
      var floor := rowFloor;
      if timeFloor < floor {
        floor := timeFloor;
      }
      if floor <= 0 {
        return;
      }
      rows := Above(rows, floor);
    }

    // The rows behind afterSeq in order, up to the limit, and the position they lead to.
    method Fetch(afterSeq: int, limit: nat) returns (batch: seq<Row>, last: int)
      ensures batch == Fetched(rows, afterSeq, limit) && last == LastNum(batch, afterSeq)
    {
      hide Above;
      batch, last := [], afterSeq;
      var i := 0;
      assert rows[0..] == rows;
      NothingAbove(afterSeq);
      while i < |rows| && |batch| < limit
        invariant 0 <= i <= |rows| && |batch| <= limit
        invariant Above(rows, afterSeq) == batch + Above(rows[i..], afterSeq)
        invariant last == LastNum(batch, afterSeq)
      {
        AboveStep(rows, i, afterSeq);
        if rows[i].num > afterSeq {
          batch, last := batch + [rows[i]], rows[i].num;
        }
        i := i + 1;
      }
      assert i == |rows| ==> rows[i..] == [];
    }

    method HeadSeq() returns (head: int)
      requires Valid()
      ensures head == MaxNum(rows) == high
    {
      Bounds(Contents());
      head := MaxNum(rows);
    }

    method CheckCursor(cursor: string) returns (check: Check)
      ensures check == Checked(generation, Contents(), cursor)
    {
      var p := ParseCursor(cursor);
      if p.None? {
        return Resync(Unintelligible);
      }
      if p.value.generation != generation {
        return Resync(StaleEpoch);
      }
      var head := MaxNum(rows);
      if p.value.num > head {
        return Resync(Diverged);
      }
      var min := MinNum(rows);
      if min > 0 && p.value.num + 1 < min {
        return Resync(PastHorizon);
      }
      return Resume(p.value.num);
    }

    // The frames of one batch.
    method Write(batch: seq<Row>, marshal: Row -> Option<string>) returns (frames: seq<Item>)
      ensures frames == FramesOf(generation, source, marshal, batch)
    {
      hide FramesOf, EventFrame;
      frames := [];
      for i := 0 to |batch|
        invariant FramesOf(generation, source, marshal, batch) ==
                  frames + FramesOf(generation, source, marshal, batch[i..])
      {
        FramesOfStep(generation, source, marshal, batch, i);
        frames := frames + [EventFrame(generation, source, marshal, batch[i])];
      }
      FramesOfNothing(generation, source, marshal);
      assert batch[|batch|..] == [];
    }

    // The draining half of the stream loop: batch after batch until a fetch comes back empty. The
    // batch size cannot be seen in what is written.
    method Drain(startSeq: int, limit: nat, marshal: Row -> Option<string>) returns (frames: seq<Item>, last: int)
      requires Valid() && limit > 0 && 0 <= startSeq
      ensures frames == FramesOf(generation, source, marshal, Above(rows, startSeq))
      ensures last == if startSeq > high then startSeq else high
    {
      hide Above, Fetched, FramesOf, Contiguous, LastNum;
      frames, last := [], startSeq;
      var batch, next := Fetch(last, limit);
      while batch != []
        invariant startSeq <= last && (last > high ==> last == startSeq)
        invariant batch == Fetched(rows, last, limit) && next == LastNum(batch, last)
        invariant FramesOf(generation, source, marshal, Above(rows, startSeq)) ==
                  frames + FramesOf(generation, source, marshal, Above(rows, last))
        decreases high - last
      {
        BatchAdvances(Contents(), last, limit);
        AboveSplits(Contents(), last, limit);
        FramesOfConcat(generation, source, marshal, batch, Above(rows, next));
        var written := Write(batch, marshal);
        frames := frames + written;
        last := next;
        batch, next := Fetch(last, limit);
      }
      NothingBehindHead(Contents(), last, limit);
      FramesOfNothing(generation, source, marshal);
    }
  }

  lemma FramesOfStep(generation: string, source: string, marshal: Row -> Option<string>, rows: seq<Row>, i: nat)
    requires i < |rows|
    ensures FramesOf(generation, source, marshal, rows[i..]) ==
            [EventFrame(generation, source, marshal, rows[i])] + FramesOf(generation, source, marshal, rows[i + 1..])
  {
    hide EventFrame;
    assert rows[i..][1..] == rows[i + 1..];
  }

  lemma FramesOfNothing(generation: string, source: string, marshal: Row -> Option<string>)
    ensures FramesOf(generation, source, marshal, []) == []
  {
  }

  lemma BatchAdvances(log: Log, after: int, limit: nat)
    requires Contiguous(log) && 0 <= after && Fetched(log.rows, after, limit) != []
    ensures after < LastNum(Fetched(log.rows, after, limit), after) <= log.high
  {
    hide Fetched;
    FetchedIsRun(log, after, limit);
  }

  lemma NothingBehindHead(log: Log, after: int, limit: nat)
    requires Contiguous(log) && after >= 0 && limit > 0 && Fetched(log.rows, after, limit) == []
    ensures after >= log.high && Above(log.rows, after) == []
  {
    FetchedIsRun(log, after, limit);
    AboveOfRun(log.rows, log.high - |log.rows| + 1, after);
    hide Above;
  }

  function FramesOf(generation: string, source: string, marshal: Row -> Option<string>, rows: seq<Row>): seq<Item> {
    if rows == [] then []
    else [EventFrame(generation, source, marshal, rows[0])] + FramesOf(generation, source, marshal, rows[1..])
  }

  lemma {:induction false} FramesOfConcat(generation: string, source: string, marshal: Row -> Option<string>, a: seq<Row>,
          b: seq<Row>)
    ensures FramesOf(generation, source, marshal, a + b) ==
            FramesOf(generation, source, marshal, a) + FramesOf(generation, source, marshal, b)
  {
    hide EventFrame;
    if a == [] {
      assert a + b == b;
    } else {
      FramesOfConcat(generation, source, marshal, a[1..], b);
      assert (a + b)[1..] == a[1..] + b && (a + b)[0] == a[0];
      var head := [EventFrame(generation, source, marshal, a[0])];
      var fa, fb := FramesOf(generation, source, marshal, a[1..]), FramesOf(generation, source, marshal, b);
      assert head + (fa + fb) == (head + fa) + fb;
    }
  }

  lemma AboveIsSuffix(log: Log, after: int)
    requires Contiguous(log)
    ensures |Above(log.rows, after)| <= |log.rows| && Above(log.rows, after) == log.rows[|log.rows| - |Above(log.rows, after)|..]
  {
    AboveOfRun(log.rows, log.high - |log.rows| + 1, after);
    hide Above;
  }

  lemma AboveRow(log: Log, i: nat)
    requires Contiguous(log) && i < |log.rows|
    ensures Above(log.rows, log.rows[i].num) == log.rows[i + 1..]
  {
    AboveOfRun(log.rows, log.high - |log.rows| + 1, log.rows[i].num);
    hide Above;
  }

  // What is left behind a batch is what a fetch from its last row on would see.
  lemma AboveSplits(log: Log, after: int, limit: nat)
    requires Contiguous(log)
    ensures var batch := Fetched(log.rows, after, limit);
            Above(log.rows, after) == batch + Above(log.rows, LastNum(batch, after))
  {
    hide Above, Contiguous;
    AboveIsSuffix(log, after);
    var batch := Fetched(log.rows, after, limit);
    var k := |log.rows| - |Above(log.rows, after)|;
    if batch != [] {
      assert batch == log.rows[k..k + |batch|];
      AboveRow(log, k + |batch| - 1);
    }
  }
}
