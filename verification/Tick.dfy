/** The crontab and its tick worker (cron/internal/crontab/store.go, cron/internal/tick/tick.go). Times
    are milliseconds. */
module Tick {
  import opened Numeric
  import opened Cron

  // ---- Tables ---------------------------------------------------------------

  // A schedule; birth tells the incarnations of a name apart and is read by no one.
  datatype Entry = Entry(expr: string, lastSlot: Option<int>, birth: nat)

  // A tick event in the outbox, with the birth of the row it was for.
  datatype TickEvent = TickEvent(name: string, slot: int, firedAt: int, birth: nat)

  datatype Table = Table(rows: map<string, Entry>, events: seq<TickEvent>, births: nat)

  const NEW := Table(map[], [], 0)

  // The calendar of a time in UTC, and the order in which names are listed.
  datatype Config = Config(calendar: int -> Moment, listed: set<string> -> seq<string>)

  const MINUTE_MS := 60_000

  // Slot
  function Slot(t: int): (s: int)
    ensures s <= t < s + MINUTE_MS && s % MINUTE_MS == 0
  {
    t - t % MINUTE_MS
  }

  // ---- Statements -----------------------------------------------------------

  function Created(s: Table, name: string, expr: string): Table {
    if name in s.rows then s
    else s.(rows := s.rows[name := Entry(expr, None, s.births)], births := s.births + 1)
  }

  // An update leaves the slot alone.
  function Updated(s: Table, name: string, expr: string): Table {
    if name in s.rows then s.(rows := s.rows[name := s.rows[name].(expr := expr)]) else s
  }

  function Deleted(s: Table, name: string): Table {
    s.(rows := s.rows - {name})
  }

  // fireOne: the guarded update and the event commit together or not at all.
  function FiredOne(s: Table, name: string, slot: int, firedAt: int, works: bool): Table {
    if !works || name !in s.rows || s.rows[name].lastSlot == Some(slot) then s
    else s.(rows := s.rows[name := s.rows[name].(lastSlot := Some(slot))],
            events := s.events + [TickEvent(name, slot, firedAt, s.rows[name].birth)])
  }

  // ---- Fire -----------------------------------------------------------------

  // Whether an entry, as it was listed, is due.
  predicate Due(cfg: Config, e: Entry, slot: int) {
    !(e.lastSlot.Some? && Slot(e.lastSlot.value) == slot) &&
    ParsedOf(e.expr).Compiled? && Matches(ParsedOf(e.expr).schedule, cfg.calendar(slot))
  }

  datatype Outcome = Outcome(table: Table, fired: nat, ok: bool)

  // The scan over the listed entries; works says which transactions succeed. It stops at the first
  // that does not.
  function Scanned(cfg: Config, s: Table, names: seq<string>, listing: map<string, Entry>, slot: int, firedAt: int,
          works: string -> bool): Outcome
    requires forall n :: n in names ==> n in listing
    decreases |names|
  {
    if names == [] then Outcome(s, 0, true)
    else
      var before := Scanned(cfg, s, names[..|names| - 1], listing, slot, firedAt, works);
      var name := names[|names| - 1];
      if !before.ok || !Due(cfg, listing[name], slot) then before
      else Outcome(FiredOne(before.table, name, slot, firedAt, works(name)), before.fired + if works(name) then 1 else 0, works(name))
  }

  class Worker {
    const cfg: Config
    var rows: map<string, Entry>
    var events: seq<TickEvent>
    var births: nat

    function State(): Table
      reads this
    {
      Table(rows, events, births)
    }

    constructor (cfg: Config, s: Table)
      ensures this.cfg == cfg && State() == s
    {
      this.cfg := cfg;
      rows, events, births := s.rows, s.events, s.births;
    }

    // Reports whether the name was free.
    method Create(name: string, expr: string) returns (ok: bool)
      modifies this
      ensures ok == (name !in old(rows)) && State() == Created(old(State()), name, expr)
    {
      if name in rows {
        return false;
      }
      rows, births := rows[name := Entry(expr, None, births)], births + 1;
      return true;
    }

    method Update(name: string, expr: string) returns (found: bool)
      modifies this`rows
      ensures found == (name in old(rows)) && State() == Updated(old(State()), name, expr)
    {
      if name !in rows {
        return false;
      }
      rows := rows[name := rows[name].(expr := expr)];
      return true;
    }

    method Delete(name: string) returns (found: bool)
      modifies this`rows
      ensures found == (name in old(rows)) && State() == Deleted(old(State()), name)
    {
      found := name in rows;
      rows := rows - {name};
    }

    method FireOne(name: string, slot: int, firedAt: int, works: bool) returns (ok: bool)
      modifies this`rows, this`events
      ensures ok == works && State() == FiredOne(old(State()), name, slot, firedAt, works)
    {
      if !works {
        return false;
      }
      if name !in rows || !(rows[name].lastSlot.None? || rows[name].lastSlot.value != slot) {
        return true;
      }
      var e := rows[name];
      rows := rows[name := e.(lastSlot := Some(slot))];
      events := events + [TickEvent(name, slot, firedAt, e.birth)];
      return true;
    }

    method Fire(at: int, firedAt: int, works: string -> bool) returns (fired: nat, ok: bool)
      requires forall n :: n in cfg.listed(rows.Keys) <==> n in rows
      modifies this`rows, this`events
      ensures Outcome(State(), fired, ok) == Scanned(cfg, old(State()), cfg.listed(old(rows.Keys)), old(rows), Slot(at), firedAt, works)
    {
      hide Due, FiredOne;
      var slot := Slot(at);
      var listing := rows;
      var names := cfg.listed(rows.Keys);
      fired, ok := 0, true;
      for i := 0 to |names|
        invariant ok && births == old(births)
        invariant Outcome(State(), fired, ok) == Scanned(cfg, old(State()), names[..i], listing, slot, firedAt, works)
      {
        assert names[..i + 1][..i] == names[..i];
        if Due(cfg, listing[names[i]], slot) {
          ok := FireOne(names[i], slot, firedAt, works(names[i]));
          if !ok {
            StopsAt(cfg, old(State()), names, i + 1, listing, slot, firedAt, works);
            return;
          }
          fired := fired + 1;
        }
      }
      assert names[..|names|] == names;
    }
  }

  lemma {:induction false} StopsAt(cfg: Config, s: Table, names: seq<string>, i: nat, listing: map<string, Entry>,
          slot: int, firedAt: int, works: string -> bool)
    requires i <= |names| && forall n :: n in names ==> n in listing
    requires !Scanned(cfg, s, names[..i], listing, slot, firedAt, works).ok
    ensures Scanned(cfg, s, names, listing, slot, firedAt, works) == Scanned(cfg, s, names[..i], listing, slot, firedAt, works)
    decreases |names|
  {
    hide Due, FiredOne;
    if i < |names| {
      assert names[..|names| - 1][..i] == names[..i];
      StopsAt(cfg, s, names[..|names| - 1], i, listing, slot, firedAt, works);
    } else {
      assert names[..i] == names;
    }
  }

  // ---- Runs -----------------------------------------------------------------

  // What happens to the tables, one statement at a time: edits, and the transactions of fires that
  // may be interleaved with edits and cut short by crashes.
  datatype Action =
    | DoCreate(name: string, expr: string)
    | DoUpdate(name: string, expr: string)
    | DoDelete(name: string)
    | DoFireOne(name: string, slot: int, firedAt: int, works: bool)

  function Applied(s: Table, a: Action): Table {
    match a
    case DoCreate(name, expr) => Created(s, name, expr)
    case DoUpdate(name, expr) => Updated(s, name, expr)
    case DoDelete(name) => Deleted(s, name)
    case DoFireOne(name, slot, firedAt, works) => FiredOne(s, name, slot, firedAt, works)
  }

  function Run(s: Table, actions: seq<Action>): Table
    decreases |actions|
  {
    if actions == [] then s else Applied(Run(s, actions[..|actions| - 1]), actions[|actions| - 1])
  }

  // The slots of the transactions of fires, in order.
  function SlotsOf(actions: seq<Action>): seq<int> {
    if actions == [] then []
    else
      var a := actions[|actions| - 1];
      SlotsOf(actions[..|actions| - 1]) + if a.DoFireOne? then [a.slot] else []
  }

  predicate NeverBack(slots: seq<int>) {
    forall i, j :: 0 <= i < j < |slots| ==> slots[i] <= slots[j]
  }

  // A slot comes again after a different one.
  predicate Recurs(slots: seq<int>) {
    exists i, j, k :: 0 <= i < j < k < |slots| && slots[i] == slots[k] && slots[j] != slots[k]
  }

  // A fire is a run of such transactions, all at its slot.
  lemma {:induction false} FireIsRun(cfg: Config, s: Table, names: seq<string>, listing: map<string, Entry>,
          slot: int, firedAt: int, works: string -> bool)
    returns (actions: seq<Action>)
    requires forall n :: n in names ==> n in listing
    ensures Scanned(cfg, s, names, listing, slot, firedAt, works).table == Run(s, actions)
    ensures forall a :: a in actions ==> a.DoFireOne? && a.slot == slot
    decreases |names|
  {
    hide Due, FiredOne;
    if names == [] {
      actions := [];
    } else {
      var front := FireIsRun(cfg, s, names[..|names| - 1], listing, slot, firedAt, works);
      var name := names[|names| - 1];
      if Scanned(cfg, s, names[..|names| - 1], listing, slot, firedAt, works).ok && Due(cfg, listing[name], slot) {
        actions := front + [DoFireOne(name, slot, firedAt, works(name))];
        assert actions[..|actions| - 1] == front;
      } else {
        actions := front;
      }
    }
  }

  // ---- At most once ---------------------------------------------------------

  // The slot of the last event for a row.
  function LatestSlot(events: seq<TickEvent>, birth: nat): Option<int> {
    if events == [] then None
    else if events[|events| - 1].birth == birth then Some(events[|events| - 1].slot)
    else LatestSlot(events[..|events| - 1], birth)
  }

  predicate Increasing(events: seq<TickEvent>) {
    forall i, j :: 0 <= i < j < |events| && events[i].birth == events[j].birth ==> events[i].slot < events[j].slot
  }

  ghost predicate Inv(s: Table, clock: int) {
    Increasing(s.events) &&
    (forall i :: 0 <= i < |s.events| ==> s.events[i].slot <= clock && s.events[i].birth < s.births) &&
    (forall name :: name in s.rows ==> s.rows[name].birth < s.births && s.rows[name].lastSlot == LatestSlot(s.events, s.rows[name].birth)) &&
    (forall a, b :: a in s.rows && b in s.rows && s.rows[a].birth == s.rows[b].birth ==> a == b)
  }

  lemma {:induction false} LatestIsLatest(events: seq<TickEvent>, birth: nat)
    requires Increasing(events)
    ensures forall i :: 0 <= i < |events| && events[i].birth == birth ==>
              LatestSlot(events, birth).Some? && events[i].slot <= LatestSlot(events, birth).value
    ensures LatestSlot(events, birth).Some? ==> exists i :: 0 <= i < |events| && events[i].birth == birth && events[i].slot == LatestSlot(events, birth).value
  {
    if events != [] {
      LatestIsLatest(events[..|events| - 1], birth);
    }
  }

  lemma NoneYet(events: seq<TickEvent>, birth: nat)
    requires Increasing(events) && forall i :: 0 <= i < |events| ==> events[i].birth < birth
    ensures LatestSlot(events, birth) == None
  {
    LatestIsLatest(events, birth);
    hide LatestSlot;
  }

  lemma Appended(events: seq<TickEvent>, e: TickEvent, birth: nat)
    ensures LatestSlot(events + [e], birth) == if e.birth == birth then Some(e.slot) else LatestSlot(events, birth)
  {
    assert (events + [e])[..|events|] == events;
  }

  lemma FireOneKeeps(s: Table, clock: int, name: string, slot: int, firedAt: int)
    requires Inv(s, clock) && clock <= slot
    ensures Inv(FiredOne(s, name, slot, firedAt, true), slot)
  {
    hide LatestSlot;
    var t := FiredOne(s, name, slot, firedAt, true);
    if t != s {
      var e := TickEvent(name, slot, firedAt, s.rows[name].birth);
      LatestIsLatest(s.events, e.birth);
      forall birth: nat
        ensures LatestSlot(t.events, birth) == if e.birth == birth then Some(slot) else LatestSlot(s.events, birth)
      {
        Appended(s.events, e, birth);
      }
    }
  }

  lemma EditKeeps(s: Table, clock: int, a: Action)
    requires Inv(s, clock) && !a.DoFireOne?
    ensures Inv(Applied(s, a), clock)
  {
    hide LatestSlot;
    if a.DoCreate? {
      NoneYet(s.events, s.births);
    }
  }

  // The slot of the latest fire in a run.
  function Clock(slots: seq<int>, start: int): int {
    if slots == [] then start else slots[|slots| - 1]
  }

  lemma Later(s: Table, clock: int, slot: int)
    requires Inv(s, clock) && clock <= slot
    ensures Inv(s, slot)
  {
    hide LatestSlot, Increasing;
  }

  // At most one tick per schedule and minute: over every run whose slots never go back, with edits,
  // restarts and crashes anywhere, the events of one row have strictly increasing slots, and its
  // last slot is that of the latest of them.
  lemma {:induction false} AtMostOnePerSlot(actions: seq<Action>, start: int)
    requires NeverBack(SlotsOf(actions)) && forall i :: 0 <= i < |SlotsOf(actions)| ==> start <= SlotsOf(actions)[i]
    ensures Inv(Run(NEW, actions), Clock(SlotsOf(actions), start))
    decreases |actions|
  {
    hide Inv, FiredOne, Created, Updated, Deleted;
    if actions == [] {
      NewIsOk(start);
    } else {
      var front, a := actions[..|actions| - 1], actions[|actions| - 1];
      var slots, all := SlotsOf(front), SlotsOf(actions);
      assert forall i :: 0 <= i < |slots| ==> slots[i] == all[i];
      AtMostOnePerSlot(front, start);
      if a.DoFireOne? {
        assert all[|slots|] == a.slot;
        if a.works {
          FireOneKeeps(Run(NEW, front), Clock(slots, start), a.name, a.slot, a.firedAt);
        } else {
          NothingFired(Run(NEW, front), a);
          Later(Run(NEW, front), Clock(slots, start), a.slot);
        }
      } else {
        EditKeeps(Run(NEW, front), Clock(slots, start), a);
      }
    }
  }

  lemma NothingFired(s: Table, a: Action)
    requires a.DoFireOne? && !a.works
    ensures Applied(s, a) == s
  {
  }

  lemma NewIsOk(start: int)
    ensures Inv(NEW, start)
  {
  }

  // ---- Exactly which sequences of slots -------------------------------------

  predicate NoneTwice(events: seq<TickEvent>) {
    forall i, j :: 0 <= i < j < |events| && events[i].birth == events[j].birth ==> events[i].slot != events[j].slot
  }

  // Two slots occur in this order.
  predicate InOrder(slots: seq<int>, x: int, y: int) {
    exists i, j :: 0 <= i < j < |slots| && slots[i] == x && slots[j] == y
  }

  // The events tell slots of the fires in the order of the fires, none twice for a row, and a row's
  // last slot is that of its latest event.
  ghost predicate Follows(s: Table, slots: seq<int>) {
    NoneTwice(s.events) &&
    (forall i :: 0 <= i < |s.events| ==> s.events[i].slot in slots && s.events[i].birth < s.births) &&
    (forall i, j :: 0 <= i < j < |s.events| && s.events[i].slot != s.events[j].slot ==> InOrder(slots, s.events[i].slot, s.events[j].slot)) &&
    (forall name :: name in s.rows ==> s.rows[name].birth < s.births && s.rows[name].lastSlot == LatestSlot(s.events, s.rows[name].birth)) &&
    (forall a, b :: a in s.rows && b in s.rows && s.rows[a].birth == s.rows[b].birth ==> a == b)
  }

  // The latest event of a row stands at some place, and no other of its events behind it.
  lemma {:induction false} LatestIsLast(events: seq<TickEvent>, birth: nat) returns (at: nat)
    ensures LatestSlot(events, birth).Some? ==> at < |events| && events[at].birth == birth && LatestSlot(events, birth) == Some(events[at].slot)
    ensures LatestSlot(events, birth).Some? ==> forall i :: at < i < |events| ==> events[i].birth != birth
    ensures LatestSlot(events, birth).None? ==> forall i :: 0 <= i < |events| ==> events[i].birth != birth
  {
    at := 0;
    if events != [] {
      if events[|events| - 1].birth == birth {
        at := |events| - 1;
      } else {
        at := LatestIsLast(events[..|events| - 1], birth);
      }
    }
  }

  lemma OrderStays(slots: seq<int>, x: int, y: int, slot: int)
    ensures InOrder(slots, x, y) ==> InOrder(slots + [slot], x, y)
    ensures x in slots ==> InOrder(slots + [slot], x, slot)
  {
    var all := slots + [slot];
    if InOrder(slots, x, y) {
      var i, j :| 0 <= i < j < |slots| && slots[i] == x && slots[j] == y;
      assert all[i] == x && all[j] == y;
    }
    if x in slots {
      var i :| 0 <= i < |slots| && slots[i] == x;
      assert all[i] == x && all[|slots|] == slot;
    }
  }

  // The slots in between would make the slot recur.
  lemma NotAgain(events: seq<TickEvent>, slots: seq<int>, birth: nat, slot: int, i: nat)
    requires forall m, n :: 0 <= m < n < |events| && events[m].slot != events[n].slot ==> InOrder(slots, events[m].slot, events[n].slot)
    requires LatestSlot(events, birth) != Some(slot) && i < |events| && events[i].birth == birth && events[i].slot == slot
    ensures Recurs(slots + [slot])
  {
    var at := LatestIsLast(events, birth);
    hide LatestSlot;
    var other := events[at].slot;
    assert at != i && i < at;
    var m, n :| 0 <= m < n < |slots| && slots[m] == slot && slots[n] == other;
    var all := slots + [slot];
    assert all[m] == slot && all[n] == other && all[|slots|] == slot;
  }

  lemma FireFollows(s: Table, slots: seq<int>, name: string, slot: int, firedAt: int, works: bool)
    requires Follows(s, slots) && !Recurs(slots + [slot])
    ensures Follows(FiredOne(s, name, slot, firedAt, works), slots + [slot])
  {
    hide LatestSlot, InOrder, Recurs;
    forall x, y
      ensures InOrder(slots, x, y) ==> InOrder(slots + [slot], x, y)
      ensures x in slots ==> InOrder(slots + [slot], x, slot)
    {
      OrderStays(slots, x, y, slot);
    }
    var t := FiredOne(s, name, slot, firedAt, works);
    if t != s {
      var e := TickEvent(name, slot, firedAt, s.rows[name].birth);
      forall i | 0 <= i < |s.events| && s.events[i].birth == e.birth
        ensures s.events[i].slot != slot
      {
        if s.events[i].slot == slot {
          NotAgain(s.events, slots, e.birth, slot, i);
        }
      }
      forall birth: nat
        ensures LatestSlot(t.events, birth) == if e.birth == birth then Some(slot) else LatestSlot(s.events, birth)
      {
        Appended(s.events, e, birth);
      }
    }
  }

  lemma EditFollows(s: Table, slots: seq<int>, a: Action)
    requires Follows(s, slots) && !a.DoFireOne?
    ensures Follows(Applied(s, a), slots)
  {
    hide InOrder, NoneTwice;
    if a.DoCreate? {
      var at := LatestIsLast(s.events, s.births);
    }
    hide LatestSlot;
  }

  lemma {:induction false} RunFollows(actions: seq<Action>)
    requires !Recurs(SlotsOf(actions))
    ensures Follows(Run(NEW, actions), SlotsOf(actions))
    decreases |actions|
  {
    hide Follows, FiredOne, Created, Updated, Deleted, Recurs;
    if actions == [] {
      NewFollows();
    } else {
      var front, a := actions[..|actions| - 1], actions[|actions| - 1];
      if a.DoFireOne? {
        RecursStays(SlotsOf(front), a.slot);
        RunFollows(front);
        FireFollows(Run(NEW, front), SlotsOf(front), a.name, a.slot, a.firedAt, a.works);
      } else {
        assert SlotsOf(front) + [] == SlotsOf(front);
        RunFollows(front);
        EditFollows(Run(NEW, front), SlotsOf(front), a);
      }
    }
  }

  lemma NewFollows()
    ensures Follows(NEW, [])
  {
  }

  lemma RecursStays(slots: seq<int>, slot: int)
    ensures Recurs(slots) ==> Recurs(slots + [slot])
  {
    if Recurs(slots) {
      var i, j, k :| 0 <= i < j < k < |slots| && slots[i] == slots[k] && slots[j] != slots[k];
      var all := slots + [slot];
      assert all[i] == slots[i] && all[j] == slots[j] && all[k] == slots[k];
    }
  }

  // ---- One row that is fired at every slot ----------------------------------

  const ROW := "a"

  function Steady(slots: seq<int>): seq<Action> {
    if slots == [] then [DoCreate(ROW, "* * * * *")]
    else Steady(slots[..|slots| - 1]) + [DoFireOne(ROW, slots[|slots| - 1], 0, true)]
  }

  // Its events: the slots, without those that repeat the one before.
  function Told(slots: seq<int>): seq<TickEvent> {
    if slots == [] then []
    else
      var n := |slots| - 1;
      if n > 0 && slots[n - 1] == slots[n] then Told(slots[..n]) else Told(slots[..n]) + [TickEvent(ROW, slots[n], 0, 0)]
  }

  function OneRow(last: Option<int>, events: seq<TickEvent>): Table {
    Table(map[ROW := Entry("* * * * *", last, 0)], events, 1)
  }

  function LastOf(slots: seq<int>): Option<int> {
    if slots == [] then None else Some(slots[|slots| - 1])
  }

  lemma {:induction false} SteadyTells(slots: seq<int>)
    ensures SlotsOf(Steady(slots)) == slots
    ensures Run(NEW, Steady(slots)) == OneRow(LastOf(slots), Told(slots))
    decreases |slots|
  {
    hide Told, SlotsOf, Run, Applied, OneRow;
    if slots == [] {
      SteadyBegins();
    } else {
      var n := |slots| - 1;
      SteadyTells(slots[..n]);
      OneMoreFire(Steady(slots[..n]), DoFireOne(ROW, slots[n], 0, true));
      ToldStep(slots);
      RowFires(LastOf(slots[..n]), Told(slots[..n]), slots[n]);
      hide Steady;
      assert slots == slots[..n] + [slots[n]];
    }
  }

  lemma SteadyBegins()
    ensures Run(NEW, Steady([])) == OneRow(None, Told([])) && SlotsOf(Steady([])) == []
  {
    var actions := Steady([]);
    assert actions[..0] == [];
    assert Run(NEW, actions) == Applied(NEW, DoCreate(ROW, "* * * * *"));
  }

  lemma RowFires(last: Option<int>, events: seq<TickEvent>, slot: int)
    ensures Applied(OneRow(last, events), DoFireOne(ROW, slot, 0, true)) ==
            if last == Some(slot) then OneRow(last, events) else OneRow(Some(slot), events + [TickEvent(ROW, slot, 0, 0)])
  {
  }

  function ToldBehind(slots: seq<int>): seq<TickEvent>
    requires slots != []
  {
    var n := |slots| - 1;
    if n > 0 && slots[n - 1] == slots[n] then Told(slots[..n]) else Told(slots[..n]) + [TickEvent(ROW, slots[n], 0, 0)]
  }

  lemma ToldStep(slots: seq<int>)
    requires slots != []
    ensures Told(slots) == ToldBehind(slots)
  {
  }

  lemma OneMoreFire(actions: seq<Action>, fire: Action)
    requires fire.DoFireOne?
    ensures Run(NEW, actions + [fire]) == Applied(Run(NEW, actions), fire)
    ensures SlotsOf(actions + [fire]) == SlotsOf(actions) + [fire.slot]
  {
    hide Applied;
    assert (actions + [fire])[..|actions|] == actions;
  }

  lemma {:induction false} ToldHas(slots: seq<int>, i: nat)
    requires i < |slots|
    ensures TickEvent(ROW, slots[i], 0, 0) in Told(slots)
    ensures Told(slots) != [] && Told(slots)[|Told(slots)| - 1] == TickEvent(ROW, slots[|slots| - 1], 0, 0)
    decreases |slots|
  {
    var n := |slots| - 1;
    if n > 0 {
      ToldHas(slots[..n], if i < n then i else n - 1);
    }
  }

  lemma {:induction false} ToldGrows(slots: seq<int>, k: nat)
    requires k <= |slots|
    ensures Told(slots[..k]) <= Told(slots)
    decreases |slots|
  {
    if k < |slots| {
      assert slots[..|slots| - 1][..k] == slots[..k];
      ToldGrows(slots[..|slots| - 1], k);
    } else {
      assert slots[..k] == slots;
    }
  }

  // Where a slot recurs there is a place where it comes right behind a different one.
  lemma {:induction false} RecursAdjacent(slots: seq<int>, i: nat, j: nat, k: nat) returns (m: nat)
    requires i < j < k < |slots| && slots[i] == slots[k] && slots[j] != slots[k]
    ensures i < m < k && slots[m] != slots[k] && slots[m + 1] == slots[k]
    decreases k - j
  {
    if slots[j + 1] == slots[k] {
      m := j;
    } else {
      m := RecursAdjacent(slots, i, j + 1, k);
    }
  }

  // A slot that comes right behind a different one is told behind what was told before.
  lemma ToldAfresh(slots: seq<int>, m: nat)
    requires m + 1 < |slots| && slots[m] != slots[m + 1]
    ensures Told(slots[..m + 1]) + [TickEvent(ROW, slots[m + 1], 0, 0)] <= Told(slots)
  {
    ToldStep(slots[..m + 2]);
    hide Told;
    assert slots[..m + 2][..m + 1] == slots[..m + 1];
    ToldGrows(slots, m + 2);
  }

  lemma RecurringTwice(slots: seq<int>)
    requires Recurs(slots)
    ensures !NoneTwice(Told(slots))
  {
    hide Told;
    var i, j, k :| 0 <= i < j < k < |slots| && slots[i] == slots[k] && slots[j] != slots[k];
    var m := RecursAdjacent(slots, i, j, k);
    var e := TickEvent(ROW, slots[k], 0, 0);
    ToldHas(slots[..m + 1], i);
    ToldAfresh(slots, m);
    TwiceIn(Told(slots[..m + 1]), e, Told(slots));
  }

  lemma TwiceIn(front: seq<TickEvent>, e: TickEvent, all: seq<TickEvent>)
    requires e in front && front + [e] <= all
    ensures !NoneTwice(all)
  {
    var x :| 0 <= x < |front| && front[x] == e;
    assert all[x] == (front + [e])[x] && all[|front|] == (front + [e])[|front|];
  }

  lemma {:induction false} BackAdjacent(slots: seq<int>, i: nat, j: nat) returns (m: nat)
    requires i < j < |slots| && slots[i] > slots[j]
    ensures m + 1 < |slots| && slots[m] > slots[m + 1]
    decreases j - i
  {
    if slots[i] > slots[i + 1] {
      m := i;
    } else {
      m := BackAdjacent(slots, i + 1, j);
    }
  }

  lemma BackDecreases(slots: seq<int>)
    requires !NeverBack(slots)
    ensures !Increasing(Told(slots))
  {
    hide Told;
    var i, j :| 0 <= i < j < |slots| && slots[i] > slots[j];
    var m := BackAdjacent(slots, i, j);
    var before := Told(slots[..m + 1]);
    ToldHas(slots[..m + 1], m);
    ToldAfresh(slots, m);
    var y := |before|;
    assert Told(slots)[y - 1] == (before + [TickEvent(ROW, slots[m + 1], 0, 0)])[y - 1];
    assert Told(slots)[y] == (before + [TickEvent(ROW, slots[m + 1], 0, 0)])[y];
  }

  // No run with these slots tells one minute of one row twice exactly when no slot recurs after a
  // different one: the last slot of a row holds off a repetition, and nothing older.
  lemma NoneTwiceExactly(slots: seq<int>)
    ensures (forall actions :: SlotsOf(actions) == slots ==> NoneTwice(Run(NEW, actions).events)) <==> !Recurs(slots)
  {
    hide Run, SlotsOf, Recurs, NoneTwice, Told, Steady;
    if Recurs(slots) {
      RecurringTwice(slots);
      SteadyTells(slots);
    } else {
      forall actions | SlotsOf(actions) == slots
        ensures NoneTwice(Run(NEW, actions).events)
      {
        RunFollows(actions);
      }
    }
  }

  // Every run with these slots tells them in strictly increasing order for each row exactly when the
  // slots never go back.
  lemma IncreasingExactly(slots: seq<int>)
    ensures (forall actions :: SlotsOf(actions) == slots ==> Increasing(Run(NEW, actions).events)) <==> NeverBack(slots)
  {
    hide Run, SlotsOf, Increasing, Told, Steady;
    if NeverBack(slots) {
      forall actions | SlotsOf(actions) == slots
        ensures Increasing(Run(NEW, actions).events)
      {
        AtMostOnePerSlot(actions, if slots == [] then 0 else slots[0]);
      }
    } else {
      BackDecreases(slots);
      SteadyTells(slots);
    }
  }

  // The shortest case: a clock that goes back a minute and forth again.
  lemma ClockBackRepeats()
    ensures Told([60_000, 0, 60_000]) == [TickEvent(ROW, 60_000, 0, 0), TickEvent(ROW, 0, 0, 0), TickEvent(ROW, 60_000, 0, 0)]
    ensures Run(NEW, Steady([60_000, 0, 60_000])).events == Told([60_000, 0, 60_000])
  {
    hide Steady, Run, SlotsOf;
    var slots := [60_000, 0, 60_000];
    SteadyTells(slots);
    assert slots[..2][..1] == slots[..1] && slots[..1][..0] == [];
    assert Told(slots[..1]) == [TickEvent(ROW, 60_000, 0, 0)];
    assert Told(slots[..2]) == Told(slots[..1]) + [TickEvent(ROW, 0, 0, 0)];
  }

  // ---- A fire that completes ------------------------------------------------

  // The due rows of a listing are at the slot and have their event.
  lemma {:induction false} ScanCovers(cfg: Config, s: Table, names: seq<string>, slot: int, firedAt: int,
          works: string -> bool, name: string)
    requires (forall n :: n in names ==> n in s.rows) && name in names && Due(cfg, s.rows[name], slot)
    requires Scanned(cfg, s, names, s.rows, slot, firedAt, works).ok && s.rows[name].lastSlot != Some(slot)
    requires forall i, j :: 0 <= i < j < |names| ==> names[i] != names[j]
    ensures var t := Scanned(cfg, s, names, s.rows, slot, firedAt, works).table;
            name in t.rows && t.rows[name] == s.rows[name].(lastSlot := Some(slot)) &&
            TickEvent(name, slot, firedAt, s.rows[name].birth) in t.events
    decreases |names|
  {
    hide Due;
    var front, last := names[..|names| - 1], names[|names| - 1];
    var before := Scanned(cfg, s, front, s.rows, slot, firedAt, works);
    assert names == front + [last];
    if name == last {
      Untouched(cfg, s, front, slot, firedAt, works, name);
    } else {
      ScanCovers(cfg, s, front, slot, firedAt, works, name);
    }
  }

  lemma {:induction false} Untouched(cfg: Config, s: Table, names: seq<string>, slot: int, firedAt: int,
          works: string -> bool, name: string)
    requires (forall n :: n in names ==> n in s.rows) && name !in names
    ensures var t := Scanned(cfg, s, names, s.rows, slot, firedAt, works).table;
            (name in t.rows <==> name in s.rows) && (name in s.rows ==> t.rows[name] == s.rows[name])
    decreases |names|
  {
    hide Due;
    if names != [] {
      assert names == names[..|names| - 1] + [names[|names| - 1]];
      Untouched(cfg, s, names[..|names| - 1], slot, firedAt, works, name);
    }
  }

  ghost predicate Lists(cfg: Config, names: set<string>) {
    var listed := cfg.listed(names);
    (forall n :: n in listed <==> n in names) && (forall i, j :: 0 <= i < j < |listed| ==> listed[i] != listed[j])
  }

  predicate HasFired(t: Table, name: string, slot: int, firedAt: int, birth: nat) {
    name in t.rows && t.rows[name].lastSlot == Some(slot) && TickEvent(name, slot, firedAt, birth) in t.events
  }

  // A fire that ends without an error has emitted for every row that parses, matches and was not at
  // the slot already.
  lemma FireIsComplete(cfg: Config, s: Table, at: int, firedAt: int, works: string -> bool)
    requires Lists(cfg, s.rows.Keys)
    ensures var end := Scanned(cfg, s, cfg.listed(s.rows.Keys), s.rows, Slot(at), firedAt, works);
            end.ok ==> forall name :: name in s.rows && Due(cfg, s.rows[name], Slot(at)) ==>
              HasFired(end.table, name, Slot(at), firedAt, s.rows[name].birth)
  {
    var end := Scanned(cfg, s, cfg.listed(s.rows.Keys), s.rows, Slot(at), firedAt, works);
    if end.ok {
      forall name | name in s.rows && Due(cfg, s.rows[name], Slot(at))
        ensures HasFired(end.table, name, Slot(at), firedAt, s.rows[name].birth)
      {
        SlotOfSlot(at);
        DueIsNotAt(cfg, s.rows[name], Slot(at));
        hide Due, Scanned;
        ScanCovers(cfg, s, cfg.listed(s.rows.Keys), Slot(at), firedAt, works, name);
      }
    }
  }

  lemma DueIsNotAt(cfg: Config, e: Entry, slot: int)
    requires Due(cfg, e, slot) && Slot(slot) == slot
    ensures e.lastSlot != Some(slot)
  {
  }

  lemma SlotOfSlot(at: int)
    ensures Slot(Slot(at)) == Slot(at)
  {
  }
}
