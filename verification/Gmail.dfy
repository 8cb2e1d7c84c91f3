/** The Gmail poller: it drains the mailbox history into mail events and commits them with the history
    cursor in one transaction (gmail/internal/gmail/sync.go, store.go). */
module Gmail {
  import opened Numeric
  import opened Cursor

  // ---- The mailbox ----------------------------------------------------------

  datatype Message = Message(id: string, thread: string, labels: seq<string>, from: string, to: string, subject: string, snippet: string)

  // messages.get: a message, one that is gone, or an error.
  datatype Fetch = Found(m: Message) | Gone | Broken

  datatype Labeled = Labeled(id: string, labels: seq<string>)

  // A history record: the messages added, and the labels added to messages.
  datatype Record = Record(added: seq<string>, labeled: seq<Labeled>)

  // One page of history.list, or the way it failed.
  datatype Listing = Page(records: seq<Record>, historyId: string) | ListNotFound | ListError

  const INBOX := "INBOX"
  const SENT := "SENT"
  const TRASH := "TRASH"

  datatype Kind = Received | Sent | Deleted

  datatype MailEvent = MailEvent(kind: Kind, id: string, thread: string, from: string, to: string, subject: string, snippet: string)

  // ---- Deriving events ------------------------------------------------------

  // The two rules are independent: a message to oneself is both sent and received.
  function DeriveAdded(m: Message): seq<MailEvent> {
    (if SENT in m.labels then [MailEvent(Sent, m.id, m.thread, "", m.to, m.subject, m.snippet)] else []) +
    (if INBOX in m.labels then [MailEvent(Received, m.id, m.thread, m.from, "", m.subject, m.snippet)] else [])
  }

  function DeriveDeleted(m: Message): MailEvent {
    MailEvent(Deleted, m.id, m.thread, "", "", m.subject, "")
  }

  // ---- The drain, change by change ------------------------------------------

  datatype Change = Added(id: string) | Trashed(id: string)

  function AddedChanges(ids: seq<string>): seq<Change> {
    if ids == [] then [] else [Added(ids[0])] + AddedChanges(ids[1..])
  }

  function TrashedChanges(labeled: seq<Labeled>): seq<Change> {
    if labeled == [] then []
    else (if TRASH in labeled[0].labels then [Trashed(labeled[0].id)] else []) + TrashedChanges(labeled[1..])
  }

  function RecordChanges(h: Record): seq<Change> {
    AddedChanges(h.added) + TrashedChanges(h.labeled)
  }

  function Changes(records: seq<Record>): seq<Change> {
    if records == [] then [] else RecordChanges(records[0]) + Changes(records[1..])
  }

  // The variables of drain, and the number of messages.get calls made.
  datatype Progress = Progress(events: seq<MailEvent>, seenAdded: set<string>, seenTrashed: set<string>, cache: map<string, Message>, calls: nat)

  const START := Progress([], {}, {}, map[], 0)

  // getMessage, through the cache; the mailbox may answer differently at each call.
  function Got(p: Progress, id: string, mailbox: (nat, string) -> Fetch): (Progress, Fetch) {
    if id in p.cache then (p, Found(p.cache[id]))
    else
      var answer := mailbox(p.calls, id);
      (p.(calls := p.calls + 1, cache := if answer.Found? then p.cache[id := answer.m] else p.cache), answer)
  }

  // None when messages.get failed in any other way than a missing message.
  function Processed(p: Progress, change: Change, mailbox: (nat, string) -> Fetch): Option<Progress> {
    match change
    case Added(id) =>
      if id == "" || id in p.seenAdded then Some(p)
      else
        var (p', answer) := Got(p, id, mailbox);
        (match answer
         case Broken => None
         case Gone => Some(p'.(seenAdded := p'.seenAdded + {id}))
         case Found(m) =>
           if DeriveAdded(m) == [] then Some(p')
           else Some(p'.(seenAdded := p'.seenAdded + {id}, events := p'.events + DeriveAdded(m))))
    case Trashed(id) =>
      if id == "" || id in p.seenTrashed then Some(p)
      else
        var (p', answer) := Got(p, id, mailbox);
        match answer
        case Broken => None
        case Gone => Some(p'.(seenTrashed := p'.seenTrashed + {id}))
        case Found(m) => Some(p'.(seenTrashed := p'.seenTrashed + {id}, events := p'.events + [DeriveDeleted(m)]))
  }

  function ProcessedAll(p: Progress, changes: seq<Change>, mailbox: (nat, string) -> Fetch): Option<Progress>
    decreases |changes|
  {
    if changes == [] then Some(p)
    else match Processed(p, changes[0], mailbox)
      case None => None
      case Some(p') => ProcessedAll(p', changes[1..], mailbox)
  }

  lemma {:induction false} ProcessedConcat(p: Progress, a: seq<Change>, b: seq<Change>, mailbox: (nat, string) -> Fetch)
    ensures ProcessedAll(p, a + b, mailbox) ==
            match ProcessedAll(p, a, mailbox) { case None => None case Some(p') => ProcessedAll(p', b, mailbox) }
    decreases |a|
  {
    hide Processed;
    if a == [] {
      assert a + b == b;
    } else {
      assert (a + b)[0] == a[0] && (a + b)[1..] == a[1..] + b;
      if Processed(p, a[0], mailbox).Some? {
        ProcessedConcat(Processed(p, a[0], mailbox).value, a[1..], b, mailbox);
      }
    }
  }

  // ---- Pages ----------------------------------------------------------------

  // The records of the pages in order, and the last history id that they gave.
  function Records(pages: seq<Listing>): seq<Record> {
    if pages == [] || !pages[0].Page? then [] else pages[0].records + Records(pages[1..])
  }

  function FinalId(pages: seq<Listing>, id: string): string {
    if pages == [] || !pages[0].Page? then id
    else FinalId(pages[1..], if pages[0].historyId != "" then pages[0].historyId else id)
  }

  datatype Drained = Drained(events: seq<MailEvent>, historyId: string) | Stale | Failed

  // What a page that is no page makes of the drain; every page before it was processed.
  function DrainedFrom(p: Progress, pages: seq<Listing>, id: string, mailbox: (nat, string) -> Fetch): Drained
    decreases |pages|
  {
    if pages == [] then Drained(p.events, id)
    else match pages[0]
      case ListNotFound => Stale
      case ListError => Failed
      case Page(records, historyId) =>
        match ProcessedAll(p, Changes(records), mailbox)
        case None => Failed
        case Some(p') => DrainedFrom(p', pages[1..], if historyId != "" then historyId else id, mailbox)
  }

  predicate AllPages(pages: seq<Listing>) {
    forall page :: page in pages ==> page.Page?
  }

  lemma Associative(a: seq<Change>, b: seq<Change>, c: seq<Change>)
    ensures a + (b + c) == (a + b) + c
  {
  }

  lemma {:induction false} ChangesConcat(a: seq<Record>, b: seq<Record>)
    ensures Changes(a + b) == Changes(a) + Changes(b)
  {
    hide RecordChanges;
    if a == [] {
      assert a + b == b;
    } else {
      ChangesConcat(a[1..], b);
      assert (a + b)[1..] == a[1..] + b;
      Associative(RecordChanges(a[0]), Changes(a[1..]), Changes(b));
    }
  }

  // A drain depends on the records alone and not on how they were paged.
  lemma {:induction false} PagesDoNotMatter(p: Progress, pages: seq<Listing>, id: string,
          mailbox: (nat, string) -> Fetch)
    requires AllPages(pages)
    ensures DrainedFrom(p, pages, id, mailbox) ==
            match ProcessedAll(p, Changes(Records(pages)), mailbox) { case None => Failed case Some(q) => Drained(q.events, FinalId(pages, id)) }
    decreases |pages|
  {
    hide Processed, RecordChanges;
    if pages != [] {
      var first, rest := pages[0].records, Records(pages[1..]);
      ChangesConcat(first, rest);
      ProcessedConcat(p, Changes(first), Changes(rest), mailbox);
      hide Changes, ProcessedAll;
      if ProcessedAll(p, Changes(first), mailbox).Some? {
        PagesDoNotMatter(ProcessedAll(p, Changes(first), mailbox).value, pages[1..],
                         if pages[0].historyId != "" then pages[0].historyId else id, mailbox);
      }
    }
  }

  // ---- The poller -----------------------------------------------------------

  // The cursor row; an empty text reads as no cursor.
  function ReadCursor(cursor: Option<string>): Option<string> {
    if cursor == Some("") then None else cursor
  }

  datatype Mailroom = Mailroom(cursor: Option<string>, outbox: seq<MailEvent>)

  // What one poll meets: the pages, the messages, the profile, and whether its transaction commits.
  datatype Weather = Weather(pages: seq<Listing>, mailbox: (nat, string) -> Fetch, profile: Option<string>, commits: bool)

  function Seeded(s: Mailroom, w: Weather): Mailroom {
    if w.profile.Some? && w.commits then s.(cursor := w.profile) else s
  }

  function Polled(s: Mailroom, w: Weather): Mailroom {
    if ReadCursor(s.cursor).None? then Seeded(s, w)
    else
      var cursor := s.cursor.value;
      match DrainedFrom(START, w.pages, cursor, w.mailbox)
      case Stale => Seeded(s, w)
      case Failed => s
      case Drained(events, historyId) =>
        if (historyId == "" || historyId == cursor) && events == [] then s
        else if w.commits then Mailroom(Some(historyId), s.outbox + events) else s
  }

  class Engine {
    var cursor: Option<string>
    var outbox: seq<MailEvent>

    function State(): Mailroom
      reads this
    {
      Mailroom(cursor, outbox)
    }

    constructor (s: Mailroom)
      ensures State() == s
    {
      cursor, outbox := s.cursor, s.outbox;
    }

    method GetMessage(p: Progress, id: string, mailbox: (nat, string) -> Fetch) returns (p': Progress, answer: Fetch)
      ensures (p', answer) == Got(p, id, mailbox)
    {
      if id in p.cache {
        return p, Found(p.cache[id]);
      }
      answer := mailbox(p.calls, id);
      p' := p.(calls := p.calls + 1);
      if answer.Found? {
        p' := p'.(cache := p'.cache[id := answer.m]);
      }
    }

    method HandleAdded(p: Progress, id: string, mailbox: (nat, string) -> Fetch) returns (r: Option<Progress>)
      ensures r == Processed(p, Added(id), mailbox)
    {
      if id == "" || id in p.seenAdded {
        return Some(p);
      }
      var p', answer := GetMessage(p, id, mailbox);
      hide Got;
      if answer == Gone {
        return Some(p'.(seenAdded := p'.seenAdded + {id}));
      }
      if answer.Broken? {
        return None;
      }
      var derived := DeriveAdded(answer.m);
      if |derived| > 0 {
        return Some(p'.(seenAdded := p'.seenAdded + {id}, events := p'.events + derived));
      }
      return Some(p');
    }

    method HandleTrashed(p: Progress, id: string, mailbox: (nat, string) -> Fetch) returns (r: Option<Progress>)
      ensures r == Processed(p, Trashed(id), mailbox)
    {
      if id == "" || id in p.seenTrashed {
        return Some(p);
      }
      var p', answer := GetMessage(p, id, mailbox);
      hide Got;
      if answer == Gone {
        return Some(p'.(seenTrashed := p'.seenTrashed + {id}));
      }
      if answer.Broken? {
        return None;
      }
      return Some(p'.(seenTrashed := p'.seenTrashed + {id}, events := p'.events + [DeriveDeleted(answer.m)]));
    }

    // The changes of one record: its added messages, then its trashed ones.
    method DrainRecord(p0: Progress, h: Record, mailbox: (nat, string) -> Fetch) returns (r: Option<Progress>)
      ensures r == ProcessedAll(p0, RecordChanges(h), mailbox)
    {
      hide Processed;
      ProcessedConcat(p0, AddedChanges(h.added), TrashedChanges(h.labeled), mailbox);
      var p := p0;
      assert h.added[0..] == h.added && h.labeled[0..] == h.labeled;
      for i := 0 to |h.added|
        invariant ProcessedAll(p0, AddedChanges(h.added), mailbox) == ProcessedAll(p, AddedChanges(h.added[i..]), mailbox)
      {
        AddedStep(h.added, i);
        var r' := HandleAdded(p, h.added[i], mailbox);
        if r'.None? {
          return None;
        }
        p := r'.value;
      }
      ghost var mid := p;
      for i := 0 to |h.labeled|
        invariant ProcessedAll(mid, TrashedChanges(h.labeled), mailbox) == ProcessedAll(p, TrashedChanges(h.labeled[i..]), mailbox)
      {
        TrashedStep(h.labeled, i);
        if TRASH in h.labeled[i].labels {
          var r' := HandleTrashed(p, h.labeled[i].id, mailbox);
          if r'.None? {
            return None;
          }
          p := r'.value;
        }
      }
      return Some(p);
    }

    method Drain(cursor: string, pages: seq<Listing>, mailbox: (nat, string) -> Fetch) returns (d: Drained)
      ensures d == DrainedFrom(START, pages, cursor, mailbox)
    {
      hide RecordChanges;
      var p, newHistoryId := START, cursor;
      for k := 0 to |pages|
        invariant DrainedFrom(START, pages, cursor, mailbox) == DrainedFrom(p, pages[k..], newHistoryId, mailbox)
      {
        assert pages[k..][1..] == pages[k + 1..];
        if pages[k] == ListNotFound {
          return Stale;
        }
        if pages[k] == ListError {
          return Failed;
        }
        var records := pages[k].records;
        ghost var before := p;
        assert records[0..] == records;
        for i := 0 to |records|
          invariant ProcessedAll(before, Changes(records), mailbox) == ProcessedAll(p, Changes(records[i..]), mailbox)
        {
          hide ProcessedAll;
          ChangesStep(records, i);
          ProcessedConcat(p, RecordChanges(records[i]), Changes(records[i + 1..]), mailbox);
          var r := DrainRecord(p, records[i], mailbox);
          if r.None? {
            return Failed;
          }
          p := r.value;
        }
        if pages[k].historyId != "" {
          newHistoryId := pages[k].historyId;
        }
      }
      return Drained(p.events, newHistoryId);
    }

    method SeedCursor(w: Weather)
      modifies this`cursor
      ensures State() == Seeded(old(State()), w)
    {
      if w.profile.None? {
        return;
      }
      if w.commits {
        cursor := w.profile;
      }
    }

    method Poll(w: Weather)
      modifies this
      ensures State() == Polled(old(State()), w)
    {
      hide DrainedFrom;
      if ReadCursor(cursor).None? {
        SeedCursor(w);
        return;
      }
      var d := Drain(cursor.value, w.pages, w.mailbox);
      if d == Stale {
        SeedCursor(w);
        return;
      }
      if d == Failed {
        return;
      }
      if d.historyId == "" || d.historyId == cursor.value {
        if |d.events| == 0 {
          return;
        }
      }
      if w.commits {
        cursor, outbox := Some(d.historyId), outbox + d.events;
      }
    }
  }

  lemma AddedStep(ids: seq<string>, i: nat)
    requires i < |ids|
    ensures AddedChanges(ids[i..]) == [Added(ids[i])] + AddedChanges(ids[i + 1..])
  {
    assert ids[i..][1..] == ids[i + 1..];
  }

  lemma TrashedStep(labeled: seq<Labeled>, i: nat)
    requires i < |labeled|
    ensures TrashedChanges(labeled[i..]) ==
            if TRASH in labeled[i].labels then [Trashed(labeled[i].id)] + TrashedChanges(labeled[i + 1..]) else TrashedChanges(labeled[i + 1..])
  {
    assert [] + TrashedChanges(labeled[i + 1..]) == TrashedChanges(labeled[i + 1..]);
    assert labeled[i..][1..] == labeled[i + 1..];
  }

  lemma ChangesStep(records: seq<Record>, i: nat)
    requires i < |records|
    ensures Changes(records[i..]) == RecordChanges(records[i]) + Changes(records[i + 1..])
  {
    assert records[i..][1..] == records[i + 1..];
  }

  // ---- What a drain yields --------------------------------------------------

  // The events of a change, asked of a mailbox that does not change meanwhile.
  function EventsOf(change: Change, mail: string -> Fetch): seq<MailEvent> {
    if change.id == "" || !mail(change.id).Found? then []
    else if change.Added? then DeriveAdded(mail(change.id).m)
    else [DeriveDeleted(mail(change.id).m)]
  }

  // The simple form of a drain: each change counts where it first occurs, and nothing is cached.
  function Simple(changes: seq<Change>, mail: string -> Fetch): seq<MailEvent> {
    if changes == [] then []
    else
      var front, last := changes[..|changes| - 1], changes[|changes| - 1];
      Simple(front, mail) + if last in front then [] else EventsOf(last, mail)
  }

  predicate Breaks(change: Change, mail: string -> Fetch) {
    change.id != "" && mail(change.id).Broken?
  }

  function Steady(mail: string -> Fetch): (nat, string) -> Fetch {
    (call, id) => mail(id)
  }

  // What the sets and the cache say of the changes done.
  ghost predicate Remembers(p: Progress, done: seq<Change>, mail: string -> Fetch) {
    p.events == Simple(done, mail) && CacheIs(p, mail) &&
    (forall id :: id in p.seenAdded ==> Added(id) in done) &&
    (forall id :: id in p.seenTrashed ==> Trashed(id) in done) &&
    (forall id :: Trashed(id) in done && id != "" ==> id in p.seenTrashed) &&
    (forall id :: Added(id) in done && id != "" ==> id in p.seenAdded || EventsOf(Added(id), mail) == []) &&
    (forall change :: change in done ==> !Breaks(change, mail))
  }

  ghost predicate CacheIs(p: Progress, mail: string -> Fetch) {
    forall id :: id in p.cache ==> mail(id) == Found(p.cache[id])
  }

  lemma GotIsMail(p: Progress, id: string, mail: string -> Fetch)
    requires CacheIs(p, mail)
    ensures var (p', answer) := Got(p, id, Steady(mail));
            answer == mail(id) && CacheIs(p', mail) && p' == p.(cache := p'.cache, calls := p'.calls)
  {
  }

  lemma SimpleStep(done: seq<Change>, change: Change, mail: string -> Fetch)
    ensures Simple(done + [change], mail) == Simple(done, mail) + if change in done then [] else EventsOf(change, mail)
    ensures forall other :: other in done + [change] <==> other in done || other == change
  {
    assert (done + [change])[..|done|] == done;
  }

  lemma AddedRemembers(p: Progress, done: seq<Change>, id: string, mail: string -> Fetch)
    requires Remembers(p, done, mail)
    ensures Processed(p, Added(id), Steady(mail)).None? <==> Breaks(Added(id), mail)
    ensures Processed(p, Added(id), Steady(mail)).Some? ==> Remembers(Processed(p, Added(id), Steady(mail)).value, done + [Added(id)], mail)
  {
    hide DeriveAdded, Simple, Got, Steady;
    SimpleStep(done, Added(id), mail);
    GotIsMail(p, id, mail);
    if Added(id) in done {
      assert !Breaks(Added(id), mail);
    }
    assert Simple(done, mail) + [] == Simple(done, mail);
  }

  lemma TrashedRemembers(p: Progress, done: seq<Change>, id: string, mail: string -> Fetch)
    requires Remembers(p, done, mail)
    ensures Processed(p, Trashed(id), Steady(mail)).None? <==> Breaks(Trashed(id), mail)
    ensures Processed(p, Trashed(id), Steady(mail)).Some? ==> Remembers(Processed(p, Trashed(id), Steady(mail)).value, done + [Trashed(id)], mail)
  {
    hide DeriveAdded, DeriveDeleted, Simple, Got, Steady;
    SimpleStep(done, Trashed(id), mail);
    GotIsMail(p, id, mail);
    if Trashed(id) in done {
      assert !Breaks(Trashed(id), mail);
    }
    assert Simple(done, mail) + [] == Simple(done, mail);
  }

  lemma StepRemembers(p: Progress, done: seq<Change>, change: Change, mail: string -> Fetch)
    requires Remembers(p, done, mail)
    ensures Processed(p, change, Steady(mail)).None? <==> Breaks(change, mail)
    ensures Processed(p, change, Steady(mail)).Some? ==> Remembers(Processed(p, change, Steady(mail)).value, done + [change], mail)
  {
    hide Processed, Remembers, Breaks;
    match change {
      case Added(id) => AddedRemembers(p, done, id, mail);
      case Trashed(id) => TrashedRemembers(p, done, id, mail);
    }
  }

  lemma {:induction false} AllRemember(p: Progress, done: seq<Change>, changes: seq<Change>, mail: string -> Fetch)
    requires Remembers(p, done, mail)
    ensures var r := ProcessedAll(p, changes, Steady(mail));
            (r.None? <==> exists change :: change in changes && Breaks(change, mail)) &&
            (r.Some? ==> Remembers(r.value, done + changes, mail))
    decreases |changes|
  {
    hide Remembers, Processed, Steady, Breaks;
    if changes == [] {
      assert done + changes == done;
    } else {
      StepRemembers(p, done, changes[0], mail);
      assert changes == [changes[0]] + changes[1..];
      if Processed(p, changes[0], Steady(mail)).Some? {
        AllRemember(Processed(p, changes[0], Steady(mail)).value, done + [changes[0]], changes[1..], mail);
        assert (done + [changes[0]]) + changes[1..] == done + changes;
      }
    }
  }

  // Over a steady mailbox the drain, for all its cache and its sets, is the simple form; and it fails
  // exactly when some change concerns a message that cannot be read.
  lemma DrainIsSimple(pages: seq<Listing>, cursor: string, mail: string -> Fetch)
    requires AllPages(pages)
    ensures var changes := Changes(Records(pages));
            DrainedFrom(START, pages, cursor, Steady(mail)) ==
            if exists change :: change in changes && Breaks(change, mail) then Failed
            else Drained(Simple(changes, mail), FinalId(pages, cursor))
  {
    hide Changes, ProcessedAll, Steady, DrainedFrom, Records, FinalId;
    PagesDoNotMatter(START, pages, cursor, Steady(mail));
    AllRemember(START, [], Changes(Records(pages)), mail);
    assert [] + Changes(Records(pages)) == Changes(Records(pages));
  }

  // ---- At most once ---------------------------------------------------------

  // A mailbox answers with the message asked for, though it may change between calls.
  ghost predicate Truthful(mailbox: (nat, string) -> Fetch) {
    forall call: nat, id :: mailbox(call, id).Found? ==> mailbox(call, id).m.id == id
  }

  predicate Distinct(events: seq<MailEvent>) {
    forall i, j :: 0 <= i < j < |events| ==> events[i].kind != events[j].kind || events[i].id != events[j].id
  }

  ghost predicate Guarded(p: Progress) {
    Distinct(p.events) &&
    (forall id :: id in p.cache ==> p.cache[id].id == id) &&
    (forall i :: 0 <= i < |p.events| ==> p.events[i].id in if p.events[i].kind == Deleted then p.seenTrashed else p.seenAdded)
  }

  // New events, of kinds and an id that were not there.
  lemma DistinctGrows(a: seq<MailEvent>, b: seq<MailEvent>, id: string)
    requires Distinct(a) && Distinct(b) && forall j :: 0 <= j < |b| ==> b[j].id == id
    requires forall i, j :: 0 <= i < |a| && 0 <= j < |b| ==> a[i].id != id || a[i].kind != b[j].kind
    ensures Distinct(a + b)
  {
    var all := a + b;
    forall i, j | 0 <= i < j < |all|
      ensures all[i].kind != all[j].kind || all[i].id != all[j].id
    {
      if i < |a| <= j {
        assert all[i] == a[i] && all[j] == b[j - |a|];
      }
    }
  }

  lemma GotGuarded(p: Progress, id: string, mailbox: (nat, string) -> Fetch)
    requires Guarded(p) && Truthful(mailbox)
    ensures var (p', answer) := Got(p, id, mailbox);
            Guarded(p') && p' == p.(cache := p'.cache, calls := p'.calls) && (answer.Found? ==> answer.m.id == id)
  {
    hide Distinct;
  }

  lemma DerivedIs(m: Message)
    ensures Distinct(DeriveAdded(m)) && Distinct([DeriveDeleted(m)])
    ensures forall j :: 0 <= j < |DeriveAdded(m)| ==> DeriveAdded(m)[j].id == m.id && DeriveAdded(m)[j].kind != Deleted
  {
  }

  lemma AddedGuarded(p: Progress, id: string, mailbox: (nat, string) -> Fetch)
    requires Guarded(p) && Truthful(mailbox) && Processed(p, Added(id), mailbox).Some?
    ensures Guarded(Processed(p, Added(id), mailbox).value)
  {
    hide Got, DeriveAdded, Distinct, Truthful;
    if id != "" && id !in p.seenAdded {
      GotGuarded(p, id, mailbox);
      var (p', answer) := Got(p, id, mailbox);
      if answer.Found? {
        DerivedIs(answer.m);
        DistinctGrows(p.events, DeriveAdded(answer.m), id);
      }
    }
  }

  lemma TrashedGuarded(p: Progress, id: string, mailbox: (nat, string) -> Fetch)
    requires Guarded(p) && Truthful(mailbox) && Processed(p, Trashed(id), mailbox).Some?
    ensures Guarded(Processed(p, Trashed(id), mailbox).value)
  {
    hide Got, Distinct, Truthful;
    if id != "" && id !in p.seenTrashed {
      GotGuarded(p, id, mailbox);
      var (p', answer) := Got(p, id, mailbox);
      if answer.Found? {
        DerivedIs(answer.m);
        DistinctGrows(p.events, [DeriveDeleted(answer.m)], id);
      }
    }
  }

  lemma StepGuarded(p: Progress, change: Change, mailbox: (nat, string) -> Fetch)
    requires Guarded(p) && Truthful(mailbox) && Processed(p, change, mailbox).Some?
    ensures Guarded(Processed(p, change, mailbox).value)
  {
    hide Processed, Guarded, Truthful;
    match change {
      case Added(id) => AddedGuarded(p, id, mailbox);
      case Trashed(id) => TrashedGuarded(p, id, mailbox);
    }
  }

  // Whatever the mailbox does between the calls, a drain yields at most one sent, one received and one
  // deleted event for a message.
  lemma {:induction false} AtMostOneOfEach(p: Progress, changes: seq<Change>, mailbox: (nat, string) -> Fetch)
    requires Guarded(p) && Truthful(mailbox) && ProcessedAll(p, changes, mailbox).Some?
    ensures Guarded(ProcessedAll(p, changes, mailbox).value) && Distinct(ProcessedAll(p, changes, mailbox).value.events)
    decreases |changes|
  {
    hide Processed, Truthful;
    if changes != [] {
      StepGuarded(p, changes[0], mailbox);
      hide Guarded;
      AtMostOneOfEach(Processed(p, changes[0], mailbox).value, changes[1..], mailbox);
    }
  }

  // ---- Runs -----------------------------------------------------------------

  // A stretch of the mailbox history behind the cursor: drained while the mailbox was as given, or
  // passed over by a seed.
  datatype Span = DrainedSpan(from: nat, to: nat, mail: string -> Fetch) | SeededSpan(from: nat, to: nat)

  // The poller, and the stretches that its commits covered.
  datatype World = World(room: Mailroom, spans: seq<Span>)

  const NEW := World(Mailroom(None, []), [])

  // One poll: what it meets; the mailbox meanwhile; the positions its pages and its profile lead to.
  datatype Poll = Poll(w: Weather, mail: string -> Fetch, upTo: nat, seed: nat)

  function Position(spans: seq<Span>): nat {
    if spans == [] then 0 else spans[|spans| - 1].to
  }

  // The mailbox numbers its records, and the id of a position is its number. A full set of pages holds
  // the records from the cursor to the id it ends with; a profile is not behind the cursor.
  ghost predicate Honest(history: seq<Record>, at: nat, poll: Poll) {
    (poll.w.profile.Some? ==> poll.w.profile == Some(FormatInt(poll.seed)) && at <= poll.seed <= |history|) &&
    (AllPages(poll.w.pages) ==>
       poll.w.mailbox == Steady(poll.mail) && at <= poll.upTo <= |history| &&
       Records(poll.w.pages) == history[at..poll.upTo] && FinalId(poll.w.pages, FormatInt(at)) == FormatInt(poll.upTo))
  }

  function Step(x: World, poll: Poll): World {
    var room := Polled(x.room, poll.w);
    var at := Position(x.spans);
    if room == x.room && !(poll.w.profile.Some? && poll.w.commits && Seeds(x.room, poll.w)) then x.(room := room)
    else if Seeds(x.room, poll.w) then World(room, x.spans + [SeededSpan(at, poll.seed)])
    else World(room, x.spans + [DrainedSpan(at, poll.upTo, poll.mail)])
  }

  // Whether a poll seeds the cursor instead of draining.
  predicate Seeds(room: Mailroom, w: Weather) {
    ReadCursor(room.cursor).None? || DrainedFrom(START, w.pages, room.cursor.value, w.mailbox) == Stale
  }

  function Run(polls: seq<Poll>): World
    decreases |polls|
  {
    if polls == [] then NEW else Step(Run(polls[..|polls| - 1]), polls[|polls| - 1])
  }

  ghost predicate AllHonest(history: seq<Record>, polls: seq<Poll>) {
    forall i :: 0 <= i < |polls| ==> Honest(history, Position(Run(polls[..i]).spans), polls[i])
  }

  // The spans tile the history from its beginning.
  predicate Tiled(history: seq<Record>, spans: seq<Span>) {
    spans == [] ||
    (var front, last := spans[..|spans| - 1], spans[|spans| - 1];
     Tiled(history, front) && last.from == Position(front) <= last.to <= |history|)
  }

  function SpanEvents(history: seq<Record>, span: Span): seq<MailEvent> {
    if span.SeededSpan? || !(span.from <= span.to <= |history|) then [] else Simple(Changes(history[span.from..span.to]), span.mail)
  }

  // What the drained spans yield, in order.
  function Yield(history: seq<Record>, spans: seq<Span>): seq<MailEvent> {
    if spans == [] then []
    else Yield(history, spans[..|spans| - 1]) + SpanEvents(history, spans[|spans| - 1])
  }

  ghost predicate Consistent(history: seq<Record>, x: World) {
    Tiled(history, x.spans) && x.room.outbox == Yield(history, x.spans) &&
    x.room.cursor == if x.spans == [] then None else Some(FormatInt(Position(x.spans)))
  }

  lemma FormatNotEmpty(n: int)
    ensures FormatInt(n) != ""
  {
  }

  lemma Extended(history: seq<Record>, spans: seq<Span>, span: Span)
    requires Tiled(history, spans) && span.from == Position(spans) <= span.to <= |history|
    ensures Tiled(history, spans + [span]) && Position(spans + [span]) == span.to
    ensures Yield(history, spans + [span]) == Yield(history, spans) + SpanEvents(history, span)
  {
    hide SpanEvents;
    assert (spans + [span])[..|spans|] == spans;
  }

  // A poll that drains in full: nothing happens when it does not move, fail or not commit.
  lemma DrainStep(history: seq<Record>, x: World, poll: Poll)
    requires Consistent(history, x) && Honest(history, Position(x.spans), poll) && !Seeds(x.room, poll.w)
    ensures Consistent(history, Step(x, poll))
  {
    var at := Position(x.spans);
    FormatNotEmpty(at);
    NotAllPages(START, poll.w.pages, FormatInt(at), poll.w.mailbox);
    hide DrainedFrom, Simple, Changes, Records, FinalId, FormatInt, Yield, Steady;
    if AllPages(poll.w.pages) {
      DrainIsSimple(poll.w.pages, FormatInt(at), poll.mail);
      Extended(history, x.spans, DrainedSpan(at, poll.upTo, poll.mail));
      SameIdSamePlace(history, at, poll.upTo, poll.mail);
    }
  }

  lemma SameIdSamePlace(history: seq<Record>, at: nat, upTo: nat, mail: string -> Fetch)
    requires at <= upTo <= |history|
    ensures FormatInt(upTo) == FormatInt(at) ==> Simple(Changes(history[at..upTo]), mail) == []
    ensures FormatInt(upTo) != ""
  {
    if FormatInt(upTo) == FormatInt(at) {
      FormatInjective(upTo, at);
      assert history[at..upTo] == [];
    }
  }

  lemma {:induction false} NotAllPages(p: Progress, pages: seq<Listing>, id: string, mailbox: (nat, string) -> Fetch)
    ensures !AllPages(pages) ==> !DrainedFrom(p, pages, id, mailbox).Drained?
    ensures AllPages(pages) ==> DrainedFrom(p, pages, id, mailbox) != Stale
    decreases |pages|
  {
    hide ProcessedAll, Changes;
    if pages != [] && pages[0].Page? {
      assert pages == [pages[0]] + pages[1..];
      if ProcessedAll(p, Changes(pages[0].records), mailbox).Some? {
        NotAllPages(ProcessedAll(p, Changes(pages[0].records), mailbox).value, pages[1..],
                    if pages[0].historyId != "" then pages[0].historyId else id, mailbox);
      }
    }
  }

  lemma SeedStep(history: seq<Record>, x: World, poll: Poll)
    requires Consistent(history, x) && Honest(history, Position(x.spans), poll) && Seeds(x.room, poll.w)
    ensures Consistent(history, Step(x, poll))
  {
    hide DrainedFrom, Simple, Changes, Records, FinalId, FormatInt, Yield, Steady;
    FormatNotEmpty(Position(x.spans));
    if poll.w.profile.Some? {
      Extended(history, x.spans, SeededSpan(Position(x.spans), poll.seed));
    }
  }

  // Over every run of polls that commit or crash, stale cursors included, the spans committed tile
  // the history up to the cursor, and the outbox is what the simple form yields on the drained ones:
  // no record is emitted twice, and only a seed passes one over.
  lemma {:induction false} OutboxIsCommittedSpans(history: seq<Record>, polls: seq<Poll>)
    requires AllHonest(history, polls)
    ensures Consistent(history, Run(polls))
    decreases |polls|
  {
    hide Consistent, Honest, Seeds, Step;
    if polls == [] {
      NewIsConsistent(history);
    } else {
      var front := polls[..|polls| - 1];
      assert forall i :: 0 <= i < |front| ==> polls[..i] == front[..i];
      OutboxIsCommittedSpans(history, front);
      if Seeds(Run(front).room, polls[|polls| - 1].w) {
        SeedStep(history, Run(front), polls[|polls| - 1]);
      } else {
        DrainStep(history, Run(front), polls[|polls| - 1]);
      }
    }
  }

  lemma NewIsConsistent(history: seq<Record>)
    ensures Consistent(history, NEW)
  {
  }
}
