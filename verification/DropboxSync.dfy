/** The Dropbox puller: it applies pages of delta entries to a file index, a directory index, a mirror on
    disk and an event log, and advances its cursor page by page (dropbox/internal/dropbox/sync.go,
    service.go, store.go). Paths are lists of folded names, so that a path lies under another when
    that one is a prefix of it. */
module DropboxSync {
  import opened Numeric

  type Path = seq<string>

  // ---- State ----------------------------------------------------------------

  datatype FileRow = FileRow(rev: string, hash: string, size: int)

  datatype Node = Dir | File(data: string)

  datatype EventKind = Create | Modify | Delete

  datatype FileEvent = FileEvent(kind: EventKind, path: Path, rev: string, hash: string, size: int)

  datatype Box = Box(files: map<Path, FileRow>, dirs: set<Path>, disk: map<Path, Node>, events: seq<FileEvent>, cursor: Option<string>)

  // ---- Entries --------------------------------------------------------------

  datatype Entry =
    | FileEntry(path: Path, rev: string, hash: string, size: int)
    | FolderEntry(path: Path)
    | DeletedEntry(path: Path)
    | UnknownEntry

  datatype Download = Download(data: string, rev: string, hash: string, size: int)

  // The bytes that Dropbox keeps for a revision, and the order in which the index lists paths.
  datatype Config = Config(remote: (Path, string) -> Download, listed: set<Path> -> seq<Path>)

  // The ancestors of a path, itself included, up to a depth.
  function Ancestors(p: Path, depth: nat): set<Path> {
    if depth == 0 || p == [] then {} else if depth > |p| then Ancestors(p, |p|) else Ancestors(p, depth - 1) + {p[..depth]}
  }

  function ParentDepth(p: Path): nat {
    if |p| == 0 then 0 else |p| - 1
  }

  function Parents(p: Path): set<Path> {
    Ancestors(p, ParentDepth(p))
  }

  lemma {:induction false} AncestorsAre(p: Path, depth: nat)
    requires depth <= |p|
    ensures forall q :: q in Ancestors(p, depth) <==> 1 <= |q| <= depth && q <= p
  {
    if depth > 0 {
      AncestorsAre(p, depth - 1);
      forall q | |q| == depth && q <= p
        ensures q == p[..depth]
      {
      }
    }
  }

  // ---- The disk -------------------------------------------------------------

  // MkdirAll fails when a component is a file.
  predicate CanMkdir(disk: map<Path, Node>, p: Path, depth: nat) {
    forall q :: q in Ancestors(p, depth) && q in disk ==> disk[q] == Dir
  }

  function WithDirs(disk: map<Path, Node>, p: Path, depth: nat): map<Path, Node> {
    disk + map q | q in Ancestors(p, depth) :: Dir
  }

  // WriteFrom: the parents, then a rename of the finished temporary file into place.
  predicate CanWrite(disk: map<Path, Node>, p: Path) {
    CanMkdir(disk, p, ParentDepth(p)) && (p in disk ==> disk[p].File?)
  }

  function Written(disk: map<Path, Node>, p: Path, data: string): map<Path, Node> {
    WithDirs(disk, p, ParentDepth(p))[p := File(data)]
  }

  // RemoveAll, as far as it got: what is left under the path is in kept.
  function Removed(disk: map<Path, Node>, p: Path, kept: set<Path>): map<Path, Node> {
    map q | q in disk && (!(p <= q) || q in kept) :: disk[q]
  }

  // ---- Transactions ---------------------------------------------------------

  function Under(files: map<Path, FileRow>, p: Path): set<Path> {
    set q | q in files && p <= q
  }

  // The file and the directory index share one namespace: a file where a directory is to be, or a
  // directory where a file is to be, fails the transaction.
  predicate CanUpsertFile(s: Box, p: Path) {
    Parents(p) !! s.files.Keys && p !in s.dirs
  }

  predicate CanUpsertDir(s: Box, p: Path) {
    Parents(p) + {p} !! s.files.Keys
  }

  function FileUpserted(s: Box, p: Path, row: FileRow): Box {
    var ev := FileEvent(if p in s.files then Modify else Create, p, row.rev, row.hash, row.size);
    s.(dirs := s.dirs + Parents(p), files := s.files[p := row], events := s.events + [ev])
  }

  function DirUpserted(s: Box, p: Path): Box {
    s.(dirs := s.dirs + Parents(p) + {p})
  }

  function DeleteEvents(files: map<Path, FileRow>, paths: seq<Path>): seq<FileEvent> {
    if paths == [] then []
    else
      var p := paths[|paths| - 1];
      DeleteEvents(files, paths[..|paths| - 1]) +
      if p in files then [FileEvent(Delete, p, files[p].rev, files[p].hash, files[p].size)] else []
  }

  // The index rows under a path go, with one event each.
  function SubtreeDeleted(cfg: Config, s: Box, p: Path): Box {
    var rows := Under(s.files, p);
    s.(files := (map q | q in s.files && q !in rows :: s.files[q]),
       dirs := (set q | q in s.dirs && !(p <= q)),
       events := if rows == {} then s.events else s.events + DeleteEvents(s.files, cfg.listed(rows)))
  }

  // ---- One entry ------------------------------------------------------------

  // What a download leaves to be indexed: fields it does not give come from the entry.
  function RowOf(e: Entry, d: Download): FileRow
    requires e.FileEntry?
  {
    FileRow(if d.rev == "" then e.rev else d.rev, if d.hash == "" then e.hash else d.hash, if d.size == 0 then e.size else d.size)
  }

  predicate UpToDate(s: Box, e: Entry)
    requires e.FileEntry?
  {
    e.path in s.files && s.files[e.path].rev == e.rev
  }

  // applyEntry: the state it leaves, and whether it succeeded. A failed transaction leaves what was
  // done to the disk before it.
  function Applied(cfg: Config, e: Entry, s: Box): (Box, bool) {
    match e
    case UnknownEntry => (s, true)
    case FileEntry(p, rev, _, _) =>
      if UpToDate(s, e) then (s, true)
      else if !CanWrite(s.disk, p) then (s, false)
      else
        var d := cfg.remote(p, rev);
        var s1 := s.(disk := Written(s.disk, p, d.data));
        if CanUpsertFile(s1, p) then (FileUpserted(s1, p, RowOf(e, d)), true) else (s1, false)
    case FolderEntry(p) =>
      if !CanMkdir(s.disk, p, |p|) then (s, false)
      else
        var s1 := s.(disk := WithDirs(s.disk, p, |p|));
        if CanUpsertDir(s1, p) then (DirUpserted(s1, p), true) else (s1, false)
    case DeletedEntry(p) =>
      var s1 := SubtreeDeleted(cfg, s, p);
      (s1.(disk := Removed(s1.disk, p, {})), true)
  }

  // The entries in order, up to the first that fails.
  function AppliedAll(cfg: Config, entries: seq<Entry>, s: Box): (Box, bool)
    decreases |entries|
  {
    if entries == [] then (s, true)
    else
      var (t, ok) := AppliedAll(cfg, entries[..|entries| - 1], s);
      if ok then Applied(cfg, entries[|entries| - 1], t) else (t, false)
  }

  // The page when nothing fails from outside: the entries up to the first that fails, and then the cursor.
  function PageApplied(cfg: Config, entries: seq<Entry>, cursor: string, s: Box): (Box, bool) {
    var (t, ok) := AppliedAll(cfg, entries, s);
    if ok then (t.(cursor := Some(cursor)), true) else (t, false)
  }

  // ---- Entries that fail ----------------------------------------------------

  // How far an entry got: some of its directories made; its file in place but not indexed; its rows
  // deleted and all but some of its nodes unlinked.
  datatype Cut = Untouched | Made(depth: nat) | FileWritten | Unlinking(kept: set<Path>)

  function Partial(cfg: Config, e: Entry, s: Box, cut: Cut): Box {
    match (e, cut)
    case (FileEntry(p, rev, _, _), Made(depth)) =>
      if UpToDate(s, e) || depth >= |p| || !CanMkdir(s.disk, p, depth) then s else s.(disk := WithDirs(s.disk, p, depth))
    case (FileEntry(p, rev, _, _), FileWritten) =>
      if UpToDate(s, e) || !CanWrite(s.disk, p) then s else s.(disk := Written(s.disk, p, cfg.remote(p, rev).data))
    case (FolderEntry(p), Made(depth)) =>
      if depth > |p| || !CanMkdir(s.disk, p, depth) then s else s.(disk := WithDirs(s.disk, p, depth))
    case (DeletedEntry(p), Unlinking(kept)) =>
      var s1 := SubtreeDeleted(cfg, s, p);
      s1.(disk := Removed(s1.disk, p, kept))
    case _ => s
  }

  // An entry is tried. A fault from outside, in the network, on the disk or in the database, fails it
  // where it has got to: a read or a download, a directory, a file or a transaction that does not commit,
  // or the unlinking behind one that did.
  function Tried(cfg: Config, e: Entry, s: Box, fault: Option<Cut>): (Box, bool) {
    if fault.Some? && !e.UnknownEntry? then (Partial(cfg, e, s, fault.value), false) else Applied(cfg, e, s)
  }

  // The key that failures are counted under.
  function KeyOf(e: Entry): Path {
    if e.UnknownEntry? then [] else e.path
  }

  // markError: a path that has no row gets an empty one, unless a directory has that name.
  function MarkedBad(s: Box, p: Path): Box {
    if p in s.files || p in s.dirs then s else s.(files := s.files[p := FileRow("", "", 0)])
  }

  function Failures(retries: map<Path, nat>, p: Path): nat {
    1 + if p in retries then retries[p] else 0
  }

  // applyPage: the state, the failures counted, and whether the page is through. An entry that has failed
  // as often as the bound says is marked and passed over. The n-th entry meets the fault faults(n), if any.
  function PagePassed(cfg: Config, max: nat, entries: seq<Entry>, cursor: string, s: Box, retries: map<Path, nat>,
          faults: nat -> Option<Cut>, n: nat): (Box, map<Path, nat>, bool)
    decreases |entries|
  {
    if entries == [] then (s.(cursor := Some(cursor)), retries, true)
    else
      var (t, ok) := Tried(cfg, entries[0], s, faults(n));
      var key := KeyOf(entries[0]);
      if ok then PagePassed(cfg, max, entries[1..], cursor, t, retries - {key}, faults, n + 1)
      else if Failures(retries, key) < max then (t, retries[key := Failures(retries, key)], false)
      else PagePassed(cfg, max, entries[1..], cursor, MarkedBad(t, key), retries - {key}, faults, n + 1)
  }

  // What one call for more entries answers.
  datatype Answer = NoAnswer | Page(entries: seq<Entry>, cursor: string, more: bool, faults: nat -> Option<Cut>)

  // drain: page after page until one says that there is no more; the failures are counted from zero.
  function Drained(cfg: Config, max: nat, answers: seq<Answer>, s: Box, retries: map<Path, nat>): (Box, bool)
    decreases |answers|
  {
    if answers == [] || answers[0].NoAnswer? then (s, false)
    else
      var a := answers[0];
      var (t, retries', ok) := PagePassed(cfg, max, a.entries, a.cursor, s, retries, a.faults, 0);
      if !ok || !a.more then (t, ok) else Drained(cfg, max, answers[1..], t, retries')
  }

  // ---- The engine -----------------------------------------------------------

  const DEFAULT_MAX_RETRIES := 5

  class Engine {
    const cfg: Config
    const maxRetries: nat
    var files: map<Path, FileRow>
    var dirs: set<Path>
    var disk: map<Path, Node>
    var events: seq<FileEvent>
    var cursor: Option<string>

    function State(): Box
      reads this
    {
      Box(files, dirs, disk, events, cursor)
    }

    constructor (cfg: Config, maxRetries: int, s: Box)
      ensures this.cfg == cfg && State() == s
      ensures this.maxRetries == if maxRetries <= 0 then DEFAULT_MAX_RETRIES else maxRetries
    {
      this.cfg := cfg;
      this.maxRetries := if maxRetries <= 0 then DEFAULT_MAX_RETRIES else maxRetries;
      files, dirs, disk, events, cursor := s.files, s.dirs, s.disk, s.events, s.cursor;
    }

    method UpsertDir(p: Path) returns (ok: bool)
      modifies this`dirs
      ensures ok == (p !in files) && dirs == if ok then old(dirs) + {p} else old(dirs)
    {
      if p in files {
        return false;
      }
      dirs := dirs + {p};
      return true;
    }

    method UpsertDirParents(p: Path) returns (ok: bool)
      modifies this`dirs
      ensures ok == (Parents(p) !! files.Keys) && (ok ==> dirs == old(dirs) + Parents(p))
    {
      if |p| < 2 {
        return true;
      }
      var i := 1;
      while i < |p|
        invariant 1 <= i <= |p|
        invariant Ancestors(p, i - 1) !! files.Keys && dirs == old(dirs) + Ancestors(p, i - 1)
      {
        ok := UpsertDir(p[..i]);
        if !ok {
          AncestorsAre(p, |p| - 1);
          return false;
        }
        i := i + 1;
      }
      return true;
    }

    // The transaction of applyUpsert; a failure rolls it back.
    method ApplyUpsert(p: Path, row: FileRow, created: bool) returns (ok: bool)
      requires created == (p !in files)
      modifies this`dirs, this`files, this`events
      ensures ok == CanUpsertFile(old(State()), p)
      ensures State() == if ok then FileUpserted(old(State()), p, row) else old(State())
    {
      var dirs0 := dirs;
      NotOwnParent(p);
      hide Parents;
      ok := UpsertDirParents(p);
      if !ok || p in dirs {
        dirs := dirs0;
        return false;
      }
      files := files[p := row];
      events := events + [FileEvent(if created then Create else Modify, p, row.rev, row.hash, row.size)];
    }

    method ApplyMkdir(p: Path, fault: Option<Cut>) returns (ok: bool)
      modifies this`disk, this`dirs
      ensures (State(), ok) == Tried(cfg, FolderEntry(p), old(State()), fault)
    {
      hide Parents, Ancestors;
      if fault.Some? {
        if fault.value.Made? && fault.value.depth <= |p| && CanMkdir(disk, p, fault.value.depth) {
          disk := WithDirs(disk, p, fault.value.depth);
        }
        return false;
      }
      if !CanMkdir(disk, p, |p|) {
        return false;
      }
      disk := WithDirs(disk, p, |p|);
      var dirs0 := dirs;
      ok := UpsertDirParents(p);
      if ok {
        ok := UpsertDir(p);
      }
      if !ok {
        dirs := dirs0;
      }
    }

    method ApplyDelete(p: Path, fault: Option<Cut>) returns (ok: bool)
      modifies this
      ensures (State(), ok) == Tried(cfg, DeletedEntry(p), old(State()), fault)
    {
      if fault.Some? && !fault.value.Unlinking? {
        return false;
      }
      var rows := Under(files, p);
      if rows != {} {
        var deleted := cfg.listed(rows);
        for i := 0 to |deleted|
          invariant State() == old(State()).(events := old(events) + DeleteEvents(files, deleted[..i]))
        {
          assert deleted[..i + 1][..i] == deleted[..i];
          if deleted[i] in files {
            var row := files[deleted[i]];
            events := events + [FileEvent(Delete, deleted[i], row.rev, row.hash, row.size)];
          }
        }
        assert deleted[..|deleted|] == deleted;
      }
      files := map q | q in files && q !in rows :: files[q];
      dirs := set q | q in dirs && !(p <= q);
      disk := Removed(disk, p, if fault.Some? then fault.value.kept else {});
      return fault.None?;
    }

    method ApplyFile(e: Entry, fault: Option<Cut>) returns (ok: bool)
      requires e.FileEntry?
      modifies this
      ensures (State(), ok) == Tried(cfg, e, old(State()), fault)
    {
      hide Parents, CanUpsertFile, FileUpserted, CanWrite, Written;
      var hadRow := e.path in files;
      if hadRow && files[e.path].rev == e.rev {
        return fault.None?;
      }
      if fault.Some? {
        if fault.value.Made? && fault.value.depth < |e.path| && CanMkdir(disk, e.path, fault.value.depth) {
          disk := WithDirs(disk, e.path, fault.value.depth);
        }
        if fault.value.FileWritten? && CanWrite(disk, e.path) {
          disk := Written(disk, e.path, cfg.remote(e.path, e.rev).data);
        }
        return false;
      }
      if !CanWrite(disk, e.path) {
        return false;
      }
      var d := cfg.remote(e.path, e.rev);
      disk := Written(disk, e.path, d.data);
      var rev := d.rev;
      if rev == "" {
        rev := e.rev;
      }
      var hash := d.hash;
      if hash == "" {
        hash := e.hash;
      }
      var size := d.size;
      if d.size == 0 && e.size != 0 {
        size := e.size;
      }
      ok := ApplyUpsert(e.path, FileRow(rev, hash, size), !hadRow);
    }

    method ApplyEntry(e: Entry, fault: Option<Cut>) returns (ok: bool)
      modifies this
      ensures (State(), ok) == Tried(cfg, e, old(State()), fault)
    {
      match e {
        case DeletedEntry(p) =>
          ok := ApplyDelete(p, fault);
        case FolderEntry(p) => ok := ApplyMkdir(p, fault);
        case FileEntry(_, _, _, _) => ok := ApplyFile(e, fault);
        case UnknownEntry => ok := true;
      }
    }

    method MarkError(p: Path)
      modifies this`files
      ensures State() == MarkedBad(old(State()), p)
    {
      if p !in files && p !in dirs {
        files := files[p := FileRow("", "", 0)];
      }
    }

    method ApplyPage(entries: seq<Entry>, next: string, retries: map<Path, nat>, faults: nat -> Option<Cut>)
      returns (retries': map<Path, nat>, ok: bool)
      modifies this
      ensures (State(), retries', ok) == PagePassed(cfg, maxRetries, entries, next, old(State()), retries, faults, 0)
    {
      hide Tried, MarkedBad;
      retries', ok := retries, true;
      assert entries[0..] == entries;
      for i := 0 to |entries|
        invariant PagePassed(cfg, maxRetries, entries, next, old(State()), retries, faults, 0) ==
                  PagePassed(cfg, maxRetries, entries[i..], next, State(), retries', faults, i)
      {
        assert entries[i..][1..] == entries[i + 1..];
        var applied := ApplyEntry(entries[i], faults(i));
        var key := KeyOf(entries[i]);
        if !applied {
          var count := Failures(retries', key);
          if count < maxRetries {
            return retries'[key := count], false;
          }
          MarkError(key);
        }
        retries' := retries' - {key};
      }
      cursor := Some(next);
    }

    // The answers are those of the calls as they are made; no answer ends the drain.
    method Drain(answers: seq<Answer>) returns (ok: bool)
      modifies this
      ensures (State(), ok) == Drained(cfg, maxRetries, answers, old(State()), map[])
    {
      hide PagePassed;
      var retries: map<Path, nat> := map[];
      var i := 0;
      assert answers[0..] == answers;
      while i < |answers|
        invariant 0 <= i <= |answers|
        invariant Drained(cfg, maxRetries, answers, old(State()), map[]) == Drained(cfg, maxRetries, answers[i..], State(), retries)
      {
        assert answers[i..][1..] == answers[i + 1..];
        if answers[i].NoAnswer? {
          return false;
        }
        retries, ok := ApplyPage(answers[i].entries, answers[i].cursor, retries, answers[i].faults);
        if !ok || !answers[i].more {
          return;
        }
        i := i + 1;
      }
      return false;
    }
  }

  // ---- The bound on failures ------------------------------------------------

  // The entries in order, up to the first that fails.
  function TriedAll(cfg: Config, entries: seq<Entry>, s: Box, faults: nat -> Option<Cut>, n: nat): (Box, bool)
    decreases |entries|
  {
    if entries == [] then (s, true)
    else
      var (t, ok) := Tried(cfg, entries[0], s, faults(n));
      if ok then TriedAll(cfg, entries[1..], t, faults, n + 1) else (t, false)
  }

  function PageTried(cfg: Config, entries: seq<Entry>, cursor: string, s: Box, faults: nat -> Option<Cut>): (Box, bool) {
    var (t, ok) := TriedAll(cfg, entries, s, faults, 0);
    if ok then (t.(cursor := Some(cursor)), true) else (t, false)
  }

  // A drain that passes nothing over: page after page, up to the first entry that fails.
  function DrainTried(cfg: Config, answers: seq<Answer>, s: Box): (Box, bool)
    decreases |answers|
  {
    if answers == [] || answers[0].NoAnswer? then (s, false)
    else
      var (t, ok) := PageTried(cfg, answers[0].entries, answers[0].cursor, s, answers[0].faults);
      if !ok || !answers[0].more then (t, ok) else DrainTried(cfg, answers[1..], t)
  }

  predicate Below(retries: map<Path, nat>, max: nat) {
    forall p :: p in retries ==> retries[p] + 1 < max
  }

  // While no count is one short of the bound, a page stops at the first entry that fails, and counts it.
  lemma {:induction false} CountedOnly(cfg: Config, max: nat, entries: seq<Entry>, cursor: string, s: Box, retries: map<Path, nat>,
          faults: nat -> Option<Cut>, n: nat)
    requires max >= 2 && Below(retries, max)
    ensures var (t, retries', ok) := PagePassed(cfg, max, entries, cursor, s, retries, faults, n);
            var (t', ok') := TriedAll(cfg, entries, s, faults, n);
            ok == ok' && t == (if ok then t'.(cursor := Some(cursor)) else t') && (ok ==> retries'.Keys <= retries.Keys && Below(retries', max))
    decreases |entries|
  {
    hide Tried, MarkedBad;
    if entries != [] {
      var (t, ok) := Tried(cfg, entries[0], s, faults(n));
      if ok {
        CountedOnly(cfg, max, entries[1..], cursor, t, retries - {KeyOf(entries[0])}, faults, n + 1);
      }
    }
  }

  // With a bound of one every page is through, whatever fails.
  lemma {:induction false} AllPassed(cfg: Config, entries: seq<Entry>, cursor: string, s: Box, retries: map<Path, nat>,
          faults: nat -> Option<Cut>, n: nat)
    ensures var (t, _, ok) := PagePassed(cfg, 1, entries, cursor, s, retries, faults, n);
            ok && t.cursor == Some(cursor)
    decreases |entries|
  {
    hide Tried, MarkedBad;
    if entries != [] {
      var (t, ok) := Tried(cfg, entries[0], s, faults(n));
      var key := KeyOf(entries[0]);
      AllPassed(cfg, entries[1..], cursor, if ok then t else MarkedBad(t, key), retries - {key}, faults, n + 1);
    }
  }

  // The counts start from zero in every drain, and a failure that is only counted ends the drain. So with
  // a bound of two or more no drain ever passes an entry over: it is the drain without a bound.
  lemma {:induction false} BoundIsNeverReached(cfg: Config, max: nat, answers: seq<Answer>, s: Box)
    requires max >= 2
    ensures Drained(cfg, max, answers, s, map[]) == DrainTried(cfg, answers, s)
    decreases |answers|
  {
    hide PagePassed, TriedAll;
    if answers != [] && answers[0].Page? {
      var a := answers[0];
      CountedOnly(cfg, max, a.entries, a.cursor, s, map[], a.faults, 0);
      var (t, retries', ok) := PagePassed(cfg, max, a.entries, a.cursor, s, map[], a.faults, 0);
      if ok && a.more {
        assert retries' == map[];
        BoundIsNeverReached(cfg, max, answers[1..], t);
      }
    }
  }

  // A page on which some entry fails is passed by a drain exactly if the bound is one. Otherwise the drain
  // fails and leaves the cursor, and the next drain is for the same page.
  lemma PassedExactlyWhen(cfg: Config, max: nat, answers: seq<Answer>, s: Box)
    requires max >= 1 && answers != [] && answers[0].Page?
    requires var a := answers[0]; !PageTried(cfg, a.entries, a.cursor, s, a.faults).1
    ensures var a := answers[0]; PagePassed(cfg, max, a.entries, a.cursor, s, map[], a.faults, 0).2 <==> max == 1
    ensures max > 1 ==> !Drained(cfg, max, answers, s, map[]).1 && Drained(cfg, max, answers, s, map[]).0.cursor == s.cursor
  {
    hide PagePassed, TriedAll;
    var a := answers[0];
    if max == 1 {
      AllPassed(cfg, a.entries, a.cursor, s, map[], a.faults, 0);
    } else {
      CountedOnly(cfg, max, a.entries, a.cursor, s, map[], a.faults, 0);
      BoundIsNeverReached(cfg, max, answers, s);
      CursorStays(cfg, a.entries, s, a.faults, 0);
    }
  }

  lemma {:induction false} CursorStays(cfg: Config, entries: seq<Entry>, s: Box, faults: nat -> Option<Cut>, n: nat)
    ensures TriedAll(cfg, entries, s, faults, n).0.cursor == s.cursor
    decreases |entries|
  {
    hide Tried;
    if entries != [] {
      TriedKeepsCursor(cfg, entries[0], s, faults(n));
      CursorStays(cfg, entries[1..], Tried(cfg, entries[0], s, faults(n)).0, faults, n + 1);
    }
  }

  lemma TriedKeepsCursor(cfg: Config, e: Entry, s: Box, fault: Option<Cut>)
    ensures Tried(cfg, e, s, fault).0.cursor == s.cursor
  {
    hide CanWrite, Written, CanUpsertFile, CanMkdir, CanUpsertDir, Removed, DeleteEvents;
  }

  // Without faults from outside a page that is tried is the page applied.
  lemma {:induction false} TriedIsApplied(cfg: Config, entries: seq<Entry>, s: Box, faults: nat -> Option<Cut>)
    requires forall i :: 0 <= i < |entries| ==> faults(i).None?
    ensures TriedAll(cfg, entries, s, faults, 0) == AppliedAll(cfg, entries, s)
    decreases |entries|
  {
    hide Applied, UpToDate;
    if entries != [] {
      var front, e := entries[..|entries| - 1], entries[|entries| - 1];
      TriedIsApplied(cfg, front, s, faults);
      TriedSnoc(cfg, front, e, s, faults, 0);
      assert entries == front + [e];
    }
  }

  lemma {:induction false} TriedSnoc(cfg: Config, front: seq<Entry>, e: Entry, s: Box, faults: nat -> Option<Cut>, n: nat)
    ensures TriedAll(cfg, front + [e], s, faults, n) ==
            var (t, ok) := TriedAll(cfg, front, s, faults, n);
            if ok then Tried(cfg, e, t, faults(n + |front|)) else (t, false)
    decreases |front|
  {
    hide Tried;
    if front == [] {
      assert [e][1..] == [];
    } else {
      assert (front + [e])[1..] == front[1..] + [e];
      TriedSnoc(cfg, front[1..], e, Tried(cfg, front[0], s, faults(n)).0, faults, n + 1);
    }
  }

  // A deletion tells one event for each row it removes, in the order of the index, with what the row held.
  lemma {:induction false} OneEventPerRow(files: map<Path, FileRow>, paths: seq<Path>)
    requires forall p :: p in paths ==> p in files
    ensures var events := DeleteEvents(files, paths);
            |events| == |paths| &&
            forall i :: 0 <= i < |paths| ==>
              events[i] == FileEvent(Delete, paths[i], files[paths[i]].rev, files[paths[i]].hash, files[paths[i]].size)
  {
    if paths != [] {
      OneEventPerRow(files, paths[..|paths| - 1]);
    }
  }

  lemma NotOwnParent(p: Path)
    ensures p !in Parents(p)
  {
    AncestorsAre(p, ParentDepth(p));
  }

  lemma {:induction false} NothingToPass(cfg: Config, max: nat, entries: seq<Entry>, cursor: string, s: Box, retries: map<Path, nat>,
          faults: nat -> Option<Cut>, n: nat)
    requires TriedAll(cfg, entries, s, faults, n).1
    ensures var (t, _, ok) := PagePassed(cfg, max, entries, cursor, s, retries, faults, n);
            ok && t == TriedAll(cfg, entries, s, faults, n).0.(cursor := Some(cursor))
    decreases |entries|
  {
    hide Tried, MarkedBad;
    if entries != [] {
      NothingToPass(cfg, max, entries[1..], cursor, Tried(cfg, entries[0], s, faults(n)).0, retries - {KeyOf(entries[0])}, faults, n + 1);
    }
  }

  // Without faults from outside, a page on which no entry fails is the page applied, whatever the bound.
  lemma PageIsApplied(cfg: Config, max: nat, entries: seq<Entry>, cursor: string, s: Box, faults: nat -> Option<Cut>)
    requires (forall i :: 0 <= i < |entries| ==> faults(i).None?) && PageApplied(cfg, entries, cursor, s).1
    ensures var (t, _, ok) := PagePassed(cfg, max, entries, cursor, s, map[], faults, 0);
            (t, ok) == PageApplied(cfg, entries, cursor, s)
  {
    hide PagePassed, TriedAll, AppliedAll;
    TriedIsApplied(cfg, entries, s, faults);
    NothingToPass(cfg, max, entries, cursor, s, map[], faults, 0);
  }
}
