/** Crash and replay of a Dropbox page: a page that is interrupted anywhere, any number of times, and
    applied again from the old cursor ends as a page that was never interrupted. */
module DropboxReplay {
  import opened Numeric
  import opened DropboxSync

  // ---- Crashes --------------------------------------------------------------

  // A crash inside entry i, or after the last entry and before the cursor is written.
  datatype Crash = Crash(i: nat, cut: Cut)

  function Crashed(cfg: Config, entries: seq<Entry>, s: Box, crash: Crash): Box {
    if crash.i >= |entries| then AppliedAll(cfg, entries, s).0
    else Partial(cfg, entries[crash.i], AppliedAll(cfg, entries[..crash.i], s).0, crash.cut)
  }

  // The page is started over after each crash.
  function CrashedAll(cfg: Config, entries: seq<Entry>, s: Box, crashes: seq<Crash>): Box
    decreases |crashes|
  {
    if crashes == [] then s else CrashedAll(cfg, entries, Crashed(cfg, entries, s, crashes[0]), crashes[1..])
  }

  // ---- When a replay is harmless --------------------------------------------

  // Two entries of a page have no quarrel over a file: they do not give one path two revisions, and
  // neither deletes an ancestor of what the other writes, or that itself.
  predicate Agree(e: Entry, f: Entry) {
    (e.FileEntry? && f.FileEntry? ==> e.path != f.path || e.rev == f.rev) &&
    (e.DeletedEntry? && f.FileEntry? ==> !(e.path <= f.path))
  }

  predicate Compatible(entries: seq<Entry>) {
    forall i, j :: 0 <= i < |entries| && 0 <= j < |entries| ==> Agree(entries[i], entries[j])
  }

  // A download gives the revision asked for, or does not name one.
  predicate Faithful(cfg: Config, e: Entry) {
    e.FileEntry? ==> cfg.remote(e.path, e.rev).rev in {"", e.rev}
  }

  predicate AllFaithful(cfg: Config, entries: seq<Entry>) {
    forall i :: 0 <= i < |entries| ==> Faithful(cfg, entries[i])
  }

  predicate Valid(s: Box) {
    s.files.Keys !! s.dirs
  }

  lemma AppliedIsValid(cfg: Config, e: Entry, s: Box)
    requires Valid(s)
    ensures Valid(Applied(cfg, e, s).0)
  {
    hide Parents, CanWrite, Written, CanMkdir, WithDirs, Removed, DeleteEvents;
    if e.FileEntry? {
      NotOwnParent(e.path);
    }
  }

  lemma PartialIsValid(cfg: Config, e: Entry, s: Box, cut: Cut)
    requires Valid(s)
    ensures Valid(Partial(cfg, e, s, cut))
  {
    hide Parents, CanWrite, Written, CanMkdir, WithDirs, Removed, DeleteEvents;
  }

  // ---- Starting an entry over -----------------------------------------------

  predicate SameDir(a: Box, b: Box, q: Path) {
    q in a.dirs <==> q in b.dirs
  }

  predicate SameNode(a: Box, b: Box, q: Path) {
    (q in a.disk <==> q in b.disk) && (q in a.disk ==> a.disk[q] == b.disk[q])
  }

  // A state pointwise between the one before an entry and the one in which it was interrupted.
  ghost predicate Between(t: Box, u: Box, v: Box) {
    v.files == u.files && v.events == u.events && v.cursor == u.cursor &&
    (forall q :: SameDir(v, u, q) || SameDir(v, t, q)) && (forall q :: SameNode(v, u, q) || SameNode(v, t, q))
  }

  // A node as before the entry or as the interruption left it.
  predicate NodeBetween(a: map<Path, Node>, b: map<Path, Node>, c: map<Path, Node>, q: Path) {
    ((q in c <==> q in a) && (q in c ==> c[q] == a[q])) || ((q in c <==> q in b) && (q in c ==> c[q] == b[q]))
  }

  ghost predicate DiskBetween(a: map<Path, Node>, b: map<Path, Node>, c: map<Path, Node>) {
    forall q :: NodeBetween(a, b, c, q)
  }

  // The same, in terms that need no second state for a path.
  lemma NodesBetween(a: map<Path, Node>, b: map<Path, Node>, c: map<Path, Node>)
    requires DiskBetween(a, b, c)
    ensures forall q :: q in c ==> (q in a && c[q] == a[q]) || (q in b && c[q] == b[q])
    ensures forall q :: q in a && q in b ==> q in c
    ensures forall q :: q !in a && q !in b ==> q !in c
  {
    forall q
      ensures q in c ==> (q in a && c[q] == a[q]) || (q in b && c[q] == b[q])
      ensures q in a && q in b ==> q in c
    {
      assert NodeBetween(a, b, c, q);
    }
  }

  lemma BetweenMeans(t: Box, u: Box, v: Box)
    requires Between(t, u, v)
    ensures forall q :: q in v.dirs ==> q in u.dirs || q in t.dirs
    ensures forall q :: q in u.dirs && q in t.dirs ==> q in v.dirs
    ensures u.dirs == t.dirs ==> v.dirs == t.dirs
    ensures DiskBetween(t.disk, u.disk, v.disk)
  {
    forall q
      ensures (q in v.dirs <==> q in u.dirs) || (q in v.dirs <==> q in t.dirs)
    {
      assert SameDir(v, u, q) || SameDir(v, t, q);
    }
    forall q
      ensures NodeBetween(t.disk, u.disk, v.disk, q)
    {
      assert SameNode(v, u, q) || SameNode(v, t, q);
    }
  }

  lemma BetweenSame(t: Box, v: Box)
    requires Between(t, t, v)
    ensures v == t
  {
    BetweenMeans(t, t, v);
    forall q
      ensures NodeBetween(t.disk, t.disk, v.disk, q)
    {
    }
    assert forall q :: (q in v.disk <==> q in t.disk) && (q in v.disk ==> v.disk[q] == t.disk[q]) by {
      SameDisk(t.disk, v.disk);
    }
    assert v.disk == t.disk;
  }

  lemma SameDisk(a: map<Path, Node>, b: map<Path, Node>)
    requires DiskBetween(a, a, b)
    ensures forall q :: (q in b <==> q in a) && (q in b ==> b[q] == a[q])
  {
    forall q
      ensures (q in b <==> q in a) && (q in b ==> b[q] == a[q])
    {
      assert NodeBetween(a, a, b, q);
    }
  }

  lemma AncestorsNest(p: Path, d: nat)
    requires d <= |p|
    ensures Ancestors(p, d) <= Ancestors(p, |p|)
    ensures d < |p| ==> Ancestors(p, d) <= Parents(p) && p !in Ancestors(p, d)
  {
    AncestorsAre(p, d);
    AncestorsAre(p, |p|);
    if d < |p| {
      AncestorsAre(p, |p| - 1);
    }
    hide Ancestors;
  }

  lemma WrittenOver(disk: map<Path, Node>, cut: map<Path, Node>, now: map<Path, Node>, p: Path, depth: nat, data: string)
    requires CanWrite(disk, p) && DiskBetween(disk, cut, now)
    requires cut == disk || (depth < |p| && cut == WithDirs(disk, p, depth)) || cut == Written(disk, p, data)
    ensures CanWrite(now, p) && Written(now, p, data) == Written(disk, p, data)
  {
    NotOwnParent(p);
    if depth < |p| {
      AncestorsNest(p, depth);
    }
    NodesBetween(disk, cut, now);
    hide Ancestors, DiskBetween;
    assert Written(now, p, data).Keys == Written(disk, p, data).Keys;
  }

  lemma MadeOver(disk: map<Path, Node>, cut: map<Path, Node>, now: map<Path, Node>, p: Path, depth: nat)
    requires CanMkdir(disk, p, |p|) && DiskBetween(disk, cut, now)
    requires cut == disk || (depth <= |p| && cut == WithDirs(disk, p, depth))
    ensures CanMkdir(now, p, |p|) && WithDirs(now, p, |p|) == WithDirs(disk, p, |p|)
  {
    if depth <= |p| {
      AncestorsNest(p, depth);
    }
    NodesBetween(disk, cut, now);
    hide Ancestors, DiskBetween;
    assert WithDirs(now, p, |p|).Keys == WithDirs(disk, p, |p|).Keys;
  }

  lemma RestartFile(cfg: Config, e: Entry, t: Box, cut: Cut, v: Box)
    requires e.FileEntry? && Applied(cfg, e, t).1 && Between(t, Partial(cfg, e, t, cut), v)
    ensures Applied(cfg, e, v) == Applied(cfg, e, t)
  {
    hide RowOf, FileUpserted, CanWrite, Written, CanMkdir, WithDirs, Parents, Ancestors, CanUpsertFile, DiskBetween, SameDir, SameNode;
    var u := Partial(cfg, e, t, cut);
    BetweenMeans(t, u, v);
    if UpToDate(t, e) {
      BetweenSame(t, v);
    } else {
      assert v.dirs == t.dirs;
      WrittenOver(t.disk, u.disk, v.disk, e.path, if cut.Made? then cut.depth else |e.path|, cfg.remote(e.path, e.rev).data);
      assert v.(disk := t.disk) == t;
    }
  }

  lemma RestartFolder(cfg: Config, p: Path, t: Box, cut: Cut, v: Box)
    requires Applied(cfg, FolderEntry(p), t).1 && Between(t, Partial(cfg, FolderEntry(p), t, cut), v)
    ensures Applied(cfg, FolderEntry(p), v) == Applied(cfg, FolderEntry(p), t)
  {
    hide CanMkdir, WithDirs, Parents, Ancestors, CanUpsertDir, DiskBetween, SameDir, SameNode;
    var u := Partial(cfg, FolderEntry(p), t, cut);
    BetweenMeans(t, u, v);
    assert v.dirs == t.dirs;
    MadeOver(t.disk, u.disk, v.disk, p, if cut.Made? then cut.depth else |p| + 1);
    assert v.(disk := t.disk) == t;
  }

  lemma RestartDelete(cfg: Config, p: Path, t: Box, cut: Cut, v: Box)
    requires Between(t, Partial(cfg, DeletedEntry(p), t, cut), v)
    ensures Applied(cfg, DeletedEntry(p), v) == Applied(cfg, DeletedEntry(p), t)
  {
    hide DeleteEvents, SameDir, SameNode, DiskBetween;
    if cut.Unlinking? {
      var u := Partial(cfg, DeletedEntry(p), t, cut);
      BetweenMeans(t, u, v);
      NodesBetween(t.disk, u.disk, v.disk);
      var after, again := Applied(cfg, DeletedEntry(p), t).0, Applied(cfg, DeletedEntry(p), v).0;
      assert Under(v.files, p) == {};
      assert again.files == after.files;
      assert again.dirs == after.dirs;
      assert again.disk == after.disk;
    } else {
      BetweenSame(t, v);
    }
  }

  // An entry that was interrupted ends, when it is started over, as if it had not been, even when what
  // it had done was undone in part meanwhile.
  lemma Restart(cfg: Config, e: Entry, t: Box, cut: Cut, v: Box)
    requires Applied(cfg, e, t).1 && Between(t, Partial(cfg, e, t, cut), v)
    ensures Applied(cfg, e, v) == Applied(cfg, e, t)
  {
    hide Applied, Partial, Between;
    match e {
      case FileEntry(_, _, _, _) => RestartFile(cfg, e, t, cut, v);
      case FolderEntry(p) => RestartFolder(cfg, p, t, cut, v);
      case DeletedEntry(p) => RestartDelete(cfg, p, t, cut, v);
      case UnknownEntry =>
        NothingToRestart(cfg, t, cut);
        BetweenSame(t, v);
    }
  }

  lemma NothingToRestart(cfg: Config, s: Box, cut: Cut)
    ensures Partial(cfg, UnknownEntry, s, cut) == s
  {
  }

  // ---- What an entry does ---------------------------------------------------

  // What becomes of the disk when directories are made or a file is written: new nodes lie on the way
  // to the path, directories stay, and files are old ones or among the new.
  ghost predicate Adds(disk: map<Path, Node>, after: map<Path, Node>, p: Path, written: set<Path>) {
    (forall q :: q in after && (q !in disk || disk[q] != after[q]) ==> q <= p) &&
    (forall q :: q in disk && disk[q] == Dir ==> q in after && after[q] == Dir) &&
    (forall q :: q in disk ==> q in after) &&
    (forall q :: q in after && after[q].File? && q !in written ==> q in disk && disk[q] == after[q])
  }

  // What an entry may do to a state, in part or in full: a file or folder adds itself and its parents
  // and replaces no directory by a file; a deletion only removes what is under it.
  ghost predicate Touches(f: Entry, s: Box, t: Box) {
    match f
    case UnknownEntry => t == s
    case FileEntry(p, _, _, _) =>
      (UpToDate(s, f) ==> t == s) &&
      (forall q :: q in t.files && q !in s.files ==> q == p) &&
      (forall q :: q in s.files && q != p ==> q in t.files && t.files[q] == s.files[q]) &&
      s.dirs <= t.dirs <= s.dirs + Parents(p) && Adds(s.disk, t.disk, p, {p})
    case FolderEntry(p) =>
      t.files == s.files && s.dirs <= t.dirs <= s.dirs + Parents(p) + {p} && Adds(s.disk, t.disk, p, {})
    case DeletedEntry(p) =>
      (forall q :: q in t.files ==> q in s.files) && t.dirs <= s.dirs &&
      (forall q :: q in t.disk ==> q in s.disk && t.disk[q] == s.disk[q]) &&
      (forall q :: q in s.files && !(p <= q) ==> q in t.files && t.files[q] == s.files[q]) &&
      (forall q :: q in s.dirs && !(p <= q) ==> q in t.dirs) &&
      (forall q :: q in s.disk && !(p <= q) ==> q in t.disk)
  }

  lemma WithDirsAdds(disk: map<Path, Node>, p: Path, depth: nat)
    requires depth <= |p|
    ensures Adds(disk, WithDirs(disk, p, depth), p, {}) && Adds(disk, WithDirs(disk, p, depth), p, {p})
  {
    AncestorsAre(p, depth);
    hide Ancestors;
  }

  lemma WrittenAdds(disk: map<Path, Node>, p: Path, data: string)
    requires CanWrite(disk, p)
    ensures Adds(disk, Written(disk, p, data), p, {p})
  {
    PathBounds(p);
    hide Ancestors;
  }

  lemma NothingAdds(disk: map<Path, Node>, p: Path, written: set<Path>)
    ensures Adds(disk, disk, p, written)
  {
  }

  lemma AppliedTouches(cfg: Config, f: Entry, s: Box)
    ensures Touches(f, s, Applied(cfg, f, s).0)
  {
    hide Ancestors, Parents, DeleteEvents, RowOf, CanWrite, Written, WithDirs, CanMkdir, Adds, CanUpsertFile, CanUpsertDir;
    match f {
      case FileEntry(p, rev, _, _) =>
        if CanWrite(s.disk, p) {
          WrittenAdds(s.disk, p, cfg.remote(p, rev).data);
        }
        NothingAdds(s.disk, p, {p});
      case FolderEntry(p) =>
        WithDirsAdds(s.disk, p, |p|);
        NothingAdds(s.disk, p, {});
      case _ =>
    }
  }

  lemma PathBounds(p: Path)
    ensures forall q :: q in Ancestors(p, |p|) ==> q <= p
    ensures forall q :: q in Ancestors(p, ParentDepth(p)) ==> q <= p && q != p
    ensures forall q :: q in Parents(p) ==> q <= p
  {
    AncestorsAre(p, |p|);
    AncestorsAre(p, ParentDepth(p));
  }

  lemma PartialTouches(cfg: Config, f: Entry, s: Box, cut: Cut)
    ensures Touches(f, s, Partial(cfg, f, s, cut))
  {
    hide Ancestors, Parents, DeleteEvents, CanWrite, Written, WithDirs, CanMkdir, Adds;
    match f {
      case FileEntry(p, rev, _, _) =>
        NothingAdds(s.disk, p, {p});
        if cut.Made? && cut.depth <= |p| {
          WithDirsAdds(s.disk, p, cut.depth);
        }
        if CanWrite(s.disk, p) {
          WrittenAdds(s.disk, p, cfg.remote(p, rev).data);
        }
      case FolderEntry(p) =>
        NothingAdds(s.disk, p, {});
        if cut.Made? && cut.depth <= |p| {
          WithDirsAdds(s.disk, p, cut.depth);
        }
      case _ =>
    }
  }

  // ---- What the rest of a page leaves in place ------------------------------

  // The path of a file of the page, or an ancestor of one.
  predicate LeadsToFile(entries: seq<Entry>, q: Path) {
    exists i :: 0 <= i < |entries| && entries[i].FileEntry? && q <= entries[i].path
  }

  // The mark that an applied entry leaves in the index of files, by which a replay tells nothing new.
  predicate Marked(e: Entry, s: Box) {
    match e
    case FileEntry(_, _, _, _) => UpToDate(s, e)
    case DeletedEntry(p) => Under(s.files, p) == {}
    case _ => true
  }

  // What a state of a pass has in common with every later one: directories on the way to a file of the
  // page stay; elsewhere no file appears; and marks stay.
  ghost predicate Outlives(entries: seq<Entry>, a: Box, b: Box) {
    (forall q :: LeadsToFile(entries, q) ==>
       (q in a.dirs ==> q in b.dirs) && (q in a.disk && a.disk[q] == Dir ==> q in b.disk && b.disk[q] == Dir)) &&
    (forall q :: !LeadsToFile(entries, q) ==>
       (q in b.files ==> q in a.files) && (q in b.disk && b.disk[q].File? ==> q in a.disk && a.disk[q] == b.disk[q])) &&
    (forall i :: 0 <= i < |entries| && Marked(entries[i], a) ==> Marked(entries[i], b))
  }

  lemma OutlivesTwice(entries: seq<Entry>, a: Box, b: Box, c: Box)
    requires Outlives(entries, a, b) && Outlives(entries, b, c)
    ensures Outlives(entries, a, c)
  {
    hide LeadsToFile, Marked;
  }

  lemma OutlivesItself(entries: seq<Entry>, a: Box)
    ensures Outlives(entries, a, a)
  {
    hide LeadsToFile, Marked;
  }

  lemma Transitive(a: Path, b: Path, c: Path)
    requires a <= b && b <= c
    ensures a <= c
  {
  }

  // No deletion of a compatible page is on the way to one of its files.
  lemma NotDeleted(entries: seq<Entry>, j: nat, q: Path)
    requires Compatible(entries) && j < |entries| && entries[j].DeletedEntry? && LeadsToFile(entries, q)
    ensures !(entries[j].path <= q)
  {
    var i :| 0 <= i < |entries| && entries[i].FileEntry? && q <= entries[i].path;
    assert Agree(entries[j], entries[i]);
    if entries[j].path <= q {
      Transitive(entries[j].path, q, entries[i].path);
    }
  }

  lemma Leads(entries: seq<Entry>, j: nat, q: Path)
    requires j < |entries| && entries[j].FileEntry? && q <= entries[j].path
    ensures LeadsToFile(entries, q)
  {
  }

  lemma MarkStays(e: Entry, f: Entry, s: Box, t: Box)
    requires Marked(e, s) && Agree(e, f) && Agree(f, e) && Touches(f, s, t)
    ensures Marked(e, t)
  {
    hide Adds, Parents;
  }

  lemma EntryOutlives(entries: seq<Entry>, j: nat, s: Box, t: Box)
    requires Compatible(entries) && j < |entries| && Touches(entries[j], s, t)
    ensures Outlives(entries, s, t)
  {
    hide Parents, Marked, LeadsToFile;
    var f := entries[j];
    forall i | 0 <= i < |entries| && Marked(entries[i], s)
      ensures Marked(entries[i], t)
    {
      assert Agree(entries[i], f) && Agree(f, entries[i]);
      MarkStays(entries[i], f, s, t);
    }
    hide Compatible;
    if f.FileEntry? {
      Leads(entries, j, f.path);
    }
    forall q | LeadsToFile(entries, q) && f.DeletedEntry?
      ensures !(f.path <= q)
    {
      NotDeleted(entries, j, q);
    }
  }

  // ---- A replay up to the crash ---------------------------------------------

  // What a replay v from the state u of a crash has reached when the first pass had reached t: the
  // index of files and the events as they were at the crash; directories and nodes as in one of the two
  // states, and on the way to a file of the page as they were at the crash.
  ghost predicate Replaying(entries: seq<Entry>, t: Box, u: Box, v: Box) {
    v.files == u.files && v.events == u.events && v.cursor == u.cursor &&
    (forall q :: SameDir(v, u, q) || (SameDir(v, t, q) && !LeadsToFile(entries, q))) &&
    (forall q :: SameNode(v, u, q) || (SameNode(v, t, q) && !LeadsToFile(entries, q)))
  }

  lemma ReplayFile(cfg: Config, entries: seq<Entry>, j: nat, t: Box, t': Box, u: Box, v: Box)
    requires j < |entries| && entries[j].FileEntry? && Touches(entries[j], t, t') && Marked(entries[j], u) && Replaying(entries, t, u, v)
    ensures Applied(cfg, entries[j], v) == (v, true) && Replaying(entries, t', u, v)
  {
    hide LeadsToFile;
    PathBounds(entries[j].path);
    hide Parents;
    forall q | q <= entries[j].path
      ensures LeadsToFile(entries, q)
    {
      Leads(entries, j, q);
    }
  }

  lemma ReplayDelete(cfg: Config, entries: seq<Entry>, j: nat, t: Box, u: Box, v: Box)
    requires Compatible(entries) && j < |entries| && entries[j].DeletedEntry? && Marked(entries[j], u) && Replaying(entries, t, u, v)
    ensures Replaying(entries, Applied(cfg, entries[j], t).0, u, Applied(cfg, entries[j], v).0)
  {
    hide LeadsToFile, DeleteEvents;
    forall q | LeadsToFile(entries, q)
      ensures !(entries[j].path <= q)
    {
      NotDeleted(entries, j, q);
    }
    hide Compatible;
    assert Under(v.files, entries[j].path) == {};
    assert SubtreeDeleted(cfg, v, entries[j].path).files == v.files;
    var t', v' := Applied(cfg, entries[j], t).0, Applied(cfg, entries[j], v).0;
    forall q
      ensures SameDir(v', u, q) || (SameDir(v', t', q) && !LeadsToFile(entries, q))
      ensures SameNode(v', u, q) || (SameNode(v', t', q) && !LeadsToFile(entries, q))
    {
      assert SameDir(v, u, q) || (SameDir(v, t, q) && !LeadsToFile(entries, q));
      assert SameNode(v, u, q) || (SameNode(v, t, q) && !LeadsToFile(entries, q));
    }
  }

  // The folder can be made again: what would stand in its way stood there in the first pass.
  lemma FolderFits(cfg: Config, entries: seq<Entry>, p: Path, t: Box, t': Box, u: Box, v: Box)
    requires Applied(cfg, FolderEntry(p), t) == (t', true) && Outlives(entries, t', u) && Valid(u) && Replaying(entries, t, u, v)
    ensures CanMkdir(v.disk, p, |p|) && CanUpsertDir(v, p)
  {
    hide LeadsToFile, Ancestors, Parents, Marked;
    forall q | q in Ancestors(p, |p|) && q in v.disk
      ensures v.disk[q] == Dir
    {
      assert q in t'.disk && t'.disk[q] == Dir;
    }
    forall q | q in Parents(p) + {p}
      ensures q !in v.files
    {
      assert q in t'.dirs && q !in t.files && t'.files == t.files;
    }
  }

  lemma ReplayFolder(cfg: Config, entries: seq<Entry>, p: Path, t: Box, t': Box, u: Box, v: Box)
    requires Applied(cfg, FolderEntry(p), t) == (t', true) && Outlives(entries, t', u) && Valid(u) && Replaying(entries, t, u, v)
    ensures Applied(cfg, FolderEntry(p), v).1 && Replaying(entries, t', u, Applied(cfg, FolderEntry(p), v).0)
  {
    hide LeadsToFile, Ancestors, Parents, Marked;
    FolderFits(cfg, entries, p, t, t', u, v);
    var v' := Applied(cfg, FolderEntry(p), v).0;
    forall q
      ensures SameDir(v', u, q) || (SameDir(v', t', q) && !LeadsToFile(entries, q))
      ensures SameNode(v', u, q) || (SameNode(v', t', q) && !LeadsToFile(entries, q))
    {
      assert SameDir(v, u, q) || (SameDir(v, t, q) && !LeadsToFile(entries, q));
      assert SameNode(v, u, q) || (SameNode(v, t, q) && !LeadsToFile(entries, q));
    }
  }

  // One entry of the replay.
  lemma ReplayStep(cfg: Config, entries: seq<Entry>, j: nat, t: Box, u: Box, v: Box)
    requires Compatible(entries) && j < |entries| && Applied(cfg, entries[j], t).1
    requires Outlives(entries, Applied(cfg, entries[j], t).0, u) && Marked(entries[j], u) && Valid(u) && Replaying(entries, t, u, v)
    ensures Applied(cfg, entries[j], v).1 && Replaying(entries, Applied(cfg, entries[j], t).0, u, Applied(cfg, entries[j], v).0)
  {
    hide Replaying, Outlives, Valid, Compatible, Marked;
    match entries[j] {
      case FileEntry(_, _, _, _) =>
        AppliedTouches(cfg, entries[j], t);
        hide Applied, Touches;
        ReplayFile(cfg, entries, j, t, Applied(cfg, entries[j], t).0, u, v);
      case FolderEntry(p) =>
        hide Applied;
        ReplayFolder(cfg, entries, p, t, Applied(cfg, entries[j], t).0, u, v);
      case DeletedEntry(p) =>
        ReplayDelete(cfg, entries, j, t, u, v);
      case UnknownEntry =>
    }
  }

  lemma AppliedIsMarked(cfg: Config, e: Entry, s: Box)
    requires Applied(cfg, e, s).1 && Faithful(cfg, e)
    ensures Marked(e, Applied(cfg, e, s).0)
  {
    hide Ancestors, Parents, DeleteEvents;
  }

  // ---- A page over again ----------------------------------------------------

  lemma OneMore(cfg: Config, entries: seq<Entry>, i: nat, s: Box)
    requires i < |entries| && AppliedAll(cfg, entries[..i], s).1
    ensures AppliedAll(cfg, entries[..i + 1], s) == Applied(cfg, entries[i], AppliedAll(cfg, entries[..i], s).0)
  {
    hide Applied;
    assert entries[..i + 1][..i] == entries[..i];
  }

  // Two passes that agree up to an entry agree to the end.
  lemma {:induction false} AgreeOn(cfg: Config, entries: seq<Entry>, k: nat, n: nat, s: Box, t: Box)
    requires k <= n <= |entries| && AppliedAll(cfg, entries[..k], s) == AppliedAll(cfg, entries[..k], t)
    ensures AppliedAll(cfg, entries[..n], s) == AppliedAll(cfg, entries[..n], t)
  {
    hide Applied;
    if n > k {
      assert entries[..n][..n - 1] == entries[..n - 1];
      AgreeOn(cfg, entries, k, n - 1, s, t);
    }
  }

  lemma {:induction false} PrefixPasses(cfg: Config, entries: seq<Entry>, k: nat, s: Box)
    requires k <= |entries| && AppliedAll(cfg, entries, s).1
    ensures AppliedAll(cfg, entries[..k], s).1
    decreases |entries|
  {
    hide Applied;
    if k < |entries| {
      assert entries[..|entries| - 1][..k] == entries[..k];
      PrefixPasses(cfg, entries[..|entries| - 1], k, s);
    } else {
      assert entries[..k] == entries;
    }
  }

  lemma {:induction false} PassIsValid(cfg: Config, entries: seq<Entry>, s: Box)
    requires Valid(s)
    ensures Valid(AppliedAll(cfg, entries, s).0)
    decreases |entries|
  {
    hide Applied, Valid;
    if entries != [] {
      PassIsValid(cfg, entries[..|entries| - 1], s);
      AppliedIsValid(cfg, entries[|entries| - 1], AppliedAll(cfg, entries[..|entries| - 1], s).0);
    }
  }

  // Every state of a pass is outlived by a state that the pass, or an interruption of it, reached later.
  lemma {:induction false} PassOutlives(cfg: Config, entries: seq<Entry>, j: nat, i: nat, s: Box, u: Box)
    requires Compatible(entries) && j <= i <= |entries| && AppliedAll(cfg, entries[..i], s).1
    requires Outlives(entries, AppliedAll(cfg, entries[..i], s).0, u)
    ensures AppliedAll(cfg, entries[..j], s).1 && Outlives(entries, AppliedAll(cfg, entries[..j], s).0, u)
    decreases i - j
  {
    hide Applied, Outlives, Touches, Compatible;
    if j < i {
      assert entries[..i][..i - 1] == entries[..i - 1];
      var t := AppliedAll(cfg, entries[..i - 1], s).0;
      OneMore(cfg, entries, i - 1, s);
      hide AppliedAll;
      AppliedTouches(cfg, entries[i - 1], t);
      EntryOutlives(entries, i - 1, t, Applied(cfg, entries[i - 1], t).0);
      OutlivesTwice(entries, t, Applied(cfg, entries[i - 1], t).0, u);
      PassOutlives(cfg, entries, j, i - 1, s, u);
    }
  }

  // The replay of the entries before the crash gets through, and ends between the state before the
  // interrupted entry and the state of the crash.
  lemma {:induction false} ReplayUpTo(cfg: Config, entries: seq<Entry>, j: nat, i: nat, s: Box, u: Box)
    requires Compatible(entries) && AllFaithful(cfg, entries) && j <= i <= |entries| && AppliedAll(cfg, entries[..i], s).1
    requires Outlives(entries, AppliedAll(cfg, entries[..i], s).0, u) && Valid(u)
    ensures AppliedAll(cfg, entries[..j], s).1 && AppliedAll(cfg, entries[..j], u).1
    ensures Replaying(entries, AppliedAll(cfg, entries[..j], s).0, u, AppliedAll(cfg, entries[..j], u).0)
  {
    hide Applied, Outlives, Compatible, Valid, Replaying, Marked, Faithful;
    PassOutlives(cfg, entries, j, i, s, u);
    if j == 0 {
      ReplayBegins(entries, s, u);
    } else {
      ReplayUpTo(cfg, entries, j - 1, i, s, u);
      OneMore(cfg, entries, j - 1, s);
      OneMore(cfg, entries, j - 1, u);
      hide AppliedAll;
      var t, v := AppliedAll(cfg, entries[..j - 1], s).0, AppliedAll(cfg, entries[..j - 1], u).0;
      AppliedIsMarked(cfg, entries[j - 1], t);
      MarkOutlives(entries, j - 1, Applied(cfg, entries[j - 1], t).0, u);
      ReplayStep(cfg, entries, j - 1, t, u, v);
    }
  }

  lemma ReplayBegins(entries: seq<Entry>, s: Box, u: Box)
    ensures Replaying(entries, s, u, u)
  {
    hide LeadsToFile;
  }

  lemma MarkOutlives(entries: seq<Entry>, i: nat, a: Box, b: Box)
    requires i < |entries| && Outlives(entries, a, b) && Marked(entries[i], a)
    ensures Marked(entries[i], b)
  {
    hide LeadsToFile, Marked;
  }

  lemma ReplayingIsBetween(entries: seq<Entry>, t: Box, u: Box, v: Box)
    requires Replaying(entries, t, u, v)
    ensures Between(t, u, v)
  {
    hide LeadsToFile, SameDir, SameNode;
  }

  // One crash.
  lemma ReplayAfterCrash(cfg: Config, entries: seq<Entry>, s: Box, crash: Crash)
    requires Compatible(entries) && Valid(s) && AppliedAll(cfg, entries, s).1 && AllFaithful(cfg, entries)
    ensures var u := Crashed(cfg, entries, s, crash);
            Valid(u) && AppliedAll(cfg, entries, u) == AppliedAll(cfg, entries, s)
  {
    hide Applied, AppliedAll, Partial, Compatible, Valid, AllFaithful, Outlives, Replaying, Between, Touches;
    var n := |entries|;
    assert entries[..n] == entries;
    if crash.i >= n {
      var u := AppliedAll(cfg, entries, s).0;
      PassIsValid(cfg, entries, s);
      OutlivesItself(entries, u);
      ReplayUpTo(cfg, entries, n, n, s, u);
      ReplayingIsBetween(entries, u, u, AppliedAll(cfg, entries, u).0);
      BetweenSame(u, AppliedAll(cfg, entries, u).0);
    } else {
      var i, e := crash.i, entries[crash.i];
      PrefixPasses(cfg, entries, i, s);
      PrefixPasses(cfg, entries, i + 1, s);
      var t := AppliedAll(cfg, entries[..i], s).0;
      var u := Partial(cfg, e, t, crash.cut);
      PassIsValid(cfg, entries[..i], s);
      PartialIsValid(cfg, e, t, crash.cut);
      PartialTouches(cfg, e, t, crash.cut);
      EntryOutlives(entries, i, t, u);
      ReplayUpTo(cfg, entries, i, i, s, u);
      var v := AppliedAll(cfg, entries[..i], u).0;
      ReplayingIsBetween(entries, t, u, v);
      OneMore(cfg, entries, i, s);
      OneMore(cfg, entries, i, u);
      Restart(cfg, e, t, crash.cut, v);
      AgreeOn(cfg, entries, i + 1, n, u, s);
    }
  }

  // Exactly once: whatever number of crashes interrupts a page, and wherever, the replay that gets
  // through leaves the index, the directories, the disk, the event log and the cursor as a pass
  // without crashes would have. A page that would have got through still does.
  lemma {:induction false} ReplayIsExactlyOnce(cfg: Config, entries: seq<Entry>, cursor: string, s: Box,
          crashes: seq<Crash>)
    requires Compatible(entries) && Valid(s) && PageApplied(cfg, entries, cursor, s).1 && AllFaithful(cfg, entries)
    ensures PageApplied(cfg, entries, cursor, CrashedAll(cfg, entries, s, crashes)) == PageApplied(cfg, entries, cursor, s)
    decreases |crashes|
  {
    hide Crashed, AppliedAll, Compatible, AllFaithful, Valid;
    if crashes != [] {
      ReplayAfterCrash(cfg, entries, s, crashes[0]);
      ReplayIsExactlyOnce(cfg, entries, cursor, Crashed(cfg, entries, s, crashes[0]), crashes[1..]);
    }
  }

  // ---- Where it is not ------------------------------------------------------

  // The index lists what is asked of it and nothing else.
  ghost predicate Lists(cfg: Config) {
    forall paths: set<Path>, p: Path :: p in cfg.listed(paths) <==> p in paths
  }

  lemma DeletesTell(cfg: Config, s: Box, p: Path)
    requires Lists(cfg) && Under(s.files, p) != {}
    ensures |SubtreeDeleted(cfg, s, p).events| > |s.events|
  {
    var rows := Under(s.files, p);
    var q :| q in rows;
    assert q in cfg.listed(rows);
    forall r | r in cfg.listed(rows)
      ensures r in s.files
    {
      assert r in rows;
    }
    OneEventPerRow(s.files, cfg.listed(rows));
  }

  // An entry that tells no event leaves the files as they are, and its mark was there.
  lemma SilentIsMarked(cfg: Config, e: Entry, s: Box)
    requires Lists(cfg) && Applied(cfg, e, s).1
    ensures |Applied(cfg, e, s).0.events| >= |s.events|
    ensures |Applied(cfg, e, s).0.events| == |s.events| ==> Applied(cfg, e, s).0.files == s.files && Marked(e, s)
  {
    hide Parents, Ancestors, CanMkdir, CanWrite, Written, WithDirs, Removed, DeleteEvents, Lists;
    if e.DeletedEntry? && Under(s.files, e.path) != {} {
      DeletesTell(cfg, s, e.path);
    }
  }

  lemma {:induction false} SilentPass(cfg: Config, entries: seq<Entry>, n: nat, s: Box)
    requires Lists(cfg) && n <= |entries| && AppliedAll(cfg, entries[..n], s).1
    ensures var t := AppliedAll(cfg, entries[..n], s).0;
            |t.events| >= |s.events| &&
            (|t.events| == |s.events| ==> t.files == s.files && forall i :: 0 <= i < n ==> Marked(entries[i], s))
  {
    hide Applied, Lists, Marked;
    if n > 0 {
      assert entries[..n][..n - 1] == entries[..n - 1];
      SilentPass(cfg, entries, n - 1, s);
      var t := AppliedAll(cfg, entries[..n - 1], s).0;
      SilentIsMarked(cfg, entries[n - 1], t);
      if t.files == s.files {
        SameMark(entries[n - 1], s, t);
      }
    }
  }

  lemma SameMark(e: Entry, s: Box, t: Box)
    requires s.files == t.files
    ensures Marked(e, s) <==> Marked(e, t)
  {
  }

  // Marks of one state are those of entries that have no quarrel.
  lemma MarkedAgree(entries: seq<Entry>, s: Box)
    requires forall i :: 0 <= i < |entries| ==> Marked(entries[i], s)
    ensures Compatible(entries)
  {
    forall i, j | 0 <= i < |entries| && 0 <= j < |entries|
      ensures Agree(entries[i], entries[j])
    {
      assert Marked(entries[i], s) && Marked(entries[j], s);
      if entries[i].DeletedEntry? && entries[j].FileEntry? {
        IsUnder(s.files, entries[i].path, entries[j].path);
      }
    }
  }

  lemma IsUnder(files: map<Path, FileRow>, p: Path, q: Path)
    ensures q in Under(files, p) <==> q in files && p <= q
  {
  }

  // The replay of a page whose entries have a quarrel tells events again.
  lemma QuarrelIsTold(cfg: Config, entries: seq<Entry>, cursor: string, s: Box)
    requires Lists(cfg) && PageApplied(cfg, entries, cursor, s).1 && !Compatible(entries)
    ensures var u := AppliedAll(cfg, entries, s).0;
            PageApplied(cfg, entries, cursor, u).1 ==> |PageApplied(cfg, entries, cursor, u).0.events| > |u.events|
  {
    hide Lists, Compatible, Marked, AppliedAll;
    var u := AppliedAll(cfg, entries, s).0;
    assert entries[..|entries|] == entries;
    if AppliedAll(cfg, entries, u).1 {
      SilentPass(cfg, entries, |entries|, u);
      if |AppliedAll(cfg, entries, u).0.events| == |u.events| {
        MarkedAgree(entries, u);
      }
    }
  }

  // The exact condition: of the pages that would get through, those are applied once under every
  // sequence of crashes that give no path two revisions and delete no ancestor of a file they bring.
  lemma ReplayExactlyWhen(cfg: Config, entries: seq<Entry>, cursor: string, s: Box)
    requires Valid(s) && PageApplied(cfg, entries, cursor, s).1 && AllFaithful(cfg, entries) && Lists(cfg)
    ensures (forall crashes :: PageApplied(cfg, entries, cursor, CrashedAll(cfg, entries, s, crashes)) == PageApplied(cfg, entries, cursor, s))
            <==> Compatible(entries)
  {
    hide CrashedAll, Compatible, AllFaithful, Valid, Lists, PageApplied;
    if Compatible(entries) {
      forall crashes
        ensures PageApplied(cfg, entries, cursor, CrashedAll(cfg, entries, s, crashes)) == PageApplied(cfg, entries, cursor, s)
      {
        ReplayIsExactlyOnce(cfg, entries, cursor, s, crashes);
      }
    } else {
      var late := [Crash(|entries|, Untouched)];
      QuarrelIsTold(cfg, entries, cursor, s);
      LateCrash(cfg, entries, cursor, s);
      assert PageApplied(cfg, entries, cursor, CrashedAll(cfg, entries, s, late)) != PageApplied(cfg, entries, cursor, s);
    }
  }

  // A crash behind the last entry, before the cursor is written.
  lemma LateCrash(cfg: Config, entries: seq<Entry>, cursor: string, s: Box)
    requires PageApplied(cfg, entries, cursor, s).1
    ensures CrashedAll(cfg, entries, s, [Crash(|entries|, Untouched)]) == AppliedAll(cfg, entries, s).0
    ensures PageApplied(cfg, entries, cursor, s).0.events == AppliedAll(cfg, entries, s).0.events
  {
    hide AppliedAll;
    var late := [Crash(|entries|, Untouched)];
    assert late[1..] == [] && late[0] == Crash(|entries|, Untouched);
    var u := Crashed(cfg, entries, s, late[0]);
    assert u == AppliedAll(cfg, entries, s).0;
    assert CrashedAll(cfg, entries, u, []) == u;
    assert CrashedAll(cfg, entries, s, late) == CrashedAll(cfg, entries, u, late[1..]);
  }

  // ---- A page that failed ---------------------------------------------------

  lemma {:induction false} StopsBehind(cfg: Config, front: seq<Entry>, rest: seq<Entry>, s: Box, faults: nat -> Option<Cut>, n: nat)
    requires !TriedAll(cfg, front, s, faults, n).1
    ensures TriedAll(cfg, front + rest, s, faults, n) == TriedAll(cfg, front, s, faults, n)
    decreases |front|
  {
    hide Tried;
    assert (front + rest)[1..] == front[1..] + rest;
    var (t, ok) := Tried(cfg, front[0], s, faults(n));
    if ok {
      StopsBehind(cfg, front[1..], rest, t, faults, n + 1);
    }
  }

  // A page that met a fault is left as by a crash there, so that trying it again is a replay.
  lemma FaultIsCrash(cfg: Config, entries: seq<Entry>, s: Box, faults: nat -> Option<Cut>, i: nat)
    requires i < |entries| && !entries[i].UnknownEntry? && AppliedAll(cfg, entries[..i], s).1
    requires (forall j :: 0 <= j < i ==> faults(j).None?) && faults(i).Some?
    ensures TriedAll(cfg, entries, s, faults, 0) == (Crashed(cfg, entries, s, Crash(i, faults(i).value)), false)
  {
    hide TriedAll, AppliedAll, Partial, Applied;
    TriedIsApplied(cfg, entries[..i], s, faults);
    TriedSnoc(cfg, entries[..i], entries[i], s, faults, 0);
    var front := entries[..i] + [entries[i]];
    StopsBehind(cfg, front, entries[i + 1..], s, faults, 0);
    assert front + entries[i + 1..] == entries;
  }

  // ---- The shortest case ----------------------------------------------------

  const FOLDER: Path := ["a"]
  const INSIDE: Path := ["a", "b"]
  const WRITTEN := FileEntry(INSIDE, "1", "h", 1)
  const CREATED := FileEvent(Create, INSIDE, "1", "h", 1)
  const DELETED := FileEvent(Delete, INSIDE, "1", "h", 1)

  function Bare(events: seq<FileEvent>): Box {
    Box(map[], {}, map[], events, None)
  }

  function Stocked(events: seq<FileEvent>): Box {
    Box(map[INSIDE := FileRow("1", "h", 1)], {FOLDER}, map[FOLDER := Dir, INSIDE := File("x")], events, None)
  }

  lemma CreatesInside(cfg: Config, events: seq<FileEvent>)
    requires cfg.remote(INSIDE, "1") == Download("x", "1", "h", 1)
    ensures Applied(cfg, WRITTEN, Bare(events)) == (Stocked(events + [CREATED]), true)
  {
    assert INSIDE[..1] == FOLDER;
    assert Ancestors(INSIDE, 0) == {};
    assert Ancestors(INSIDE, 1) == {FOLDER};
    hide Ancestors;
    assert Written(map[], INSIDE, "x") == map[FOLDER := Dir, INSIDE := File("x")];
  }

  lemma DeletesNothing(cfg: Config, events: seq<FileEvent>)
    ensures Applied(cfg, DeletedEntry(FOLDER), Bare(events)) == (Bare(events), true)
  {
    hide DeleteEvents;
    var s := Bare(events);
    assert Under(s.files, FOLDER) == {};
    assert SubtreeDeleted(cfg, s, FOLDER) == s;
    assert Removed(s.disk, FOLDER, {}) == s.disk;
  }

  lemma TellsDeletion(files: map<Path, FileRow>)
    requires files == map[INSIDE := FileRow("1", "h", 1)]
    ensures Under(files, FOLDER) == {INSIDE} && DeleteEvents(files, [INSIDE]) == [DELETED]
  {
    assert INSIDE[..1] == FOLDER && FOLDER <= INSIDE;
    assert [INSIDE][..0] == [];
  }

  lemma DeletesFolder(cfg: Config, events: seq<FileEvent>)
    requires cfg.listed({INSIDE}) == [INSIDE]
    ensures Applied(cfg, DeletedEntry(FOLDER), Stocked(events)) == (Bare(events + [DELETED]), true)
  {
    hide DeleteEvents, Under;
    var s := Stocked(events);
    TellsDeletion(s.files);
    FolderIsAbove();
    var t := Applied(cfg, DeletedEntry(FOLDER), s).0;
    assert t.files == map[];
    assert t.dirs == {};
    assert t.disk == map[];
  }

  lemma FolderIsAbove()
    ensures FOLDER <= INSIDE && FOLDER <= FOLDER
  {
    assert INSIDE[..1] == FOLDER;
  }

  lemma Both(cfg: Config, e: Entry, f: Entry, s: Box)
    requires Applied(cfg, e, s).1
    ensures AppliedAll(cfg, [e, f], s) == Applied(cfg, f, Applied(cfg, e, s).0)
  {
    hide Applied;
    assert [e, f][..1] == [e] && [e][..0] == [];
    assert AppliedAll(cfg, [e], s) == Applied(cfg, e, s);
  }

  // A page that deletes a folder and then writes a file into it is not applied once when it is
  // replayed: the file is deleted and created again, with events for both.
  lemma DeletedAncestorIsReplayed(cfg: Config)
    requires cfg.remote(INSIDE, "1") == Download("x", "1", "h", 1) && cfg.listed({INSIDE}) == [INSIDE]
    ensures var entries := [DeletedEntry(FOLDER), WRITTEN];
            PageApplied(cfg, entries, "c", Bare([])).0.events == [CREATED] &&
            PageApplied(cfg, entries, "c", CrashedAll(cfg, entries, Bare([]), [Crash(2, Untouched)])).0.events == [CREATED, DELETED, CREATED]
  {
    hide Applied, AppliedAll;
    var entries := [DeletedEntry(FOLDER), WRITTEN];
    var once: seq<FileEvent> := [CREATED];
    DeletesNothing(cfg, []);
    DeletesFolder(cfg, once);
    CreatesInside(cfg, []);
    CreatesInside(cfg, once + [DELETED]);
    Both(cfg, DeletedEntry(FOLDER), WRITTEN, Bare([]));
    assert [] + [CREATED] == once;
    Both(cfg, DeletedEntry(FOLDER), WRITTEN, Stocked(once));
    assert CrashedAll(cfg, entries, Bare([]), [Crash(2, Untouched)]) == Stocked(once) by {
      assert [Crash(2, Untouched)][1..] == [];
    }
  }
}
