/** Copying a file tree and its SQLite databases while other processes keep writing them.
    The source is a timeline: its state at every instant. Each read of the copier happens at
    an instant of its own, down to the single byte of a file, so writers interleave with it in
    every possible way. */
module OnlineSnapshot {
  import opened Prelude

  type Content = seq<Byte>
  type Path = string
  type FileId = nat  // device and inode

  datatype Kind = Link | Directory | Regular | Sqlite | Special

  /** A directory entry: `target` is the text of a link. */
  datatype Node = Node(kind: Kind, mode: nat, id: FileId, target: Content)

  /** A database file: its committed content and how often it has been committed to. */
  datatype Database = Database(rows: Content, commits: nat)

  /** Names, the bytes of the files they name, and the databases kept in them. */
  datatype Source = Source(nodes: map<Path, Node>, files: map<FileId, Content>, databases: map<FileId, Database>)

  type Timeline = nat -> Source

  // ----- What can be read at an instant -----

  function NodeAt(tl: Timeline, p: Path, t: nat): Option<Node> {
    if p in tl(t).nodes then Some(tl(t).nodes[p]) else None
  }

  function KindAt(tl: Timeline, p: Path, t: nat): Option<Kind> {
    match NodeAt(tl, p, t) case Some(n) => Some(n.kind) case None => None
  }

  function ModeAt(tl: Timeline, p: Path, t: nat): Option<nat> {
    match NodeAt(tl, p, t) case Some(n) => Some(n.mode) case None => None
  }

  function IdAt(tl: Timeline, p: Path, t: nat): Option<FileId> {
    match NodeAt(tl, p, t) case Some(n) => Some(n.id) case None => None
  }

  function TargetAt(tl: Timeline, p: Path, t: nat): Option<Content> {
    match NodeAt(tl, p, t) case Some(n) => Some(n.target) case None => None
  }

  function FileAt(tl: Timeline, id: FileId, t: nat): Content {
    if id in tl(t).files then tl(t).files[id] else []
  }

  /** One byte of a file; None is the end of the file. */
  function ByteAt(tl: Timeline, id: FileId, i: nat, t: nat): Option<Byte> {
    if i < |FileAt(tl, id, t)| then Some(FileAt(tl, id, t)[i]) else None
  }

  function DatabaseAt(tl: Timeline, id: FileId, t: nat): Database {
    if id in tl(t).databases then tl(t).databases[id] else Database([], 0)
  }

  // ----- An undisturbed source -----

  /** Nothing changes from `start` on. */
  ghost predicate Quiet(tl: Timeline, start: nat) {
    forall t: nat | start <= t :: tl(t) == tl(start)
  }

  lemma QuietLater(tl: Timeline, start: nat, later: nat)
    requires Quiet(tl, start) && start <= later
    ensures Quiet(tl, later) && tl(later) == tl(start)
  {
  }

  /** No device, socket or pipe among the paths. */
  ghost predicate NoSpecial(tl: Timeline, universe: set<Path>, t: nat) {
    forall p | p in universe :: KindAt(tl, p, t) != Some(Special)
  }

  /** Nothing changes from `start` on, and nothing is special. */
  ghost predicate AtRest(tl: Timeline, universe: set<Path>, start: nat) {
    Quiet(tl, start) && NoSpecial(tl, universe, start)
  }

  lemma AtRestLater(tl: Timeline, universe: set<Path>, start: nat, later: nat)
    requires AtRest(tl, universe, start) && start <= later
    ensures AtRest(tl, universe, later) && tl(later) == tl(start)
  {
  }

  /** A path at rest that is not special. */
  ghost predicate Legible(tl: Timeline, p: Path, start: nat) {
    Quiet(tl, start) && NodeAt(tl, p, start).Some? && KindAt(tl, p, start) != Some(Special)
  }

  /** A path once found is there to be read. */
  lemma PathAtRest(tl: Timeline, universe: set<Path>, p: Path, start: nat, found: nat, now: nat)
    requires p in universe && start <= found && start <= now && KindAt(tl, p, found).Some?
    ensures AtRest(tl, universe, start) ==> Legible(tl, p, now)
  {
    if AtRest(tl, universe, start) {
      assert tl(found) == tl(start) && tl(now) == tl(start);
    }
  }

  /** The paths to be copied: all there are, but for what stands beside a database. */
  ghost predicate ToCopy(tl: Timeline, universe: set<Path>, t: nat, p: Path) {
    && p in universe && NodeAt(tl, p, t).Some?
    && forall q | q in universe && KindAt(tl, q, t) == Some(Sqlite) ::
         p != q + "-wal" && p != q + "-shm" && p != q + "-journal"
  }

  /** The copy of what is at the path. */
  ghost function CopyAt(tl: Timeline, p: Path, t: nat): Copy
    requires NodeAt(tl, p, t).Some? && KindAt(tl, p, t) != Some(Special)
  {
    var n := NodeAt(tl, p, t).value;
    match n.kind
    case Link => LinkCopy(n.target)
    case Directory => DirectoryCopy(n.mode)
    case Regular => FileCopy(n.mode, FileAt(tl, n.id, t))
    case Sqlite => DatabaseCopy(n.mode, DatabaseAt(tl, n.id, t).rows)
  }

  /** Exactly the paths to be copied, each with its copy. */
  ghost predicate WholeCopy(tl: Timeline, universe: set<Path>, t: nat, copies: map<Path, Copy>)
    requires NoSpecial(tl, universe, t)
  {
    && (forall p :: p in copies <==> ToCopy(tl, universe, t, p))
    && (forall p | p in copies :: ToCopy(tl, universe, t, p) && copies[p] == CopyAt(tl, p, t))
  }

  // ----- Assumptions about the writers -----

  /** `q` is a write-ahead log, shared memory or rollback journal beside database `p`. */
  predicate Sidecar(p: Path, q: Path) {
    q == p + "-wal" || q == p + "-shm" || q == p + "-journal"
  }

  ghost predicate DatabaseThroughout(tl: Timeline, p: Path, start: nat, end: nat) {
    forall t: nat | start <= t <= end :: KindAt(tl, p, t) == Some(Sqlite)
  }

  /** A path the copier looks at; sidecars of databases come and go as they please. */
  ghost predicate Tracked(tl: Timeline, universe: set<Path>, p: Path, start: nat, end: nat) {
    p in universe && forall q | q in universe && Sidecar(q, p) :: !DatabaseThroughout(tl, q, start, end)
  }

  /** The file was a tracked regular file at some instant of the interval. */
  ghost predicate TrackedFile(tl: Timeline, universe: set<Path>, id: FileId, start: nat, end: nat) {
    exists p, t: nat | start <= t <= end ::
      Tracked(tl, universe, p, start, end) && IdAt(tl, p, t) == Some(id) && KindAt(tl, p, t) == Some(Regular)
  }

  /** Nothing that changes during the interval returns to an earlier value within it: no name,
      kind, mode, identity or link target of a tracked path, and no byte of a tracked file. */
  ghost predicate NoReturn(tl: Timeline, universe: set<Path>, start: nat, end: nat) {
    && (forall p | Tracked(tl, universe, p, start, end) :: PathNoReturn(tl, p, start, end))
    && (forall id: FileId | TrackedFile(tl, universe, id, start, end) :: FileNoReturn(tl, id, start, end))
  }

  ghost predicate PathNoReturn(tl: Timeline, p: Path, start: nat, end: nat) {
    && (forall a, b, c | start <= a <= b <= c <= end && KindAt(tl, p, a) == KindAt(tl, p, c) ::
          KindAt(tl, p, b) == KindAt(tl, p, a))
    && (forall a, b, c | start <= a <= b <= c <= end && ModeAt(tl, p, a) == ModeAt(tl, p, c) ::
          ModeAt(tl, p, b) == ModeAt(tl, p, a))
    && (forall a, b, c | start <= a <= b <= c <= end && IdAt(tl, p, a) == IdAt(tl, p, c) ::
          IdAt(tl, p, b) == IdAt(tl, p, a))
    && (forall a, b, c | start <= a <= b <= c <= end && TargetAt(tl, p, a) == TargetAt(tl, p, c) ::
          TargetAt(tl, p, b) == TargetAt(tl, p, a))
  }

  ghost predicate FileNoReturn(tl: Timeline, id: FileId, start: nat, end: nat) {
    forall i, a, b, c | start <= a <= b <= c <= end && ByteAt(tl, id, i, a) == ByteAt(tl, id, i, c) ::
      ByteAt(tl, id, i, b) == ByteAt(tl, id, i, a)
  }

  /** `PRAGMA data_version`: commits are counted, and content changes only with them. */
  ghost predicate VersionsCount(tl: Timeline) {
    && (forall id, a: nat, b: nat | a <= b :: DatabaseAt(tl, id, a).commits <= DatabaseAt(tl, id, b).commits)
    && (forall id, a: nat, b: nat | a <= b && DatabaseAt(tl, id, a).commits == DatabaseAt(tl, id, b).commits ::
          DatabaseAt(tl, id, a).rows == DatabaseAt(tl, id, b).rows)
  }

  ghost predicate Injective(digest: Content -> string) {
    forall a, b | digest(a) == digest(b) :: a == b
  }

  // ----- Inventory -----

  datatype Entry =
    | LinkEntry(mode: nat, target: Content)
    | DirectoryEntry(mode: nat)
    | FileEntry(mode: nat, checksum: string, id: FileId)
    | DatabaseEntry(mode: nat, id: FileId)

  /** The instants at which one path was listed, its metadata read and its content read; the
      bytes of a file are read from `read` to `done`. */
  datatype Reads = Reads(listed: nat, stat: nat, read: nat, done: nat)

  predicate Within(r: Reads, start: nat, end: nat) {
    start <= r.listed <= end && start <= r.stat <= end && start <= r.read <= r.done <= end
  }

  /** That byte, or the end of the file, was seen there at some instant of the interval. */
  ghost predicate Saw(tl: Timeline, id: FileId, i: nat, byte: Option<Byte>, start: nat, end: nat) {
    exists t: nat | start <= t <= end :: ByteAt(tl, id, i, t) == byte
  }

  /** The content was read from start to end of the file, each byte at an instant of its own. */
  ghost predicate ReadFrom(tl: Timeline, id: FileId, content: Content, start: nat, end: nat) {
    && (forall i: nat | i < |content| :: Saw(tl, id, i, Some(content[i]), start, end))
    && Saw(tl, id, |content|, None, start, end)
  }

  /** The checksum is that of some content so read. */
  ghost predicate Summed(tl: Timeline, digest: Content -> string, id: FileId, checksum: string, start: nat, end: nat) {
    exists content :: ReadFrom(tl, id, content, start, end) && digest(content) == checksum
  }

  /** The entry is what those reads of the path show; None is a path that was not listed. */
  ghost predicate Shows(tl: Timeline, digest: Content -> string, p: Path, r: Reads, entry: Option<Entry>) {
    match entry
    case None => KindAt(tl, p, r.listed) == None
    case Some(LinkEntry(mode, target)) =>
      ModeAt(tl, p, r.stat) == Some(mode) && KindAt(tl, p, r.read) == Some(Link)
      && TargetAt(tl, p, r.read) == Some(target)
    case Some(DirectoryEntry(mode)) =>
      ModeAt(tl, p, r.stat) == Some(mode) && KindAt(tl, p, r.read) == Some(Directory)
    case Some(FileEntry(mode, checksum, id)) =>
      ModeAt(tl, p, r.stat) == Some(mode) && IdAt(tl, p, r.stat) == Some(id) && KindAt(tl, p, r.read) == Some(Regular)
      && Summed(tl, digest, id, checksum, r.read, r.done)
    case Some(DatabaseEntry(mode, id)) =>
      ModeAt(tl, p, r.stat) == Some(mode) && IdAt(tl, p, r.stat) == Some(id) && KindAt(tl, p, r.read) == Some(Sqlite)
  }

  /** The entry of what is at the path. */
  ghost function EntryAt(tl: Timeline, digest: Content -> string, p: Path, t: nat): Entry
    requires NodeAt(tl, p, t).Some? && KindAt(tl, p, t) != Some(Special)
  {
    var n := NodeAt(tl, p, t).value;
    match n.kind
    case Link => LinkEntry(n.mode, n.target)
    case Directory => DirectoryEntry(n.mode)
    case Regular => FileEntry(n.mode, digest(FileAt(tl, n.id, t)), n.id)
    case Sqlite => DatabaseEntry(n.mode, n.id)
  }

  /** Every path there is, with its entry. */
  ghost predicate WholeInventory(tl: Timeline, digest: Content -> string, universe: set<Path>, t: nat,
                                 raw: map<Path, Entry>)
    requires NoSpecial(tl, universe, t)
  {
    && (forall p | p in universe :: p in raw <==> NodeAt(tl, p, t).Some?)
    && (forall p | p in raw :: p in universe && NodeAt(tl, p, t).Some? && raw[p] == EntryAt(tl, digest, p, t))
  }

  function DropSidecars(raw: map<Path, Entry>): map<Path, Entry> {
    map q | q in raw && !exists p | p in raw && raw[p].DatabaseEntry? :: Sidecar(p, q) :: raw[q]
  }

  function Find(entries: map<Path, Entry>, p: Path): Option<Entry> {
    if p in entries then Some(entries[p]) else None
  }

  /** Time passes: some instant from `now` on. */
  method Later(now: nat) returns (t: nat)
    ensures now <= t
  {
    var delay: int := *;
    t := if delay > 0 then now + delay else now;
  }

  /** How an attempt ends: with a value, because the source moved under it, or otherwise. */
  datatype Outcome<+T> = Got(value: T) | SourceChanged | Failed

  /** The file was longer at some instant of the interval than at its beginning. */
  ghost predicate Grew(tl: Timeline, id: FileId, start: nat, end: nat) {
    exists t: nat | start <= t <= end :: |FileAt(tl, id, t)| > |FileAt(tl, id, start)|
  }

  // Why a capture may fail for good although no deadline passes.

  ghost predicate SawSpecial(tl: Timeline, universe: set<Path>, start: nat, end: nat) {
    exists p, t: nat | p in universe && start <= t <= end :: KindAt(tl, p, t) == Some(Special)
  }

  ghost predicate SawGrowth(tl: Timeline, start: nat, end: nat) {
    exists id, a: nat, b: nat | start <= a <= b <= end :: Grew(tl, id, a, b)
  }

  /** A database was there and then was not. */
  ghost predicate LostDatabase(tl: Timeline, universe: set<Path>, start: nat, end: nat) {
    exists p, a: nat, b: nat | p in universe && start <= a <= b <= end ::
      KindAt(tl, p, a) == Some(Sqlite) && IdAt(tl, p, b) == None
  }

  ghost predicate Excused(tl: Timeline, universe: set<Path>, start: nat, end: nat) {
    SawSpecial(tl, universe, start, end) || SawGrowth(tl, start, end) || LostDatabase(tl, universe, start, end)
  }

  lemma ExcusedWider(tl: Timeline, universe: set<Path>, start: nat, a: nat, b: nat, end: nat)
    requires start <= a <= b <= end && Excused(tl, universe, a, b)
    ensures Excused(tl, universe, start, end)
  {
    if SawSpecial(tl, universe, a, b) {
      var p, t: nat :| p in universe && a <= t <= b && KindAt(tl, p, t) == Some(Special);
      assert SawSpecial(tl, universe, start, end);
    } else if SawGrowth(tl, a, b) {
      var id, c: nat, d: nat :| a <= c <= d <= b && Grew(tl, id, c, d);
      assert SawGrowth(tl, start, end);
    } else {
      var p, c: nat, d: nat :| p in universe && a <= c <= d <= b
                               && KindAt(tl, p, c) == Some(Sqlite) && IdAt(tl, p, d) == None;
      assert LostDatabase(tl, universe, start, end);
    }
  }

  /** Reads an open file in pieces of any size, each at its own instant, until one finds the
      end. A reliable reader gives up only on a file that grows. */
  method ReadFile(tl: Timeline, id: FileId, start: nat, reliable: bool) returns (content: Outcome<Content>, end: nat)
    ensures start <= end && !content.SourceChanged?
    ensures content.Got? ==> ReadFrom(tl, id, content.value, start, end)
    ensures reliable && content.Failed? ==> Grew(tl, id, start, end)
    ensures reliable && Quiet(tl, start) ==> content.Got?
  {
    end := start;
    var read: Content := [];
    var patience: int := *;
    var length := |FileAt(tl, id, start)|;
    if reliable && patience <= length {
      patience := length + 1;
    }
    while patience > 0
      invariant start <= end
      invariant forall i: nat | i < |read| :: Saw(tl, id, i, Some(read[i]), start, end)
      invariant read == [] || exists t: nat | start <= t <= end :: |read| <= |FileAt(tl, id, t)|
      invariant reliable ==> |read| + patience > length
    {
      ghost var before := end;
      end := Later(end);
      var now := FileAt(tl, id, end);
      forall i: nat | i < |read| ensures Saw(tl, id, i, Some(read[i]), start, end) {
        assert Saw(tl, id, i, Some(read[i]), start, before);
      }
      if |read| >= |now| {
        assert ByteAt(tl, id, |read|, end) == None;
        return Got(read), end;
      }
      var size: int := *;
      var n := if 1 <= size <= |now| - |read| then size else 1;
      forall i: nat | |read| <= i < |read| + n ensures Saw(tl, id, i, Some(now[i]), start, end) {
        assert ByteAt(tl, id, i, end) == Some(now[i]);
      }
      read := read + now[|read|..|read| + n];
      patience := patience - 1;
    }
    content := Failed;
  }

  /** One path: metadata, then content. A path that neither vanished nor was replaced
      is refused only if it is special, or a file that grows. */
  method ReadEntry(tl: Timeline, digest: Content -> string, p: Path, start: nat, reliable: bool)
    returns (entry: Outcome<Entry>, end: nat, ghost stat: nat, ghost read: nat)
    ensures start <= stat <= read <= end
    ensures entry.Got? ==> forall listed :: Shows(tl, digest, p, Reads(listed, stat, read, end), Some(entry.value))
    ensures reliable && entry.Failed? ==> KindAt(tl, p, read) == Some(Special) || SawGrowth(tl, start, end)
    ensures reliable && Legible(tl, p, start) ==> entry.Got?
  {
    var now := Later(start);
    stat := now;
    var info := NodeAt(tl, p, now);
    now := Later(now);
    read, end := now, now;
    var node := NodeAt(tl, p, now);
    if info.None? || node.None? {
      return SourceChanged, end, stat, read;
    }
    var mode, id := info.value.mode, info.value.id;
    match node.value.kind
    case Link => entry := Got(LinkEntry(mode, node.value.target));
    case Directory => entry := Got(DirectoryEntry(mode));
    case Special => entry := Failed;
    case Regular =>
      if node.value.id != id {
        return SourceChanged, end, stat, read;
      }
      var content;
      if Quiet(tl, start) {
        QuietLater(tl, start, now);
      }
      content, end := ReadFile(tl, id, now, reliable);
      entry := if content.Got? then Got(FileEntry(mode, digest(content.value), id)) else Failed;
    case Sqlite =>
      entry := if node.value.id == id then Got(DatabaseEntry(mode, id)) else SourceChanged;
  }

  lemma EntryExcused(tl: Timeline, universe: set<Path>, p: Path, read: nat, start: nat, before: nat, end: nat)
    requires p in universe && start <= before <= read <= end
    requires KindAt(tl, p, read) == Some(Special) || SawGrowth(tl, before, end)
    ensures Excused(tl, universe, start, end)
  {
    if KindAt(tl, p, read) == Some(Special) {
      assert SawSpecial(tl, universe, start, end);
    } else {
      ExcusedWider(tl, universe, start, before, end, end);
    }
  }

  /** The paths found, each looked for at an instant of its own. */
  method ListTree(tl: Timeline, universe: set<Path>, start: nat)
    returns (listed: set<Path>, end: nat, ghost when: map<Path, nat>)
    ensures start <= end && listed <= universe
    ensures forall p | p in universe :: p in when && start <= when[p] <= end
    ensures forall p | p in universe && p !in listed :: KindAt(tl, p, when[p]) == None
    ensures forall p | p in listed :: KindAt(tl, p, when[p]).Some?
  {
    end, listed, when := start, {}, map[];
    var left := universe;
    while left != {}
      invariant start <= end && left <= universe && listed <= universe
      invariant forall p | p in universe && p !in left :: p in when && start <= when[p] <= end
      invariant forall p | p in universe && p !in left && p !in listed :: KindAt(tl, p, when[p]) == None
      invariant forall p | p in listed :: p !in left && KindAt(tl, p, when[p]).Some?
      decreases |left|
    {
      var p :| p in left;
      end := Later(end);
      if KindAt(tl, p, end).Some? {
        listed := listed + {p};
      }
      when := when[p := end];
      left := left - {p};
    }
  }

  /** Every path of the universe was read in that interval, with what the reads show recorded. */
  ghost predicate InventoryOf(tl: Timeline, digest: Content -> string, universe: set<Path>, raw: map<Path, Entry>,
                              times: map<Path, Reads>, start: nat, end: nat)
  {
    && raw.Keys <= universe && times.Keys == universe
    && forall p | p in universe :: Within(times[p], start, end) && Shows(tl, digest, p, times[p], Find(raw, p))
  }

  lemma InventoryLater(tl: Timeline, digest: Content -> string, universe: set<Path>, raw: map<Path, Entry>,
                       times: map<Path, Reads>, start: nat, end: nat, later: nat)
    requires InventoryOf(tl, digest, universe, raw, times, start, end) && end <= later
    ensures InventoryOf(tl, digest, universe, raw, times, start, later)
  {
  }

  /** Every path was looked for when it was listed, and read within the interval. */
  ghost predicate TimesWithin(times: map<Path, Reads>, when: map<Path, nat>, start: nat, end: nat) {
    forall p | p in times :: p in when && Within(times[p], start, end) && times[p].listed == when[p]
  }

  ghost predicate ShowsAll(tl: Timeline, digest: Content -> string, times: map<Path, Reads>, found: map<Path, Entry>) {
    forall p | p in found :: p in times && Shows(tl, digest, p, times[p], Some(found[p]))
  }

  /** All but the paths in `left` have been read. */
  ghost predicate Gathered(tl: Timeline, digest: Content -> string, universe: set<Path>, listed: set<Path>,
                           left: set<Path>, when: map<Path, nat>, times: map<Path, Reads>, found: map<Path, Entry>,
                           start: nat, end: nat)
  {
    && times.Keys == universe && found.Keys == listed - left
    && TimesWithin(times, when, start, end) && ShowsAll(tl, digest, times, found)
  }

  lemma GatheredMore(tl: Timeline, digest: Content -> string, universe: set<Path>, listed: set<Path>,
                     left: set<Path>, when: map<Path, nat>, times: map<Path, Reads>, found: map<Path, Entry>,
                     start: nat, before: nat, p: Path, r: Reads, entry: Entry)
    requires Gathered(tl, digest, universe, listed, left, when, times, found, start, before)
    requires p in left && left <= listed <= universe && p in when && r.listed == when[p]
    requires start <= before <= r.stat <= r.read <= r.done && Shows(tl, digest, p, r, Some(entry))
    ensures Gathered(tl, digest, universe, listed, left - {p}, when, times[p := r], found[p := entry], start, r.done)
  {
  }

  /** `inventory`: the whole tree is listed, then every listed path is read. */
  method Inventory(tl: Timeline, digest: Content -> string, universe: set<Path>, start: nat, reliable: bool)
    returns (entries: Outcome<map<Path, Entry>>, end: nat,
             ghost raw: map<Path, Entry>, ghost times: map<Path, Reads>)
    ensures start <= end
    ensures entries.Got? ==>
              entries.value == DropSidecars(raw) && InventoryOf(tl, digest, universe, raw, times, start, end)
    ensures reliable && AtRest(tl, universe, start) ==> entries.Got?
    ensures reliable && entries.Failed? ==> Excused(tl, universe, start, end)
  {
    var listed;
    ghost var when;
    listed, end, when := ListTree(tl, universe, start);
    ghost var found;
    entries, end, found, times := ReadListed(tl, digest, universe, listed, when, start, end, reliable);
    raw := found;
  }

  /** Reads every listed path. */
  method ReadListed(tl: Timeline, digest: Content -> string, universe: set<Path>, listed: set<Path>,
                    ghost when: map<Path, nat>, start: nat, now: nat, reliable: bool)
    returns (entries: Outcome<map<Path, Entry>>, end: nat,
             ghost raw: map<Path, Entry>, ghost times: map<Path, Reads>)
    requires start <= now && listed <= universe
    requires forall p | p in universe :: p in when && start <= when[p] <= now
    requires forall p | p in universe :: p in listed <==> KindAt(tl, p, when[p]).Some?
    ensures start <= end
    ensures entries.Got? ==>
              entries.value == DropSidecars(raw) && InventoryOf(tl, digest, universe, raw, times, start, end)
    ensures reliable && AtRest(tl, universe, start) ==> entries.Got?
    ensures reliable && entries.Failed? ==> Excused(tl, universe, start, end)
  {
    end := now;
    times := map p | p in universe :: Reads(when[p], when[p], when[p], when[p]);
    var found: map<Path, Entry> := map[];
    var left := listed;
    while left != {}
      invariant start <= end && left <= listed
      invariant Gathered(tl, digest, universe, listed, left, when, times, found, start, end)
      decreases |left|
    {
      var p :| p in left;
      ghost var before := end;
      var entry;
      ghost var stat, read;
      PathAtRest(tl, universe, p, start, when[p], end);
      entry, end, stat, read := ReadEntry(tl, digest, p, end, reliable);
      if !entry.Got? {
        if reliable && entry.Failed? {
          EntryExcused(tl, universe, p, read, start, before, end);
        }
        return if entry.Failed? then Failed else SourceChanged, end, map[], map[];
      }
      GatheredMore(tl, digest, universe, listed, left, when, times, found, start, before, p,
                   Reads(when[p], stat, read, end), entry.value);
      times := times[p := Reads(when[p], stat, read, end)];
      found := found[p := entry.value];
      left := left - {p};
    }
    FoundIsInventory(tl, digest, universe, listed, found, times, when, start, end);
    return Got(DropSidecars(found)), end, found, times;
  }

  lemma FoundIsInventory(tl: Timeline, digest: Content -> string, universe: set<Path>, listed: set<Path>,
                         found: map<Path, Entry>, times: map<Path, Reads>, when: map<Path, nat>, start: nat, end: nat)
    requires listed <= universe <= when.Keys
    requires Gathered(tl, digest, universe, listed, {}, when, times, found, start, end)
    requires forall p | p in universe && p !in listed :: KindAt(tl, p, when[p]) == None
    ensures InventoryOf(tl, digest, universe, found, times, start, end)
  {
  }

  // ----- Copying -----

  datatype Copy =
    | LinkCopy(target: Content)
    | DirectoryCopy(mode: nat)
    | FileCopy(mode: nat, content: Content)
    | DatabaseCopy(mode: nat, rows: Content)

  /** An open connection: the database file it times, the version it saw and when. */
  datatype Observer = Observer(id: FileId, version: nat, since: nat)

  /** The copy is exactly the object at that path at that instant. */
  ghost predicate CopyOf(tl: Timeline, p: Path, t: nat, copy: Copy) {
    match NodeAt(tl, p, t)
    case None => false
    case Some(n) =>
      match copy
      case LinkCopy(target) => n.kind == Link && n.target == target
      case DirectoryCopy(mode) => n.kind == Directory && n.mode == mode
      case FileCopy(mode, content) => n.kind == Regular && n.mode == mode && FileAt(tl, n.id, t) == content
      case DatabaseCopy(mode, rows) => n.kind == Sqlite && n.mode == mode && DatabaseAt(tl, n.id, t).rows == rows
  }

  /** The destination is the source at one instant: everything copied is as it was there, and
      what was not copied was not there or belongs to a copied database. */
  ghost predicate Faithful(tl: Timeline, universe: set<Path>, t: nat, copies: map<Path, Copy>) {
    && copies.Keys <= universe
    && (forall p | p in copies :: CopyOf(tl, p, t, copies[p]))
    && (forall p | p in universe && p !in copies :: NodeAt(tl, p, t) == None || BesideDatabase(copies, p))
    && (forall p, q | p in copies && copies[p].DatabaseCopy? && Sidecar(p, q) :: q !in copies)
  }

  /** The path is a sidecar of the database, or of something attached to it. */
  predicate Attached(q: Path, p: Path)
    decreases |p|
  {
    Sidecar(q, p) || exists m | m in Prefixes(p) && Sidecar(m, p) :: Attached(q, m)
  }

  function Prefixes(p: Path): set<Path> {
    set n | 0 <= n < |p| :: p[..n]
  }

  ghost predicate BesideDatabase(copies: map<Path, Copy>, p: Path) {
    exists q | q in copies && copies[q].DatabaseCopy? :: Attached(q, p)
  }

  /** Each copy was made from its entry: what the entry fixes, and for a database the rows its
      observer showed at some instant before `now`. */
  ghost predicate CopiedFrom(tl: Timeline, digest: Content -> string, entry: Entry, copy: Copy,
                             observer: Option<Observer>, now: nat)
  {
    match entry
    case LinkEntry(_, target) => copy == LinkCopy(target)
    case DirectoryEntry(mode) => copy == DirectoryCopy(mode)
    case FileEntry(mode, checksum, _) => copy.FileCopy? && copy.mode == mode && digest(copy.content) == checksum
    case DatabaseEntry(mode, _) =>
      && copy.DatabaseCopy? && copy.mode == mode && observer.Some?
      && exists t | observer.value.since <= t <= now :: DatabaseAt(tl, observer.value.id, t).rows == copy.rows
  }

  /** Opens one observer per database entry and times its version. */
  method Observe(tl: Timeline, entries: map<Path, Entry>, start: nat)
    returns (observers: Outcome<map<Path, Observer>>, end: nat)
    ensures start <= end
    ensures observers.Got? ==>
              forall p | p in entries && entries[p].DatabaseEntry? ::
                p in observers.value && Observing(tl, p, observers.value[p], start, end)
    ensures Quiet(tl, start) && (forall p | p in entries :: NodeAt(tl, p, start).Some?) ==> observers.Got?
    ensures !observers.Got? ==>
              exists p | p in entries && entries[p].DatabaseEntry? :: IdAt(tl, p, end) == None
    ensures observers.Got? ==>
              forall p | p in observers.value :: p in entries && Observing(tl, p, observers.value[p], start, end)
  {
    var now := start;
    var result: map<Path, Observer> := map[];
    var left := entries.Keys;
    while left != {}
      invariant start <= now && left <= entries.Keys
      invariant forall p | p in entries && p !in left && entries[p].DatabaseEntry? ::
                  p in result && Observing(tl, p, result[p], start, now)
      invariant forall p | p in result :: p in entries && Observing(tl, p, result[p], start, now)
      decreases |left|
    {
      var p :| p in left;
      if entries[p].DatabaseEntry? {
        now := Later(now);
        var id := IdAt(tl, p, now);
        if id.None? {
          return Failed, now;
        }
        result := result[p := Observer(id.value, DatabaseAt(tl, id.value, now).commits, now)];
      }
      left := left - {p};
    }
    return Got(result), now;
  }

  /** The observers' versions are those of their databases. */
  ghost predicate Current(tl: Timeline, observers: map<Path, Observer>, t: nat) {
    forall p | p in observers :: DatabaseAt(tl, observers[p].id, t).commits == observers[p].version
  }

  /** The connection was opened through the path, and saw that version, at `o.since`. */
  ghost predicate Observing(tl: Timeline, p: Path, o: Observer, start: nat, end: nat) {
    start <= o.since <= end && IdAt(tl, p, o.since) == Some(o.id)
    && DatabaseAt(tl, o.id, o.since).commits == o.version
  }

  /** One object, copied; a regular file is checked against its entry after copying. */
  method CopyEntry(tl: Timeline, digest: Content -> string, p: Path, entry: Entry, observer: Option<Observer>,
                   start: nat, reliable: bool)
    returns (copy: Outcome<Copy>, end: nat)
    requires entry.DatabaseEntry? ==> observer.Some? && observer.value.since <= start
    ensures start <= end
    ensures copy.Got? ==> CopiedFrom(tl, digest, entry, copy.value, observer, end)
    ensures reliable && copy.Failed? ==> SawGrowth(tl, start, end)
    ensures reliable && Quiet(tl, start) && Stands(tl, digest, p, entry, start) ==> copy.Got?
  {
    var now := Later(start);
    end := now;
    match entry
    case LinkEntry(_, target) => copy := Got(LinkCopy(target));
    case DirectoryEntry(mode) => copy := Got(DirectoryCopy(mode));
    case DatabaseEntry(mode, _) =>
      copy := Got(DatabaseCopy(mode, DatabaseAt(tl, observer.value.id, now).rows));
    case FileEntry(mode, checksum, id) =>
      var node := NodeAt(tl, p, now);
      if node.None? || node.value.id != id {
        return SourceChanged, end;
      }
      var content;
      if Quiet(tl, start) {
        QuietLater(tl, start, now);
      }
      content, end := ReadFile(tl, id, now, reliable);
      if Quiet(tl, start) && content.Got? {
        ContentAtRest(tl, id, content.value, start, now, end);
      }
      copy := if !content.Got? then Failed
              else if digest(content.value) != checksum then SourceChanged
              else Got(FileCopy(mode, content.value));
  }

  method CopyAll(tl: Timeline, digest: Content -> string, entries: map<Path, Entry>, observers: map<Path, Observer>,
                 start: nat, reliable: bool)
    returns (copies: Outcome<map<Path, Copy>>, end: nat)
    requires forall p | p in entries && entries[p].DatabaseEntry? :: p in observers && observers[p].since <= start
    ensures start <= end
    ensures copies.Got? ==>
              && copies.value.Keys == entries.Keys
              && forall p | p in entries ::
                   CopiedFrom(tl, digest, entries[p], copies.value[p], ObserverOf(observers, p), end)
    ensures reliable && Quiet(tl, start) && Standing(tl, digest, entries, start) ==> copies.Got?
    ensures reliable && copies.Failed? ==> SawGrowth(tl, start, end)
  {
    var now := start;
    var result: map<Path, Copy> := map[];
    var left := entries.Keys;
    while left != {}
      invariant start <= now && left <= entries.Keys && result.Keys == entries.Keys - left
      invariant forall p | p in result :: CopiedFrom(tl, digest, entries[p], result[p], ObserverOf(observers, p), now)
      decreases |left|
    {
      var p :| p in left;
      var copy;
      ghost var before := now;
      if Quiet(tl, start) && Standing(tl, digest, entries, start) {
        StandsLater(tl, digest, p, entries[p], start, now);
      }
      copy, now := CopyEntry(tl, digest, p, entries[p], ObserverOf(observers, p), now, reliable);
      if !copy.Got? {
        if reliable && copy.Failed? {
          GrowthWider(tl, start, before, now);
        }
        return if copy.Failed? then Failed else SourceChanged, now;
      }
      forall q | q in result ensures CopiedFrom(tl, digest, entries[q], result[q], ObserverOf(observers, q), now) {
        CopiedFromLater(tl, digest, entries[q], result[q], ObserverOf(observers, q), before, now);
      }
      result := result[p := copy.value];
      left := left - {p};
    }
    return Got(result), now;
  }

  /** The entry is that of its path. */
  ghost predicate Stands(tl: Timeline, digest: Content -> string, p: Path, entry: Entry, t: nat) {
    NodeAt(tl, p, t).Some? && KindAt(tl, p, t) != Some(Special) && entry == EntryAt(tl, digest, p, t)
  }

  ghost predicate Standing(tl: Timeline, digest: Content -> string, entries: map<Path, Entry>, t: nat) {
    forall p | p in entries :: Stands(tl, digest, p, entries[p], t)
  }

  lemma StandsLater(tl: Timeline, digest: Content -> string, p: Path, entry: Entry, start: nat, now: nat)
    requires Quiet(tl, start) && start <= now && Stands(tl, digest, p, entry, start)
    ensures Quiet(tl, now) && Stands(tl, digest, p, entry, now)
  {
    QuietLater(tl, start, now);
  }

  lemma ByteAtRest(tl: Timeline, id: FileId, i: nat, byte: Option<Byte>, start: nat, from: nat, to: nat)
    requires Quiet(tl, start) && start <= from <= to && Saw(tl, id, i, byte, from, to)
    ensures ByteAt(tl, id, i, start) == byte
  {
    var t: nat :| from <= t <= to && ByteAt(tl, id, i, t) == byte;
    assert tl(t) == tl(start);
  }

  /** What is read of a file at rest is the file. */
  lemma ContentAtRest(tl: Timeline, id: FileId, content: Content, start: nat, from: nat, to: nat)
    requires Quiet(tl, start) && start <= from <= to && ReadFrom(tl, id, content, from, to)
    ensures content == FileAt(tl, id, start)
  {
    forall i: nat | i < |content| ensures ByteAt(tl, id, i, start) == Some(content[i]) {
      ByteAtRest(tl, id, i, Some(content[i]), start, from, to);
    }
    ByteAtRest(tl, id, |content|, None, start, from, to);
    SameBytes(content, FileAt(tl, id, start), tl, id, start);
  }

  lemma SameBytes(content: Content, file: Content, tl: Timeline, id: FileId, t: nat)
    requires file == FileAt(tl, id, t) && ByteAt(tl, id, |content|, t) == None
    requires forall i: nat | i < |content| :: ByteAt(tl, id, i, t) == Some(content[i])
    ensures content == file
  {
    assert |file| <= |content|;
    if |content| > 0 {
      var last: nat := |content| - 1;
      assert ByteAt(tl, id, last, t) == Some(content[last]);
      assert last < |file|;
    }
    assert |file| == |content|;
    forall i: nat | i < |content| ensures content[i] == file[i] {
      assert ByteAt(tl, id, i, t) == Some(content[i]);
    }
  }

  function ObserverOf(observers: map<Path, Observer>, p: Path): Option<Observer> {
    if p in observers then Some(observers[p]) else None
  }

  lemma GrowthWider(tl: Timeline, start: nat, from: nat, end: nat)
    requires start <= from && SawGrowth(tl, from, end)
    ensures SawGrowth(tl, start, end)
  {
    var id, a: nat, b: nat :| from <= a <= b <= end && Grew(tl, id, a, b);
  }

  lemma CopiedFromLater(tl: Timeline, digest: Content -> string, entry: Entry, copy: Copy,
                        observer: Option<Observer>, now: nat, later: nat)
    requires CopiedFrom(tl, digest, entry, copy, observer, now) && now <= later
    ensures CopiedFrom(tl, digest, entry, copy, observer, later)
  {
  }

  /** Every observer still sees the version it first saw. */
  method Unchanged(tl: Timeline, observers: map<Path, Observer>, start: nat)
    returns (same: bool, end: nat, ghost checked: map<Path, nat>)
    ensures start <= end
    ensures same ==>
              forall p | p in observers ::
                   p in checked && start <= checked[p] <= end
                   && DatabaseAt(tl, observers[p].id, checked[p]).commits == observers[p].version
    ensures Quiet(tl, start) && Current(tl, observers, start) ==> same
  {
    var now := start;
    checked := map[];
    var left := observers.Keys;
    while left != {}
      invariant start <= now && left <= observers.Keys
      invariant forall p | p in observers && p !in left ::
                  p in checked && start <= checked[p] <= now
                  && DatabaseAt(tl, observers[p].id, checked[p]).commits == observers[p].version
      decreases |left|
    {
      var p :| p in left;
      now := Later(now);
      if DatabaseAt(tl, observers[p].id, now).commits != observers[p].version {
        return false, now, checked;
      }
      checked := checked[p := now];
      left := left - {p};
    }
    return true, now, checked;
  }

  // ----- One instant -----

  /** A file whose bytes read the same twice had them at every instant in between. */
  lemma ContentAtInstant(tl: Timeline, id: FileId, content: Content, r1: Reads, r2: Reads, start: nat, t: nat, end: nat)
    requires FileNoReturn(tl, id, start, end) && Within(r1, start, t) && Within(r2, t, end)
    requires ReadFrom(tl, id, content, r1.read, r1.done) && ReadFrom(tl, id, content, r2.read, r2.done)
    ensures FileAt(tl, id, t) == content
  {
    forall i: nat | i <= |content|
      ensures ByteAt(tl, id, i, t) == if i < |content| then Some(content[i]) else None
    {
      var byte := if i < |content| then Some(content[i]) else None;
      assert Saw(tl, id, i, byte, r1.read, r1.done) && Saw(tl, id, i, byte, r2.read, r2.done);
      var a: nat :| r1.read <= a <= r1.done && ByteAt(tl, id, i, a) == byte;
      var c: nat :| r2.read <= c <= r2.done && ByteAt(tl, id, i, c) == byte;
    }
    assert ByteAt(tl, id, |content|, t) == None;
    assert |content| > 0 ==> ByteAt(tl, id, |content| - 1, t).Some?;
    forall i: nat | i < |content| ensures i < |FileAt(tl, id, t)| && FileAt(tl, id, t)[i] == content[i] {
      assert ByteAt(tl, id, i, t) == Some(content[i]);
    }
  }

  lemma FileAtInstant(tl: Timeline, digest: Content -> string, universe: set<Path>, p: Path, r1: Reads, r2: Reads,
                      checksum: string, id: FileId, start: nat, t: nat, end: nat)
    requires Injective(digest) && NoReturn(tl, universe, start, end) && Tracked(tl, universe, p, start, end)
    requires Within(r1, start, t) && Within(r2, t, end)
    requires IdAt(tl, p, t) == Some(id) && KindAt(tl, p, t) == Some(Regular)
    requires Summed(tl, digest, id, checksum, r1.read, r1.done) && Summed(tl, digest, id, checksum, r2.read, r2.done)
    ensures digest(FileAt(tl, id, t)) == checksum
  {
    assert TrackedFile(tl, universe, id, start, end);
    var content :| ReadFrom(tl, id, content, r1.read, r1.done) && digest(content) == checksum;
    ContentAtInstant(tl, id, content, r1, r2, start, t, end);
  }

  /** What an entry says of its path at one instant. */
  ghost predicate Describes(tl: Timeline, digest: Content -> string, p: Path, entry: Option<Entry>, t: nat) {
    match entry
    case None => NodeAt(tl, p, t) == None
    case Some(LinkEntry(mode, target)) =>
      NodeAt(tl, p, t).Some? && var n := NodeAt(tl, p, t).value; n.kind == Link && n.mode == mode && n.target == target
    case Some(DirectoryEntry(mode)) =>
      NodeAt(tl, p, t).Some? && var n := NodeAt(tl, p, t).value; n.kind == Directory && n.mode == mode
    case Some(FileEntry(mode, checksum, id)) =>
      NodeAt(tl, p, t).Some?
      && var n := NodeAt(tl, p, t).value;
         n.kind == Regular && n.mode == mode && n.id == id && digest(FileAt(tl, id, t)) == checksum
    case Some(DatabaseEntry(mode, id)) =>
      NodeAt(tl, p, t).Some? && var n := NodeAt(tl, p, t).value; n.kind == Sqlite && n.mode == mode && n.id == id
  }

  /** What both inventories show of a path was so at every instant between them. */
  lemma EntryAtInstant(tl: Timeline, digest: Content -> string, universe: set<Path>, p: Path, r1: Reads, r2: Reads,
                       entry: Option<Entry>, start: nat, t: nat, end: nat)
    requires Injective(digest) && NoReturn(tl, universe, start, end) && Tracked(tl, universe, p, start, end)
    requires Within(r1, start, t) && Within(r2, t, end)
    requires Shows(tl, digest, p, r1, entry) && Shows(tl, digest, p, r2, entry)
    ensures Describes(tl, digest, p, entry, t)
  {
    assert PathNoReturn(tl, p, start, end);
    if entry.None? {
      assert KindAt(tl, p, t) == KindAt(tl, p, r1.listed);
    } else {
      assert ModeAt(tl, p, t) == ModeAt(tl, p, r1.stat);
      assert KindAt(tl, p, t) == KindAt(tl, p, r1.read);
      if entry.value.FileEntry? || entry.value.DatabaseEntry? {
        assert IdAt(tl, p, t) == IdAt(tl, p, r1.stat);
      }
      if entry.value.LinkEntry? {
        assert TargetAt(tl, p, t) == TargetAt(tl, p, r1.read);
      }
      if entry.value.FileEntry? {
        FileAtInstant(tl, digest, universe, p, r1, r2, entry.value.checksum, entry.value.id, start, t, end);
      }
    }
  }

  /** A database whose observer sees the same version at the end had the copied rows throughout. */
  lemma RowsAtInstant(tl: Timeline, p: Path, o: Observer, id: FileId, stat1: nat, stat2: nat, copied: nat, checked: nat,
                      start: nat, t: nat, end: nat)
    requires PathNoReturn(tl, p, start, end) && VersionsCount(tl)
    requires start <= stat1 <= o.since <= copied <= t <= stat2 <= end && t <= checked
    requires IdAt(tl, p, stat1) == IdAt(tl, p, stat2) == Some(id) && IdAt(tl, p, o.since) == Some(o.id)
    requires DatabaseAt(tl, o.id, o.since).commits == o.version == DatabaseAt(tl, o.id, checked).commits
    ensures o.id == id && DatabaseAt(tl, id, t).rows == DatabaseAt(tl, id, copied).rows
  {
    assert IdAt(tl, p, o.since) == IdAt(tl, p, stat1);
    assert DatabaseAt(tl, id, o.since).commits <= DatabaseAt(tl, id, copied).commits;
    assert DatabaseAt(tl, id, copied).commits <= DatabaseAt(tl, id, t).commits;
    assert DatabaseAt(tl, id, t).commits <= DatabaseAt(tl, id, checked).commits;
  }

  lemma CopyAtInstant(tl: Timeline, digest: Content -> string, universe: set<Path>, p: Path, r1: Reads, r2: Reads,
                      entry: Entry, copy: Copy, observer: Option<Observer>, checked: nat,
                      start: nat, opening: nat, t: nat, end: nat)
    requires Injective(digest) && NoReturn(tl, universe, start, end) && Tracked(tl, universe, p, start, end)
    requires VersionsCount(tl)
    requires Within(r1, start, opening) && opening <= t && Within(r2, t, end)
    requires Shows(tl, digest, p, r1, Some(entry)) && Shows(tl, digest, p, r2, Some(entry))
    requires CopiedFrom(tl, digest, entry, copy, observer, t)
    requires entry.DatabaseEntry? ==>
               && observer.Some? && Observing(tl, p, observer.value, opening, t) && t <= checked
               && DatabaseAt(tl, observer.value.id, checked).commits == observer.value.version
    ensures CopyOf(tl, p, t, copy)
  {
    EntryAtInstant(tl, digest, universe, p, r1, r2, Some(entry), start, t, end);
    if entry.DatabaseEntry? {
      var o := observer.value;
      var copied :| o.since <= copied <= t && DatabaseAt(tl, o.id, copied).rows == copy.rows;
      RowsAtInstant(tl, p, o, entry.id, r1.stat, r2.stat, copied, checked, start, t, end);
    }
  }

  lemma AttachedSidecar(q: Path, m: Path, p: Path)
    requires Sidecar(m, p) && (q == m || Attached(q, m))
    ensures Attached(q, p)
  {
    assert m == p[..|m|];
    assert m in Prefixes(p);
  }

  /** A database is kept, or attached to one that is. */
  lemma {:induction false} KeptRoot(raw: map<Path, Entry>, p: Path) returns (q: Path)
    requires p in raw && raw[p].DatabaseEntry?
    ensures q in DropSidecars(raw) && raw[q].DatabaseEntry? && (q == p || Attached(q, p))
    decreases |p|
  {
    if p in DropSidecars(raw) {
      q := p;
    } else {
      var m :| m in raw && raw[m].DatabaseEntry? && Sidecar(m, p);
      q := KeptRoot(raw, m);
      AttachedSidecar(q, m, p);
    }
  }

  /** The path is attached to a database among the entries. */
  ghost predicate Beside(entries: map<Path, Entry>, p: Path) {
    exists q | q in entries && entries[q].DatabaseEntry? :: Attached(q, p)
  }

  /** Whatever stands beside a database is attached to a kept one. */
  lemma BesideKept(raw: map<Path, Entry>, m: Path, p: Path)
    requires m in raw && raw[m].DatabaseEntry? && Sidecar(m, p)
    ensures Beside(DropSidecars(raw), p)
  {
    var q := KeptRoot(raw, m);
    AttachedSidecar(q, m, p);
  }

  /** A path that is not tracked stands beside a database of every inventory. */
  lemma UntrackedIsBeside(tl: Timeline, digest: Content -> string, universe: set<Path>, raw: map<Path, Entry>,
                          times: map<Path, Reads>, from: nat, to: nat, p: Path, start: nat, end: nat)
    requires InventoryOf(tl, digest, universe, raw, times, from, to) && start <= from <= to <= end
    requires p in universe && !Tracked(tl, universe, p, start, end)
    ensures p !in DropSidecars(raw) && Beside(DropSidecars(raw), p)
  {
    var q :| q in universe && Sidecar(q, p) && DatabaseThroughout(tl, q, start, end);
    assert Within(times[q], from, to) && Shows(tl, digest, q, times[q], Find(raw, q));
    assert KindAt(tl, q, times[q].listed) == Some(Sqlite) && KindAt(tl, q, times[q].read) == Some(Sqlite);
    assert q in raw && raw[q].DatabaseEntry?;
    BesideKept(raw, q, p);
  }

  lemma DroppedIsBeside(raw: map<Path, Entry>, p: Path)
    requires p in raw && p !in DropSidecars(raw)
    ensures Beside(DropSidecars(raw), p)
  {
    var m :| m in raw && raw[m].DatabaseEntry? && Sidecar(m, p);
    BesideKept(raw, m, p);
  }

  /** A path left out was absent at the instant, or is attached to a copied database. */
  lemma MissingAtInstant(tl: Timeline, digest: Content -> string, universe: set<Path>, p: Path, e: Evidence,
                         copies: map<Path, Copy>, start: nat, t: nat, end: nat)
    requires Injective(digest) && NoReturn(tl, universe, start, end)
    requires Inventoried(tl, digest, universe, e, start, t, end)
    requires copies.Keys == DropSidecars(e.raw1).Keys && p in universe && p !in copies
    requires forall q | q in copies && DropSidecars(e.raw1)[q].DatabaseEntry? :: copies[q].DatabaseCopy?
    ensures NodeAt(tl, p, t) == None || BesideDatabase(copies, p)
  {
    if !Tracked(tl, universe, p, start, end) {
      UntrackedIsBeside(tl, digest, universe, e.raw1, e.times1, start, e.opening, p, start, end);
    } else if p in e.raw1 {
      DroppedIsBeside(e.raw1, p);
    } else if p in e.raw2 {
      DroppedIsBeside(e.raw2, p);
    } else {
      EntryAtInstant(tl, digest, universe, p, e.times1[p], e.times2[p], None, start, t, end);
    }
  }

  /** What a capture has read: two inventories with the instants of their reads, the observers
      with the instants of their last check, and the instant the first observer was opened. */
  datatype Evidence = Evidence(raw1: map<Path, Entry>, times1: map<Path, Reads>,
                               raw2: map<Path, Entry>, times2: map<Path, Reads>,
                               observers: map<Path, Observer>, checked: map<Path, nat>, opening: nat)

  /** The two inventories, and the entries they agree on. */
  ghost predicate Inventoried(tl: Timeline, digest: Content -> string, universe: set<Path>, e: Evidence,
                              start: nat, t: nat, end: nat)
  {
    && start <= e.opening <= t <= end
    && DropSidecars(e.raw1) == DropSidecars(e.raw2)
    && InventoryOf(tl, digest, universe, e.raw1, e.times1, start, e.opening)
    && InventoryOf(tl, digest, universe, e.raw2, e.times2, t, end)
  }

  /** The copies made from those entries, with every observer unchanged from its opening to
      after the second inventory. */
  ghost predicate Copied(tl: Timeline, digest: Content -> string, e: Evidence, copies: map<Path, Copy>, t: nat) {
    var entries := DropSidecars(e.raw1);
    && copies.Keys == entries.Keys
    && (forall p | p in entries :: CopiedFrom(tl, digest, entries[p], copies[p], ObserverOf(e.observers, p), t))
    && (forall p | p in entries && entries[p].DatabaseEntry? ::
          p in e.observers && Observing(tl, p, e.observers[p], e.opening, t))
    && (forall p | p in e.observers ::
          p in e.checked && t <= e.checked[p]
          && DatabaseAt(tl, e.observers[p].id, e.checked[p]).commits == e.observers[p].version)
  }

  /** Everything `capture` has checked when it returns normally; copying ended at `t`. */
  ghost predicate Checked(tl: Timeline, digest: Content -> string, universe: set<Path>, e: Evidence,
                          copies: map<Path, Copy>, start: nat, t: nat, end: nat)
  {
    Inventoried(tl, digest, universe, e, start, t, end) && Copied(tl, digest, e, copies, t)
  }

  lemma CopiesAtInstant(tl: Timeline, digest: Content -> string, universe: set<Path>, e: Evidence,
                        copies: map<Path, Copy>, start: nat, t: nat, end: nat, p: Path)
    requires Injective(digest) && NoReturn(tl, universe, start, end) && VersionsCount(tl)
    requires Checked(tl, digest, universe, e, copies, start, t, end) && p in copies
    ensures CopyOf(tl, p, t, copies[p])
    ensures DropSidecars(e.raw1)[p].DatabaseEntry? <==> copies[p].DatabaseCopy?
  {
    var entry := DropSidecars(e.raw1)[p];
    assert Find(e.raw1, p) == Find(e.raw2, p) == Some(entry) by {
      assert DropSidecars(e.raw2)[p] == entry;
    }
    assert CopiedFrom(tl, digest, entry, copies[p], ObserverOf(e.observers, p), t);
    assert Tracked(tl, universe, p, start, end) by {
      if !Tracked(tl, universe, p, start, end) {
        UntrackedIsBeside(tl, digest, universe, e.raw1, e.times1, start, e.opening, p, start, end);
      }
    }
    CopyAtInstant(tl, digest, universe, p, e.times1[p], e.times2[p], entry, copies[p], ObserverOf(e.observers, p),
                  if p in e.checked then e.checked[p] else t, start, e.opening, t, end);
  }

  /** All of that together makes the destination the source at the single instant `t`. */
  lemma OneInstant(tl: Timeline, digest: Content -> string, universe: set<Path>, e: Evidence,
                   copies: map<Path, Copy>, start: nat, t: nat, end: nat)
    requires Injective(digest) && NoReturn(tl, universe, start, end) && VersionsCount(tl)
    requires Checked(tl, digest, universe, e, copies, start, t, end)
    ensures Faithful(tl, universe, t, copies)
  {
    forall p | p in copies
      ensures CopyOf(tl, p, t, copies[p]) && (DropSidecars(e.raw1)[p].DatabaseEntry? <==> copies[p].DatabaseCopy?)
    {
      CopiesAtInstant(tl, digest, universe, e, copies, start, t, end, p);
    }
    forall p | p in universe && p !in copies ensures NodeAt(tl, p, t) == None || BesideDatabase(copies, p) {
      MissingAtInstant(tl, digest, universe, p, e, copies, start, t, end);
    }
  }

  /** An inventory of a source at rest is exactly what is there. */
  lemma InventoryAtRest(tl: Timeline, digest: Content -> string, universe: set<Path>, raw: map<Path, Entry>,
                        times: map<Path, Reads>, start: nat, end: nat)
    requires AtRest(tl, universe, start) && InventoryOf(tl, digest, universe, raw, times, start, end)
    ensures WholeInventory(tl, digest, universe, start, raw)
    ensures forall now: nat | start <= now :: Standing(tl, digest, DropSidecars(raw), now)
  {
    forall p | p in universe
      ensures p in raw <==> NodeAt(tl, p, start).Some?
      ensures p in raw ==> Stands(tl, digest, p, raw[p], start)
    {
      assert Within(times[p], start, end) && Shows(tl, digest, p, times[p], Find(raw, p));
      EntryAtRest(tl, digest, universe, p, times[p], Find(raw, p), start, end);
    }
    forall now: nat, p | start <= now && p in DropSidecars(raw)
      ensures Stands(tl, digest, p, DropSidecars(raw)[p], now)
    {
      assert p in raw && p in universe;
      StandsLater(tl, digest, p, raw[p], start, now);
    }
  }

  lemma EntryAtRest(tl: Timeline, digest: Content -> string, universe: set<Path>, p: Path, r: Reads,
                    entry: Option<Entry>, start: nat, end: nat)
    requires AtRest(tl, universe, start) && p in universe && Within(r, start, end) && Shows(tl, digest, p, r, entry)
    ensures entry.Some? <==> NodeAt(tl, p, start).Some?
    ensures entry.Some? ==> Stands(tl, digest, p, entry.value, start)
  {
    assert tl(r.listed) == tl(start) && tl(r.stat) == tl(start) && tl(r.read) == tl(start);
    if entry.Some? && entry.value.FileEntry? {
      var e := entry.value;
      var content :| ReadFrom(tl, e.id, content, r.read, r.done) && digest(content) == e.checksum;
      ContentAtRest(tl, e.id, content, start, r.read, r.done);
    }
  }

  /** Two inventories of the same source are the same. */
  lemma SameInventory(tl: Timeline, digest: Content -> string, universe: set<Path>, t: nat, a: map<Path, Entry>,
                      b: map<Path, Entry>)
    requires NoSpecial(tl, universe, t)
    requires WholeInventory(tl, digest, universe, t, a) && WholeInventory(tl, digest, universe, t, b)
    ensures a == b
  {
  }

  lemma KeptMeans(tl: Timeline, digest: Content -> string, universe: set<Path>, t: nat, raw: map<Path, Entry>, p: Path)
    requires NoSpecial(tl, universe, t) && WholeInventory(tl, digest, universe, t, raw)
    ensures p in DropSidecars(raw) <==> ToCopy(tl, universe, t, p)
  {
    forall q | q in universe ensures KindAt(tl, q, t) == Some(Sqlite) <==> q in raw && raw[q].DatabaseEntry? {
      if q in raw {
        assert raw[q] == EntryAt(tl, digest, q, t);
      }
    }
    if p in DropSidecars(raw) {
      forall q | q in universe && KindAt(tl, q, t) == Some(Sqlite)
        ensures p != q + "-wal" && p != q + "-shm" && p != q + "-journal"
      {
        assert !Sidecar(q, p);
      }
    }
  }

  /** A copy made from the entry of a path at rest is the copy of the path. */
  lemma CopyAtRest(tl: Timeline, digest: Content -> string, p: Path, entry: Entry, copy: Copy,
                   observer: Option<Observer>, start: nat, now: nat)
    requires Injective(digest) && Quiet(tl, start) && Stands(tl, digest, p, entry, start)
    requires CopiedFrom(tl, digest, entry, copy, observer, now)
    requires entry.DatabaseEntry? ==> observer.Some? && Observing(tl, p, observer.value, start, now)
    ensures copy == CopyAt(tl, p, start)
  {
    if entry.DatabaseEntry? {
      var o := observer.value;
      var t: nat :| o.since <= t <= now && DatabaseAt(tl, o.id, t).rows == copy.rows;
      assert tl(t) == tl(start) && tl(o.since) == tl(start);
    }
  }

  /** The copies of a source at rest are all of it. */
  lemma CopiesAtRest(tl: Timeline, digest: Content -> string, universe: set<Path>, e: Evidence, copies: map<Path, Copy>,
                     start: nat, t: nat, end: nat)
    requires Injective(digest) && AtRest(tl, universe, start)
    requires Inventoried(tl, digest, universe, e, start, t, end) && Copied(tl, digest, e, copies, t)
    ensures WholeCopy(tl, universe, start, copies)
  {
    InventoryAtRest(tl, digest, universe, e.raw1, e.times1, start, e.opening);
    forall p ensures p in copies <==> ToCopy(tl, universe, start, p) {
      KeptMeans(tl, digest, universe, start, e.raw1, p);
    }
    forall p | p in copies ensures copies[p] == CopyAt(tl, p, start) {
      var entry := DropSidecars(e.raw1)[p];
      assert Stands(tl, digest, p, entry, start);
      assert CopiedFrom(tl, digest, entry, copies[p], ObserverOf(e.observers, p), t);
      CopyAtRest(tl, digest, p, entry, copies[p], ObserverOf(e.observers, p), start, t);
    }
  }

  /** The observers of a source at rest see no new version. */
  lemma CurrentAtRest(tl: Timeline, observers: map<Path, Observer>, start: nat, opening: nat, end: nat, now: nat)
    requires Quiet(tl, start) && start <= opening <= end <= now
    requires forall p | p in observers :: Observing(tl, p, observers[p], opening, end)
    ensures Quiet(tl, now) && Current(tl, observers, now)
  {
    QuietLater(tl, start, now);
    forall p | p in observers ensures DatabaseAt(tl, observers[p].id, now).commits == observers[p].version {
      assert Observing(tl, p, observers[p], opening, end);
      assert tl(observers[p].since) == tl(start);
    }
  }

  lemma LostIsExcused(tl: Timeline, digest: Content -> string, universe: set<Path>, raw: map<Path, Entry>,
                      times: map<Path, Reads>, start: nat, opening: nat, end: nat)
    requires InventoryOf(tl, digest, universe, raw, times, start, opening) && opening <= end
    requires exists p | p in DropSidecars(raw) && DropSidecars(raw)[p].DatabaseEntry? :: IdAt(tl, p, end) == None
    ensures Excused(tl, universe, start, end)
  {
    var p :| p in DropSidecars(raw) && DropSidecars(raw)[p].DatabaseEntry? && IdAt(tl, p, end) == None;
    assert p in raw && p in universe && raw[p].DatabaseEntry?;
    assert Within(times[p], start, opening) && Shows(tl, digest, p, times[p], Find(raw, p));
    assert KindAt(tl, p, times[p].read) == Some(Sqlite);
    assert LostDatabase(tl, universe, start, end);
  }

  /** The first inventory and the copies made from it. */
  method CopyTree(tl: Timeline, digest: Content -> string, universe: set<Path>, start: nat, reliable: bool)
    returns (entries: map<Path, Entry>, observers: map<Path, Observer>, copies: Outcome<map<Path, Copy>>, end: nat,
             ghost raw: map<Path, Entry>, ghost times: map<Path, Reads>, ghost opening: nat)
    ensures start <= opening <= end
    ensures copies.Got? ==> copies.value.Keys == entries.Keys
    ensures copies.Got? ==>
              && entries == DropSidecars(raw) && InventoryOf(tl, digest, universe, raw, times, start, opening)
              && (forall p | p in entries && p in copies.value ::
                    CopiedFrom(tl, digest, entries[p], copies.value[p], ObserverOf(observers, p), end))
              && (forall p | p in entries && entries[p].DatabaseEntry? ::
                    p in observers && Observing(tl, p, observers[p], opening, end))
    ensures reliable && AtRest(tl, universe, start) ==> copies.Got?
    ensures reliable && copies.Failed? ==> Excused(tl, universe, start, end)
    ensures copies.Got? ==> forall p | p in observers :: p in entries && Observing(tl, p, observers[p], opening, end)
  {
    entries, observers := map[], map[];
    var before;
    before, end, raw, times := Inventory(tl, digest, universe, start, reliable);
    opening := end;
    if !before.Got? {
      copies := if before.Failed? then Failed else SourceChanged;
      return;
    }
    entries := before.value;
    if AtRest(tl, universe, start) {
      AtRestLater(tl, universe, start, end);
      InventoryAtRest(tl, digest, universe, raw, times, start, end);
    }
    var watching;
    watching, end := Observe(tl, entries, end);
    if !watching.Got? {
      LostIsExcused(tl, digest, universe, raw, times, start, opening, end);
      copies := Failed;
      return;
    }
    observers := watching.value;
    if AtRest(tl, universe, start) {
      AtRestLater(tl, universe, start, end);
    }
    ghost var observed := end;
    copies, end := CopyAll(tl, digest, entries, observers, end, reliable);
    if reliable && copies.Failed? {
      GrowthWider(tl, start, observed, end);
    }
  }

  /** The copies are the source at some single instant of the interval. */
  ghost predicate SourceAtOneInstant(tl: Timeline, universe: set<Path>, start: nat, end: nat, copies: map<Path, Copy>) {
    exists t: nat :: start <= t <= end && Faithful(tl, universe, t, copies)
  }

  /** Both inventories of a source at rest are the same. */
  lemma SameAtRest(tl: Timeline, digest: Content -> string, universe: set<Path>, raw1: map<Path, Entry>,
                   times1: map<Path, Reads>, raw2: map<Path, Entry>, times2: map<Path, Reads>,
                   start: nat, opening: nat, t: nat, end: nat)
    requires AtRest(tl, universe, start) && start <= opening <= t <= end
    requires InventoryOf(tl, digest, universe, raw1, times1, start, opening)
    requires InventoryOf(tl, digest, universe, raw2, times2, t, end)
    ensures raw1 == raw2
  {
    InventoryAtRest(tl, digest, universe, raw1, times1, start, opening);
    assert InventoryOf(tl, digest, universe, raw2, times2, start, end);
    InventoryAtRest(tl, digest, universe, raw2, times2, start, end);
    SameInventory(tl, digest, universe, start, raw1, raw2);
  }

  /** `capture`: inventory, observers, copies, inventory again, versions again. If it returns
      normally, the destination is the source as it was at one instant. Where no deadline passes,
      a source at rest without special files is always captured, and the copies are exactly it. */
  method Capture(tl: Timeline, digest: Content -> string, universe: set<Path>, start: nat, reliable: bool)
    returns (copies: Outcome<map<Path, Copy>>, end: nat, ghost instant: nat)
    requires Injective(digest)
    ensures start <= instant <= end
    ensures copies.Got? && NoReturn(tl, universe, start, end) && VersionsCount(tl) ==>
              Faithful(tl, universe, instant, copies.value)
    ensures copies.Got? && NoReturn(tl, universe, start, end) && VersionsCount(tl) ==>
              SourceAtOneInstant(tl, universe, start, end, copies.value)
    ensures reliable && AtRest(tl, universe, start) ==> copies.Got?
    ensures reliable && copies.Failed? ==> Excused(tl, universe, start, end)
    ensures copies.Got? && AtRest(tl, universe, start) ==> WholeCopy(tl, universe, start, copies.value)
  {
    var entries, observers;
    ghost var raw1, times1, opening;
    entries, observers, copies, end, raw1, times1, opening := CopyTree(tl, digest, universe, start, reliable);
    instant := end;
    if !copies.Got? {
      return;
    }
    if AtRest(tl, universe, start) {
      AtRestLater(tl, universe, start, end);
    }
    var after;
    ghost var raw2, times2;
    after, end, raw2, times2 := Inventory(tl, digest, universe, end, reliable);
    if AtRest(tl, universe, start) && after.Got? {
      SameAtRest(tl, digest, universe, raw1, times1, raw2, times2, start, opening, instant, end);
      CurrentAtRest(tl, observers, start, opening, instant, end);
    }
    if !after.Got? || entries != after.value {
      if reliable && after.Failed? {
        ExcusedWider(tl, universe, start, instant, end, end);
      }
      copies := if after.Failed? then Failed else SourceChanged;
      return;
    }
    ghost var inventoried := end;
    var same;
    ghost var checked;
    same, end, checked := Unchanged(tl, observers, end);
    InventoryLater(tl, digest, universe, raw2, times2, instant, inventoried, end);
    var late: bool := *;
    if !same || (late && !reliable) {
      copies := if same then Failed else SourceChanged;
      return;
    }
    ghost var e := Evidence(raw1, times1, raw2, times2, observers, checked, opening);
    assert Inventoried(tl, digest, universe, e, start, instant, end);
    assert Copied(tl, digest, e, copies.value, instant);
    if AtRest(tl, universe, start) {
      CopiesAtRest(tl, digest, universe, e, copies.value, start, instant, end);
    }
    if NoReturn(tl, universe, start, end) && VersionsCount(tl) {
      OneInstant(tl, digest, universe, e, copies.value, start, instant, end);
    }
  }

  // ----- Why values must not return -----

  const X: Path := "/x"
  const Y: Path := "/y"

  /** Two files that two writers keep flipping, never both at the value first read. */
  function Flipping(t: nat): Source {
    var even := t % 2 == 0;
    Source(map[X := Node(Regular, 0x180, 1, []), Y := Node(Regular, 0x180, 2, [])],
           map[1 := if even then [1] else [2], 2 := if even then [2] else [1]], map[])
  }

  /** Reads of `X` at even instants and of `Y` at odd ones, from first inventory to second. */
  function FlippingEvidence(digest: Content -> string): Evidence {
    var raw := map[X := FileEntry(0x180, digest([1]), 1), Y := FileEntry(0x180, digest([1]), 2)];
    Evidence(raw, map[X := Reads(0, 0, 0, 0), Y := Reads(1, 1, 1, 1)],
             raw, map[X := Reads(4, 4, 4, 4), Y := Reads(5, 5, 5, 5)], map[], map[], 1)
  }

  const FLIPPING_COPY := map[X := FileCopy(0x180, [1]), Y := FileCopy(0x180, [1])]

  /** A file read at a single instant. */
  lemma ReadAtOnce(tl: Timeline, digest: Content -> string, id: FileId, t: nat)
    ensures Summed(tl, digest, id, digest(FileAt(tl, id, t)), t, t)
  {
    var content := FileAt(tl, id, t);
    forall i: nat | i < |content| ensures Saw(tl, id, i, Some(content[i]), t, t) {
      assert ByteAt(tl, id, i, t) == Some(content[i]);
    }
    assert ByteAt(tl, id, |content|, t) == None;
    assert ReadFrom(tl, id, content, t, t);
  }

  lemma FlippingIsInventoried(digest: Content -> string)
    ensures Inventoried(Flipping, digest, {X, Y}, FlippingEvidence(digest), 0, 3, 5)
  {
    assert X[1] != Y[1];
    var e := FlippingEvidence(digest);
    ReadAtOnce(Flipping, digest, 1, 0);
    ReadAtOnce(Flipping, digest, 2, 1);
    ReadAtOnce(Flipping, digest, 1, 4);
    ReadAtOnce(Flipping, digest, 2, 5);
    assert InventoryOf(Flipping, digest, {X, Y}, e.raw1, e.times1, 0, 1);
    assert InventoryOf(Flipping, digest, {X, Y}, e.raw2, e.times2, 3, 5);
  }

  lemma FlippingIsCopied(digest: Content -> string)
    ensures Copied(Flipping, digest, FlippingEvidence(digest), FLIPPING_COPY, 3)
  {
    assert X[1] != Y[1];
    var e := FlippingEvidence(digest);
    assert DropSidecars(e.raw1) == e.raw1;
  }

  /** Without the assumption the checks can all pass on a copy that was never the source: both
      files hold [1] in the copy, and at no instant did both hold it. */
  lemma FlippingDefeatsChecks(digest: Content -> string, t: nat)
    ensures Checked(Flipping, digest, {X, Y}, FlippingEvidence(digest), FLIPPING_COPY, 0, 3, 5)
    ensures !Faithful(Flipping, {X, Y}, t, FLIPPING_COPY)
  {
    FlippingIsInventoried(digest);
    FlippingIsCopied(digest);
    assert X[1] != Y[1];
    if t % 2 == 0 {
      assert !CopyOf(Flipping, Y, t, FLIPPING_COPY[Y]);
    } else {
      assert !CopyOf(Flipping, X, t, FLIPPING_COPY[X]);
    }
  }
}
