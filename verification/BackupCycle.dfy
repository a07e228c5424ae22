/** From a published backup to its verification and restoration: what `tar` packs of a staging
    directory, that verification accepts it, and what restoration makes of it. */
module BackupCycle {
  import opened Prelude
  import opened ArchivePaths
  import opened ArchiveCheck
  import opened Restore
  import Attachments
  import OnlineSnapshot
  import Backup

  /** An object of the staging directory as it is packed. */
  datatype Packed = Packed(kind: MemberKind, content: Content)

  /** The staging directory, by relative path. */
  type StagingTree = map<string, Packed>

  /** A copied object; `image` is the database file SQLite writes for some rows. */
  function PackedCopy(copy: OnlineSnapshot.Copy, image: Content -> Content): Packed {
    match copy
    case LinkCopy(_) => Packed(SymbolicLink, [])
    case DirectoryCopy(_) => Packed(DirectoryMember, [])
    case FileCopy(_, content) => Packed(RegularFile, content)
    case DatabaseCopy(_, rows) => Packed(RegularFile, image(rows))
  }

  /** The staging directory of an archive: every copy below its path without leading slashes,
      the attachment objects and their manifest in a folder of their own, nothing else but
      folders in it. `text` is the manifest as it is written. */
  ghost predicate StagingOf(tree: StagingTree, a: Backup.Archive, image: Content -> Content, text: Content) {
    && (forall p | p in a.copies :: HoldsCopy(tree, p, PackedCopy(a.copies[p], image)))
    && (a.attachments.Some? ==>
          && MANIFEST in tree && tree[MANIFEST] == Packed(RegularFile, text)
          && forall k | k in a.attachments.value.1 :: HoldsObject(tree, k, a.attachments.value.1[k]))
    && (forall name | name in tree :: Staged(a, image, name, tree[name]))
  }

  ghost predicate HoldsCopy(tree: StagingTree, p: OnlineSnapshot.Path, packed: Packed) {
    WithoutSlashes(p) in tree && tree[WithoutSlashes(p)] == packed
  }

  ghost predicate HoldsObject(tree: StagingTree, k: Attachments.Key, content: Content) {
    Attachments.ObjectPath(k) in tree && tree[Attachments.ObjectPath(k)] == Packed(RegularFile, content)
  }

  /** Where an object of the staging directory comes from. */
  ghost predicate Staged(a: Backup.Archive, image: Content -> Content, name: string, packed: Packed) {
    || FromCopy(a, image, name, packed)
    || (a.attachments.Some? && packed.kind == RegularFile
        && (name == MANIFEST || FromObject(a.attachments.value.1, name)))
    || (a.attachments.Some? && packed == Packed(DirectoryMember, []))
  }

  ghost predicate FromCopy(a: Backup.Archive, image: Content -> Content, name: string, packed: Packed) {
    && !(Attachments.PREFIX <= name) && name != MANIFEST
    && exists p | p in a.copies :: name == WithoutSlashes(p) && packed == PackedCopy(a.copies[p], image)
  }

  ghost predicate FromObject(files: map<Attachments.Key, Content>, name: string) {
    Attachments.PREFIX <= name && exists k | k in files :: name == Attachments.ObjectPath(k)
  }

  /** What any directory is: normalised relative names, and nothing below a file. */
  ghost predicate Directory(tree: StagingTree) {
    && (forall name | name in tree :: ArchivePath(name) == Some(name))
    && (forall a, b | a in tree && b in tree && tree[a].kind != DirectoryMember :: !Above(Parts(a), Parts(b)))
  }

  /** The members `tar` writes: for each of its arguments, every object at or below it, in any
      order; `from` says which argument a member was written for. */
  ghost predicate Packs(members: seq<Member>, from: seq<nat>, tree: StagingTree, arguments: seq<string>) {
    && |from| == |members|
    && (forall i | 0 <= i < |members| :: PackedAs(members[i], tree))
    && (forall i | 0 <= i < |members| :: from[i] < |arguments| && Under(members[i].name, arguments[from[i]]))
    && (forall i, j | 0 <= i < j < |members| && from[i] == from[j] :: members[i].name != members[j].name)
    && (forall name, k: nat | name in tree && k < |arguments| && Under(name, arguments[k]) ::
          WrittenFor(members, from, name, k))
  }

  ghost predicate WrittenFor(members: seq<Member>, from: seq<nat>, name: string, k: nat)
    requires |from| == |members|
  {
    exists i | 0 <= i < |members| :: members[i].name == name && from[i] == k
  }

  /** Every argument is there, and everything lies at or below one. */
  ghost predicate Rooted(tree: StagingTree, arguments: seq<string>) {
    && (forall k | 0 <= k < |arguments| :: arguments[k] in tree)
    && (forall name | name in tree :: Below(name, arguments))
  }

  ghost predicate Below(name: string, arguments: seq<string>) {
    exists k: nat | k < |arguments| :: Under(name, arguments[k])
  }

  /** No argument lies at or below another. */
  predicate Separate(arguments: seq<string>) {
    forall i, j | 0 <= i < |arguments| && 0 <= j < |arguments| && i != j :: !Under(arguments[i], arguments[j])
  }

  /** Each object is written once. */
  ghost predicate PacksOnce(members: seq<Member>, tree: StagingTree) {
    && (forall i | 0 <= i < |members| :: PackedAs(members[i], tree))
    && (forall name | name in tree :: Listed(members, name))
    && (forall i, j | 0 <= i < j < |members| :: members[i].name != members[j].name)
  }

  predicate PackedAs(m: Member, tree: StagingTree) {
    m.name in tree && m == Member(m.name, tree[m.name].kind, |tree[m.name].content|, tree[m.name].content)
  }

  ghost predicate Listed(members: seq<Member>, name: string) {
    exists i | 0 <= i < |members| :: members[i].name == name
  }

  /** Separate arguments never share a name. */
  lemma SeparateArguments(arguments: seq<string>, name: string, i: nat, j: nat)
    requires Separate(arguments) && i < |arguments| && j < |arguments|
    requires Under(name, arguments[i]) && Under(name, arguments[j])
    ensures i == j
  {
    if i != j {
      if |arguments[i]| >= |arguments[j]| && arguments[i] != arguments[j] {
        ShorterContains(name, arguments[i], arguments[j]);
      } else if arguments[i] != arguments[j] {
        ShorterContains(name, arguments[j], arguments[i]);
      }
    }
  }

  lemma SeparatePacksOnce(members: seq<Member>, from: seq<nat>, tree: StagingTree, arguments: seq<string>)
    requires Packs(members, from, tree, arguments) && Rooted(tree, arguments) && Separate(arguments)
    ensures PacksOnce(members, tree)
  {
    forall name | name in tree ensures Listed(members, name) {
      assert Below(name, arguments);
      var k: nat :| k < |arguments| && Under(name, arguments[k]);
      assert WrittenFor(members, from, name, k);
    }
    forall i, j | 0 <= i < j < |members| ensures members[i].name != members[j].name {
      if members[i].name == members[j].name {
        SeparateArguments(arguments, members[i].name, from[i], from[j]);
      }
    }
  }

  /** An argument at or below another is written twice. */
  lemma OverlapRepeats(members: seq<Member>, from: seq<nat>, tree: StagingTree, arguments: seq<string>)
    requires Packs(members, from, tree, arguments) && Rooted(tree, arguments) && Directory(tree)
    requires !Separate(arguments)
    ensures !DistinctNames(ArchivePath, members)
  {
    var i, j :| 0 <= i < |arguments| && 0 <= j < |arguments| && i != j && Under(arguments[i], arguments[j]);
    var name := arguments[i];
    assert name in tree && Under(name, arguments[i]);
    assert WrittenFor(members, from, name, i) && WrittenFor(members, from, name, j);
    var a :| 0 <= a < |members| && members[a].name == name && from[a] == i;
    var b :| 0 <= b < |members| && members[b].name == name && from[b] == j;
    assert NameAt(ArchivePath, members, a) == NameAt(ArchivePath, members, b);
  }

  /** The limits both readers put on an archive. */
  ghost predicate WithinLimits(members: seq<Member>) {
    && |members| <= MAX_MEMBERS
    && Tally(ArchivePath, members).nameBytes <= MAX_METADATA && Tally(ArchivePath, members).total <= MAX_EXPANDED
    && forall i | 0 <= i < |members| ::
         Bounded(members[i]) && (members[i].name == MANIFEST ==> members[i].size <= MAX_METADATA)
  }

  // ----- Verification -----

  lemma PackedIsReadable(m: Member, tree: StagingTree)
    requires Directory(tree) && PackedAs(m, tree) && Bounded(m) && (m.name == MANIFEST ==> m.size <= MAX_METADATA)
    requires tree[m.name].kind != OtherMember
    ensures Readable(ArchivePath, m)
  {
  }

  ghost predicate Ordinary(tree: StagingTree) {
    forall name | name in tree :: tree[name].kind != OtherMember
  }

  lemma PackedIsScannable(members: seq<Member>, tree: StagingTree)
    requires Directory(tree) && Ordinary(tree) && PacksOnce(members, tree) && WithinLimits(members)
    ensures Scannable(ArchivePath, members)
  {
    forall i | 0 <= i < |members| ensures Readable(ArchivePath, members[i]) {
      assert PackedAs(members[i], tree);
      PackedIsReadable(members[i], tree);
    }
    forall i, j | 0 <= i < j < |members| ensures NameAt(ArchivePath, members, i) != NameAt(ArchivePath, members, j) {
      assert PackedAs(members[i], tree) && PackedAs(members[j], tree);
    }
  }

  lemma StagingIsOrdinary(tree: StagingTree, a: Backup.Archive, image: Content -> Content, text: Content)
    requires StagingOf(tree, a, image, text)
    ensures Ordinary(tree)
  {
    forall name | name in tree ensures tree[name].kind != OtherMember {
      assert Staged(a, image, name, tree[name]);
    }
  }

  /** A name of the staging directory is gathered as what it is. */
  lemma PackedIsGathered(members: seq<Member>, tree: StagingTree, name: string)
    requires Directory(tree) && PacksOnce(members, tree) && Scannable(ArchivePath, members) && name in tree
    ensures var s := Tally(ArchivePath, members);
            && (tree[name].kind == RegularFile || tree[name].kind == DirectoryMember ==> name in s.sources)
            && (tree[name].kind == RegularFile && Attachments.PREFIX <= name ==>
                  name in s.objects && s.objects[name] == tree[name].content)
            && (tree[name].kind == RegularFile && name == MANIFEST ==> s.manifest == Some(tree[name].content))
  {
    assert Listed(members, name);
    var i :| 0 <= i < |members| && members[i].name == name;
    assert PackedAs(members[i], tree) && NameAt(ArchivePath, members, i) == Some(name);
    TallyContents(ArchivePath, members, i);
    TallyMeans(ArchivePath, members, Sources, name);
    if tree[name].kind == RegularFile || tree[name].kind == DirectoryMember {
      assert Belongs(Sources, members[i], name);
    }
  }

  /** Only objects of the staging directory are gathered. */
  lemma GatheredIsPacked(members: seq<Member>, tree: StagingTree, part: Part, name: string)
    requires Directory(tree) && PacksOnce(members, tree) && Gathered(Tally(ArchivePath, members), part, name)
    ensures name in tree && exists m: Member :: PackedAs(m, tree) && m.name == name && Belongs(part, m, name)
  {
    TallyMeans(ArchivePath, members, part, name);
    var i :| 0 <= i < |members| && NameAt(ArchivePath, members, i) == Some(name) && Belongs(part, members[i], name);
    assert PackedAs(members[i], tree);
  }

  lemma ObjectIsGathered(members: seq<Member>, tree: StagingTree, k: Attachments.Key, content: Content)
    requires Directory(tree) && PacksOnce(members, tree) && Scannable(ArchivePath, members)
    requires HoldsObject(tree, k, content)
    ensures var objects := Tally(ArchivePath, members).objects;
            Attachments.ObjectPath(k) in objects && objects[Attachments.ObjectPath(k)] == content
  {
    PrefixOfObject(k);
    PackedIsGathered(members, tree, Attachments.ObjectPath(k));
  }

  lemma StagedObject(a: Backup.Archive, image: Content -> Content, name: string, packed: Packed)
    requires Staged(a, image, name, packed) && packed.kind == RegularFile && Attachments.PREFIX <= name
    ensures a.attachments.Some? && FromObject(a.attachments.value.1, name)
  {
    if name == MANIFEST {
      ManifestIsNoObject();
    }
  }

  lemma GatheredIsObject(members: seq<Member>, tree: StagingTree, a: Backup.Archive, image: Content -> Content,
                         text: Content, path: string)
    requires Directory(tree) && StagingOf(tree, a, image, text) && PacksOnce(members, tree) && a.attachments.Some?
    requires path in Tally(ArchivePath, members).objects
    ensures FromObject(a.attachments.value.1, path)
  {
    GatheredIsPacked(members, tree, Objects, path);
    var m: Member :| PackedAs(m, tree) && m.name == path && IsObject(m, path);
    assert Staged(a, image, path, tree[path]);
    StagedObject(a, image, path, tree[path]);
  }

  /** The objects gathered from a packed archive are the captured ones. */
  lemma ObjectsAreArchived(members: seq<Member>, tree: StagingTree, a: Backup.Archive, image: Content -> Content,
                           text: Content)
    requires Directory(tree) && StagingOf(tree, a, image, text) && PacksOnce(members, tree)
    requires Scannable(ArchivePath, members) && a.attachments.Some?
    ensures Attachments.Archived(Tally(ArchivePath, members).objects, a.attachments.value.1)
  {
    var files, objects := a.attachments.value.1, Tally(ArchivePath, members).objects;
    forall k | k in files
      ensures Attachments.ObjectPath(k) in objects && objects[Attachments.ObjectPath(k)] == files[k]
    {
      assert HoldsObject(tree, k, files[k]);
      ObjectIsGathered(members, tree, k, files[k]);
    }
    forall path | path in objects ensures FromObject(files, path) {
      GatheredIsObject(members, tree, a, image, text, path);
    }
  }

  lemma PrefixOfObject(k: Attachments.Key)
    ensures Attachments.PREFIX <= Attachments.ObjectPath(k)
  {
  }

  lemma ManifestIsNoObject()
    ensures !(Attachments.PREFIX <= MANIFEST)
  {
    assert Attachments.PREFIX[16] != MANIFEST[16];
  }

  /** A backup with each object packed once passes verification, whatever the order of its
      members: it is within the limits, holds the required sources and something at all, and
      its objects are those of its manifest. */
  lemma PackedOncePasses(members: seq<Member>, tree: StagingTree, a: Backup.Archive, image: Content -> Content,
                         text: Content, required: set<string>, attachments: bool,
                         digest: Content -> string, decode: Content -> Document)
    requires OnlineSnapshot.Injective(digest)
    requires Directory(tree) && StagingOf(tree, a, image, text) && PacksOnce(members, tree) && WithinLimits(members)
    requires ExpectedRoots(required).Some? && Tally(ArchivePath, members).total > 0
    requires forall r | r in ExpectedRoots(required).value :: r in tree && tree[r].kind != SymbolicLink
    requires Backup.Sound(digest, a) && (a.attachments.Some? ==> decode(text) == Inventory(a.attachments.value.0))
    requires attachments ==> a.attachments.Some?
    ensures Passes(members, required, attachments, true, digest, decode)
  {
    StagingIsOrdinary(tree, a, image, text);
    PackedIsScannable(members, tree);
    forall r | r in ExpectedRoots(required).value ensures r in Tally(ArchivePath, members).sources {
      PackedIsGathered(members, tree, r);
    }
    if a.attachments.Some? {
      PackedIsGathered(members, tree, MANIFEST);
      ObjectsAreArchived(members, tree, a, image, text);
      CapturedArchivePasses(members, digest, decode, a.attachments.value.0, a.attachments.value.1);
    } else {
      NoManifest(members, tree, a, image, text);
    }
  }

  /** A published backup passes verification if and only if no configured path lies at or below
      another: `tar` writes what they share twice, and verification refuses repeated names. */
  lemma PublishedArchivePasses(members: seq<Member>, from: seq<nat>, arguments: seq<string>, tree: StagingTree,
                               a: Backup.Archive, image: Content -> Content, text: Content,
                               required: set<string>, attachments: bool,
                               digest: Content -> string, decode: Content -> Document)
    requires OnlineSnapshot.Injective(digest)
    requires Directory(tree) && StagingOf(tree, a, image, text) && Rooted(tree, arguments)
    requires Packs(members, from, tree, arguments) && WithinLimits(members)
    requires ExpectedRoots(required).Some? && Tally(ArchivePath, members).total > 0
    requires forall r | r in ExpectedRoots(required).value :: r in tree && tree[r].kind != SymbolicLink
    requires Backup.Sound(digest, a) && (a.attachments.Some? ==> decode(text) == Inventory(a.attachments.value.0))
    requires attachments ==> a.attachments.Some?
    ensures Passes(members, required, attachments, true, digest, decode) <==> Separate(arguments)
  {
    if Separate(arguments) {
      SeparatePacksOnce(members, from, tree, arguments);
      PackedOncePasses(members, tree, a, image, text, required, attachments, digest, decode);
    } else {
      OverlapRepeats(members, from, tree, arguments);
    }
  }

  lemma NoManifest(members: seq<Member>, tree: StagingTree, a: Backup.Archive, image: Content -> Content, text: Content)
    requires Directory(tree) && StagingOf(tree, a, image, text) && PacksOnce(members, tree) && a.attachments.None?
    ensures Tally(ArchivePath, members).manifest.None?
  {
    if Tally(ArchivePath, members).manifest.Some? {
      GatheredIsPacked(members, tree, ManifestFile, MANIFEST);
      assert Staged(a, image, MANIFEST, tree[MANIFEST]);
    }
  }

  // ----- Restoration -----

  lemma PackedNoFileAbove(members: seq<Member>, tree: StagingTree)
    requires Directory(tree) && PacksOnce(members, tree)
    ensures NoFileAbove(ItemsOf(members))
  {
    var items := ItemsOf(members);
    forall i, j | 0 <= i < |items| && 0 <= j < |items| ensures !Clash(items[i], items[j]) {
      assert PackedAs(members[i], tree) && PackedAs(members[j], tree);
    }
  }

  /** A packed backup can be restored if and only if it holds no symbolic link, given that all
      of it lies below the roots. */
  lemma RestorableIffNoLinks(members: seq<Member>, tree: StagingTree, roots: set<string>)
    requires Directory(tree) && Ordinary(tree) && PacksOnce(members, tree) && WithinLimits(members)
    requires forall name | name in tree :: exists r | r in roots :: Under(name, r)
    ensures Accepted(members, roots) <==> forall name | name in tree :: tree[name].kind != SymbolicLink
  {
    PackedIsScannable(members, tree);
    PackedNoFileAbove(members, tree);
    VerifiedIsRestorable(members, roots);
    forall i | 0 <= i < |members|
      ensures Placed(members[i], roots) <==> tree[members[i].name].kind != SymbolicLink
    {
      assert PackedAs(members[i], tree);
    }
    forall name | name in tree ensures Listed(members, name) {
    }
    if AllPlaced(members, roots) {
      forall name | name in tree ensures tree[name].kind != SymbolicLink {
        var i :| 0 <= i < |members| && members[i].name == name;
        assert Placed(members[i], roots);
      }
    }
  }

  /** What an object becomes on disk. */
  function Restored(packed: Packed): Node {
    if packed.kind == RegularFile then File(packed.content) else Folder
  }

  /** The restored tree holds every object of the staging directory as it was packed, and
      every file in it is one of them. */
  lemma RestoresExactly(members: seq<Member>, tree: StagingTree, restored: Tree)
    requires Directory(tree) && PacksOnce(members, tree) && Restore.Holds(restored, ItemsOf(members))
    ensures forall name | name in tree :: Parts(name) in restored && restored[Parts(name)] == Restored(tree[name])
    ensures forall path | path in restored && restored[path] != Folder ::
              exists name | name in tree :: Parts(name) == path && Restored(tree[name]) == restored[path]
  {
    var items := ItemsOf(members);
    forall name | name in tree
      ensures Parts(name) in restored && restored[Parts(name)] == Restored(tree[name])
    {
      assert Listed(members, name);
      var i :| 0 <= i < |members| && members[i].name == name;
      assert PackedAs(members[i], tree);
      assert items[i] == Item(Parts(name), Restored(tree[name]));
    }
    forall path | path in restored && restored[path] != Folder
      ensures exists name | name in tree :: Parts(name) == path && Restored(tree[name]) == restored[path]
    {
      assert !StrayFile(restored, items, path);
      var i :| 0 <= i < |items| && items[i] == Item(path, restored[path]);
      assert PackedAs(members[i], tree);
      assert Parts(members[i].name) == path && Restored(tree[members[i].name]) == restored[path];
    }
  }

  /** The whole cycle: what was copied at one instant is what stands in the restored directory. */
  lemma CopiesAreRestored(members: seq<Member>, tree: StagingTree, a: Backup.Archive, image: Content -> Content,
                          text: Content, restored: Tree, p: OnlineSnapshot.Path)
    requires Directory(tree) && StagingOf(tree, a, image, text) && PacksOnce(members, tree)
    requires Restore.Holds(restored, ItemsOf(members)) && p in a.copies
    ensures var path := Parts(WithoutSlashes(p));
            path in restored && restored[path] == Restored(PackedCopy(a.copies[p], image))
  {
    assert HoldsCopy(tree, p, PackedCopy(a.copies[p], image));
    RestoresExactly(members, tree, restored);
  }
}
