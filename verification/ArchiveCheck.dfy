/** Checking a pulled archive without unpacking it: bounds, required sources, and that its
    attachment objects are exactly the inventoried ones. */
module ArchiveCheck {
  import opened Prelude
  import opened Schema
  import opened ArchivePaths
  import opened Restore
  import Attachments
  import OnlineSnapshot

  const MANIFEST := "elo-attachments/manifest.json"

  /** How a member name is normalised, or refused. */
  type PathRule = string -> Option<string>

  /** What one member must be, whatever the others are. */
  predicate Readable(path: PathRule, m: Member) {
    && Bounded(m) && path(m.name).Some? && m.kind != OtherMember
    && (m.kind == RegularFile ==> |m.content| == m.size)
    && (m.kind == RegularFile && path(m.name).value == MANIFEST ==> m.size <= MAX_METADATA)
  }

  /** The normalised name of member `i`. */
  function NameAt(path: PathRule, members: seq<Member>, i: nat): Option<string>
    requires i < |members|
  {
    path(members[i].name)
  }

  /** What the member loop gathers: names, sources that can be asked for, attachment objects,
      the manifest, and the two totals it bounds. */
  datatype Scan = Scan(names: set<string>, sources: set<string>, objects: map<string, Content>,
                       manifest: Option<Content>, nameBytes: nat, total: nat)

  predicate IsObject(m: Member, name: string) {
    m.kind == RegularFile && Attachments.PREFIX <= name
  }

  predicate IsManifest(m: Member, name: string) {
    m.kind == RegularFile && name == MANIFEST
  }

  function AddAs(s: Scan, m: Member, name: string, isObject: bool, isManifest: bool): Scan {
    Scan(s.names + {name},
         if m.kind == RegularFile || m.kind == DirectoryMember then s.sources + {name} else s.sources,
         if isObject then s.objects[name := m.content] else s.objects,
         if isManifest then Some(m.content) else s.manifest,
         s.nameBytes + Utf8Size(name), s.total + Size(m))
  }

  function Add(s: Scan, m: Member, name: string): Scan {
    AddAs(s, m, name, IsObject(m, name), IsManifest(m, name))
  }

  function Tally(path: PathRule, members: seq<Member>): Scan {
    if members == [] then Scan({}, {}, map[], None, 0, 0)
    else
      var n := |members| - 1;
      match path(members[n].name)
      case Some(name) => Add(Tally(path, members[..n]), members[n], name)
      case None => Tally(path, members[..n])
  }

  /** Every bound holds and no name occurs twice. */
  ghost predicate Scannable(path: PathRule, members: seq<Member>) {
    && |members| <= MAX_MEMBERS
    && Tally(path, members).nameBytes <= MAX_METADATA && Tally(path, members).total <= MAX_EXPANDED
    && AllReadable(path, members) && DistinctNames(path, members)
  }

  ghost predicate AllReadable(path: PathRule, members: seq<Member>) {
    forall i | 0 <= i < |members| :: Readable(path, members[i])
  }

  ghost predicate DistinctNames(path: PathRule, members: seq<Member>) {
    forall i, j | 0 <= i < j < |members| :: NameAt(path, members, i) != NameAt(path, members, j)
  }

  lemma TallySnoc(path: PathRule, members: seq<Member>, m: Member, name: string)
    requires path(m.name) == Some(name)
    ensures Tally(path, members + [m]) == Add(Tally(path, members), m, name)
  {
    assert (members + [m])[..|members|] == members;
  }

  /** Name lengths and file sizes add up. */
  lemma {:induction false} TotalsAddUp(path: PathRule, a: seq<Member>, b: seq<Member>, m: Member)
    ensures Tally(path, a + b).nameBytes == Tally(path, a).nameBytes + Tally(path, b).nameBytes
    ensures Tally(path, a + b).total == Tally(path, a).total + Tally(path, b).total
    ensures path(m.name).Some? ==>
              && Tally(path, [m]).nameBytes == Utf8Size(path(m.name).value)
              && Tally(path, [m]).total == if m.kind == RegularFile && m.size > 0 then m.size else 0
  {
    if b == [] {
      assert a + b == a;
    } else {
      TotalsAddUp(path, a, b[..|b| - 1], m);
      assert (a + b)[..|a + b| - 1] == a + b[..|b| - 1];
    }
  }

  /** Which members and how many of them the scan takes. */
  lemma ScannableMeans(path: PathRule, members: seq<Member>)
    ensures Scannable(path, members) <==>
              && |members| <= 100000
              && Tally(path, members).nameBytes <= 8388608 && Tally(path, members).total <= 8589934592
              && (forall i, j | 0 <= i < j < |members| :: path(members[i].name) != path(members[j].name))
              && (forall i | 0 <= i < |members| ::
                    && path(members[i].name).Some?
                    && 0 <= members[i].size
                    && match members[i].kind
                       case RegularFile =>
                         && members[i].size <= 8589934592 && |members[i].content| == members[i].size
                         && (path(members[i].name) == Some("elo-attachments/manifest.json") ==>
                               members[i].size <= 8388608)
                       case DirectoryMember => members[i].size <= 8388608
                       case SymbolicLink => members[i].size <= 8388608
                       case OtherMember => false)
  {
    if AllReadable(path, members) {
      forall i | 0 <= i < |members| ensures Readable(path, members[i]) {
      }
    }
    if forall i, j | 0 <= i < j < |members| :: path(members[i].name) != path(members[j].name) {
      forall i, j | 0 <= i < j < |members| ensures NameAt(path, members, i) != NameAt(path, members, j) {
      }
    }
    if DistinctNames(path, members) {
      forall i, j | 0 <= i < j < |members| ensures path(members[i].name) != path(members[j].name) {
        assert NameAt(path, members, i) != NameAt(path, members, j);
      }
    }
  }

  /** The parts of the gathered data, and which members belong to each. */
  datatype Part = Names | Sources | Objects | ManifestFile

  predicate Belongs(part: Part, m: Member, name: string) {
    match part
    case Names => true
    case Sources => m.kind == RegularFile || m.kind == DirectoryMember
    case Objects => m.kind == RegularFile && Attachments.PREFIX <= name
    case ManifestFile => m.kind == RegularFile && name == MANIFEST
  }

  predicate Gathered(s: Scan, part: Part, name: string) {
    match part
    case Names => name in s.names
    case Sources => name in s.sources
    case Objects => name in s.objects
    case ManifestFile => s.manifest.Some? && name == MANIFEST
  }

  ghost predicate Holds(path: PathRule, members: seq<Member>, part: Part, name: string) {
    exists i | 0 <= i < |members| :: NameAt(path, members, i) == Some(name) && Belongs(part, members[i], name)
  }

  lemma HoldsLast(path: PathRule, members: seq<Member>, part: Part, name: string)
    requires members != []
    ensures var n := |members| - 1;
            Holds(path, members, part, name) <==>
              || Holds(path, members[..n], part, name)
              || (NameAt(path, members, n) == Some(name) && Belongs(part, members[n], name))
  {
    var n := |members| - 1;
    var init := members[..n];
    assert forall i | 0 <= i < n :: init[i] == members[i] && NameAt(path, init, i) == NameAt(path, members, i);
    if Holds(path, init, part, name) {
      var i :| 0 <= i < n && NameAt(path, init, i) == Some(name) && Belongs(part, init[i], name);
      assert NameAt(path, members, i) == Some(name) && Belongs(part, members[i], name);
    }
    if Holds(path, members, part, name) {
      var i :| 0 <= i <= n && NameAt(path, members, i) == Some(name) && Belongs(part, members[i], name);
      assert i < n ==> NameAt(path, init, i) == Some(name) && Belongs(part, init[i], name);
    }
  }

  lemma AddGathersNames(s: Scan, m: Member, added: string, isObject: bool, isManifest: bool, name: string)
    ensures var t := AddAs(s, m, added, isObject, isManifest);
            && (name in t.names <==> name in s.names || added == name)
            && (name in t.sources <==> name in s.sources
                                       || (added == name && (m.kind == RegularFile || m.kind == DirectoryMember)))
  {
  }

  lemma AddGathersContents(s: Scan, m: Member, added: string, isObject: bool, isManifest: bool, name: string)
    ensures var t := AddAs(s, m, added, isObject, isManifest);
            && (name in t.objects <==> name in s.objects || (added == name && isObject))
            && (t.manifest.Some? <==> s.manifest.Some? || isManifest)
  {
  }

  /** One more name gathers exactly what belongs to it. */
  lemma AddGathers(s: Scan, m: Member, added: string, part: Part, name: string)
    ensures Gathered(Add(s, m, added), part, name)
            <==> Gathered(s, part, name) || (added == name && Belongs(part, m, name))
  {
    AddGathersNames(s, m, added, IsObject(m, added), IsManifest(m, added), name);
    AddGathersContents(s, m, added, IsObject(m, added), IsManifest(m, added), name);
  }

  /** What the gathered data means: each part holds exactly the members that belong to it. */
  lemma {:induction false} TallyMeans(path: PathRule, members: seq<Member>, part: Part, name: string)
    ensures Gathered(Tally(path, members), part, name) <==> Holds(path, members, part, name)
  {
    if members != [] {
      var n := |members| - 1;
      TallyMeans(path, members[..n], part, name);
      HoldsLast(path, members, part, name);
      if NameAt(path, members, n).Some? {
        AddGathers(Tally(path, members[..n]), members[n], NameAt(path, members, n).value, part, name);
      }
    }
  }

  /** With distinct names, each object and the manifest have the content of their one member. */
  lemma {:induction false} TallyContents(path: PathRule, members: seq<Member>, i: nat)
    requires DistinctNames(path, members)
    requires i < |members| && NameAt(path, members, i).Some?
    ensures var s, name := Tally(path, members), NameAt(path, members, i).value;
            && (IsObject(members[i], name) ==> name in s.objects && s.objects[name] == members[i].content)
            && (members[i].kind == RegularFile && name == MANIFEST ==> s.manifest == Some(members[i].content))
  {
    var n := |members| - 1;
    var init, m := members[..n], members[n];
    assert members == init + [m];
    if i < n {
      DistinctPrefix(path, members, n);
      assert NameAt(path, init, i) == NameAt(path, members, i) != NameAt(path, members, n);
      TallyContents(path, init, i);
      if path(m.name).Some? {
        TallySnoc(path, init, m, path(m.name).value);
      }
    } else {
      TallySnoc(path, init, m, path(m.name).value);
    }
  }

  lemma DistinctPrefix(path: PathRule, members: seq<Member>, k: nat)
    requires DistinctNames(path, members) && k <= |members|
    ensures DistinctNames(path, members[..k])
  {
    forall i, j | 0 <= i < j < k ensures NameAt(path, members[..k], i) != NameAt(path, members[..k], j) {
      assert NameAt(path, members[..k], i) == NameAt(path, members, i);
      assert NameAt(path, members[..k], j) == NameAt(path, members, j);
    }
  }

  lemma {:induction false} TallyGrows(path: PathRule, members: seq<Member>, k: nat)
    requires k <= |members|
    ensures Tally(path, members[..k]).nameBytes <= Tally(path, members).nameBytes
    ensures Tally(path, members[..k]).total <= Tally(path, members).total
  {
    if k < |members| {
      TallyGrows(path, members[..|members| - 1], k);
      assert members[..|members| - 1][..k] == members[..k];
    } else {
      assert members[..k] == members;
    }
  }

  lemma ScannablePrefix(path: PathRule, members: seq<Member>, k: nat)
    requires Scannable(path, members) && k <= |members|
    ensures Scannable(path, members[..k])
  {
    TallyGrows(path, members, k);
    DistinctPrefix(path, members, k);
  }

  lemma AllReadableSnoc(path: PathRule, members: seq<Member>, m: Member)
    ensures AllReadable(path, members + [m]) <==> AllReadable(path, members) && Readable(path, m)
  {
    var all, n := members + [m], |members|;
    assert all[n] == m;
    assert forall i | 0 <= i < n :: all[i] == members[i];
  }

  lemma DistinctNamesSnoc(path: PathRule, members: seq<Member>, m: Member, name: string)
    requires DistinctNames(path, members) && path(m.name) == Some(name)
    ensures DistinctNames(path, members + [m]) <==> !Holds(path, members, Names, name)
  {
    var all, n := members + [m], |members|;
    assert NameAt(path, all, n) == Some(name);
    if Holds(path, members, Names, name) {
      var i :| 0 <= i < n && NameAt(path, members, i) == Some(name);
      assert NameAt(path, all, i) == NameAt(path, all, n);
    } else {
      forall i, j | 0 <= i < j < |all| ensures NameAt(path, all, i) != NameAt(path, all, j) {
        assert NameAt(path, all, i) == NameAt(path, members, i);
        if j < n {
          assert NameAt(path, all, j) == NameAt(path, members, j);
        } else {
          assert Belongs(Names, members[i], name);
        }
      }
    }
  }

  /** A readable member with a new name, within the limits, and no other may follow. */
  lemma ScannableSnoc(path: PathRule, members: seq<Member>, m: Member, name: string)
    requires Scannable(path, members) && path(m.name) == Some(name)
    ensures var s := Add(Tally(path, members), m, name);
            Scannable(path, members + [m]) <==>
              && Readable(path, m) && name !in Tally(path, members).names && |members| < MAX_MEMBERS
              && s.nameBytes <= MAX_METADATA && s.total <= MAX_EXPANDED
  {
    TallySnoc(path, members, m, name);
    TallyMeans(path, members, Names, name);
    DistinctNamesSnoc(path, members, m, name);
    AllReadableSnoc(path, members, m);
  }

  lemma {:induction false} NamesCount(path: PathRule, members: seq<Member>)
    requires Scannable(path, members)
    ensures |Tally(path, members).names| == |members|
  {
    if members != [] {
      var n := |members| - 1;
      var init, m := members[..n], members[n];
      assert members == init + [m];
      assert Readable(path, members[n]);
      ScannablePrefix(path, members, n);
      NamesCount(path, init);
      ScannableSnoc(path, init, m, path(m.name).value);
      TallySnoc(path, init, m, path(m.name).value);
    }
  }

  /** One turn of the member loop. */
  method ScanMember(path: PathRule, members: seq<Member>, m: Member, s: Scan) returns (r: Option<Scan>)
    requires Scannable(path, members) && s == Tally(path, members)
    ensures r.Some? <==> Scannable(path, members + [m])
    ensures r.Some? ==> r.value == Tally(path, members + [m])
  {
    var all, n := members + [m], |members|;
    assert all[n] == m;
    if path(m.name).None? {
      assert !Readable(path, all[n]);
      return None;
    }
    var name := path(m.name).value;
    ScannableSnoc(path, members, m, name);
    TallySnoc(path, members, m, name);
    NamesCount(path, members);
    var next := Add(s, m, name);
    if name in s.names || |s.names| >= MAX_MEMBERS || next.nameBytes > MAX_METADATA
       || !Readable(path, m) || next.total > MAX_EXPANDED {
      return None;
    }
    return Some(next);
  }

  method ScanAll(path: PathRule, members: seq<Member>) returns (r: Option<Scan>)
    ensures r.Some? <==> Scannable(path, members)
    ensures r.Some? ==> r.value == Tally(path, members)
  {
    var s := Scan({}, {}, map[], None, 0, 0);
    for k := 0 to |members|
      invariant Scannable(path, members[..k]) && s == Tally(path, members[..k])
    {
      assert members[..k + 1] == members[..k] + [members[k]];
      var next := ScanMember(path, members[..k], members[k], s);
      if next.None? {
        if Scannable(path, members) {
          ScannablePrefix(path, members, k + 1);
        }
        return None;
      }
      s := next.value;
    }
    assert members[..|members|] == members;
    return Some(s);
  }

  /** What the JSON parser makes of the manifest file: null, an inventory, or anything else. */
  datatype Document = NullDocument | Malformed | Inventory(manifest: Attachments.Manifest)

  /** The manifest of an archive; a file holding null counts as none. */
  function ManifestIn(members: seq<Member>, decode: Content -> Document): Document {
    match Tally(ArchivePath, members).manifest
    case Some(text) => decode(text)
    case None => NullDocument
  }

  /** The attachment part of an archive: its objects are exactly those its manifest lists. */
  ghost predicate AttachmentsMatch(members: seq<Member>, digest: Content -> string, decode: Content -> Document) {
    var document := ManifestIn(members, decode);
    && document.Inventory? && Attachments.ValidManifest(document.manifest)
    && Attachments.RecordOf(document.manifest, Attachments.Measured(digest, Tally(ArchivePath, members).objects))
  }

  ghost predicate Passes(members: seq<Member>, required: set<string>, attachments: bool, authentic: bool,
                         digest: Content -> string, decode: Content -> Document)
  {
    && Scannable(ArchivePath, members) && authentic && ExpectedRoots(required).Some?
    && ExpectedRoots(required).value <= Tally(ArchivePath, members).sources && Tally(ArchivePath, members).total > 0
    && (attachments || ManifestIn(members, decode) != NullDocument ==> AttachmentsMatch(members, digest, decode))
  }

  /** `verify_archive`. `required` are the configured source paths, `attachments` says whether
      an attachment inventory is required, `decode` parses the manifest and `authentic` is the decryptor's verdict
      on the whole stream. */
  method VerifyArchive(members: seq<Member>, required: set<string>, attachments: bool, authentic: bool,
                       digest: Content -> string, decode: Content -> Document)
    returns (ok: bool)
    ensures ok <==> Passes(members, required, attachments, authentic, digest, decode)
  {
    var expected := ExpectedRoots(required);
    if expected.None? {
      return false;
    }
    var scan := ScanAll(ArchivePath, members);
    if scan.None? || !authentic {
      return false;
    }
    var s := scan.value;
    var document := if s.manifest.Some? then decode(s.manifest.value) else NullDocument;
    if !(expected.value <= s.sources) || s.total == 0 || (attachments && document == NullDocument) {
      return false;
    }
    if document == NullDocument {
      return true;
    }
    if document == Malformed {
      return false;
    }
    var record := Attachments.Rebuild(document.manifest);
    if record.None? {
      return false;
    }
    var measured := Attachments.Measured(digest, s.objects);
    if Attachments.RecordOf(document.manifest, measured) {
      Attachments.RecordIsUnique(document.manifest, measured, record.value);
    }
    return measured == record.value;
  }

  /** An archive of a captured manifest passes, as far as attachments go, exactly when its
      object files are the captured ones. */
  lemma CapturedArchivePasses(members: seq<Member>, digest: Content -> string, decode: Content -> Document,
                              m: Attachments.Manifest, files: map<Attachments.Key, Content>)
    requires OnlineSnapshot.Injective(digest)
    requires Attachments.ValidManifest(m) && Attachments.Matches(digest, m, files)
    requires ManifestIn(members, decode) == Inventory(m)
    ensures AttachmentsMatch(members, digest, decode)
            <==> Attachments.Archived(Tally(ArchivePath, members).objects, files)
  {
    var objects := Tally(ArchivePath, members).objects;
    var measured := Attachments.Measured(digest, objects);
    if Attachments.RecordOf(m, measured) {
      Attachments.MeasuredArchives(digest, m, files, measured, objects);
    }
    if Attachments.Archived(objects, files) {
      Attachments.ArchivedRecord(digest, m, files, objects);
    }
  }

  // ----- A verified archive and its restoration -----

  /** A member that can be restored below one of the roots. */
  ghost predicate Placed(m: Member, roots: set<string>) {
    && m.kind != SymbolicLink && ArchivePath(m.name).Some?
    && exists r | r in roots :: Under(ArchivePath(m.name).value, r)
  }

  ghost predicate AllPlaced(members: seq<Member>, roots: set<string>) {
    forall i | 0 <= i < |members| :: Placed(members[i], roots)
  }

  /** No member is a file where another needs a directory. */
  ghost predicate NoFileAbove(items: seq<Item>) {
    forall i, j | 0 <= i < |items| && 0 <= j < |items| :: !Clash(items[i], items[j])
  }

  lemma {:induction false} TotalIsFileBytes(path: PathRule, members: seq<Member>)
    requires AllReadable(path, members)
    ensures Tally(path, members).total == FileBytes(members)
  {
    if members != [] {
      var n := |members| - 1;
      assert members == members[..n] + [members[n]];
      AllReadableSnoc(path, members[..n], members[n]);
      TotalIsFileBytes(path, members[..n]);
    }
  }

  lemma VerifiedParts(members: seq<Member>, i: nat, j: nat)
    requires AllReadable(ArchivePath, members) && DistinctNames(ArchivePath, members) && i < j < |members|
    ensures ItemsOf(members)[i].parts != ItemsOf(members)[j].parts
  {
    assert Readable(ArchivePath, members[i]) && Readable(ArchivePath, members[j]);
    assert NameAt(ArchivePath, members, i) != NameAt(ArchivePath, members, j);
    SameName(members[i].name, members[j].name);
  }

  lemma VerifiedAreCompatible(members: seq<Member>)
    requires AllReadable(ArchivePath, members) && DistinctNames(ArchivePath, members)
    ensures AllCompatible(ItemsOf(members)) <==> NoFileAbove(ItemsOf(members))
  {
    var items := ItemsOf(members);
    if NoFileAbove(items) {
      forall i, j | 0 <= i < j < |items| ensures Compatible(items[i], items[j]) {
        VerifiedParts(members, i, j);
      }
    }
    if AllCompatible(items) {
      forall i, j | 0 <= i < |items| && 0 <= j < |items| ensures !Clash(items[i], items[j]) {
        assert i < j ==> Compatible(items[i], items[j]);
        assert j < i ==> Compatible(items[j], items[i]);
      }
    }
  }

  /** An archive whose members were verified is accepted for restoration exactly when every
      member is a file or directory below a root and no file stands where a directory is
      needed. Verification alone promises neither. */
  lemma VerifiedIsRestorable(members: seq<Member>, roots: set<string>)
    requires Scannable(ArchivePath, members)
    ensures Accepted(members, roots) <==> AllPlaced(members, roots) && NoFileAbove(ItemsOf(members))
  {
    TotalIsFileBytes(ArchivePath, members);
    VerifiedAreCompatible(members);
    forall i | 0 <= i < |members| ensures Admissible(members[i], roots) <==> Placed(members[i], roots) {
      assert Readable(ArchivePath, members[i]);
    }
  }

  /** The roots such an archive was verified to contain are the roots restoration finds. */
  lemma VerifiedRootsAreFound(members: seq<Member>, roots: set<string>)
    requires AllPlaced(members, roots) && AllReadable(ArchivePath, members)
    ensures roots <= Tally(ArchivePath, members).sources <==> roots <= NamesOf(members)
  {
    forall name ensures name in Tally(ArchivePath, members).sources <==> name in NamesOf(members) {
      TallyMeans(ArchivePath, members, Sources, name);
      NamedIsSource(members, roots, name);
    }
  }

  lemma NamedIsSource(members: seq<Member>, roots: set<string>, name: string)
    requires AllPlaced(members, roots) && AllReadable(ArchivePath, members)
    ensures Holds(ArchivePath, members, Sources, name) <==> name in NamesOf(members)
  {
    forall i | 0 <= i < |members| ensures Belongs(Sources, members[i], name) {
      assert Placed(members[i], roots) && Readable(ArchivePath, members[i]);
    }
    if name in NamesOf(members) {
      var i :| 0 <= i < |members| && ArchivePath(members[i].name) == Some(name);
      assert NameAt(ArchivePath, members, i) == Some(name);
    }
  }

  const LINKED := [Member("a", RegularFile, 1, [0]), Member("b", SymbolicLink, 0, [])]

  lemma OneLetterName(c: char)
    requires 'a' <= c <= 'z'
    ensures ArchivePath([c]) == Some([c])
  {
    ProperIsAccepted([[c]]);
  }

  lemma OneRoot(name: string)
    requires ArchivePath(name) == Some(name)
    ensures ExpectedRoots({"/" + name}) == Some({name})
  {
    var path := "/" + name;
    assert path[1..] == name;
    assert name == "" || name[0] != '/';
    assert WithoutSlashes(path) == WithoutSlashes(name) == name;
    assert path in {path} && Configurable(path);
    assert ExpectedRoots({path}).value == {name};
  }

  /** An archive holding a symbolic link can pass verification, and can never be restored. */
  lemma VerifiedLinkIsNotRestored(digest: Content -> string, decode: Content -> Document, roots: set<string>)
    ensures Passes(LINKED, {"/a"}, false, true, digest, decode)
    ensures !Accepted(LINKED, roots)
  {
    OneLetterName('a');
    OneLetterName('b');
    OneRoot("a");
    assert "a" != MANIFEST && "b" != MANIFEST;
    TwoMembers(ArchivePath, LINKED[0], LINKED[1], "a", "b");
    assert LINKED == [LINKED[0], LINKED[1]];
    VerifiedIsRestorable(LINKED, roots);
    assert !Placed(LINKED[1], roots);
  }

  // ----- A null manifest -----

  /** The manifest lists the object with the size and digest it has. */
  ghost predicate ListedObject(document: Document, digest: Content -> string, path: string, content: Content) {
    document.Inventory?
    && exists space, i: nat | Attachments.Lists(document.manifest, space, i) ::
         var e := Attachments.EntryOf(document.manifest, space, i);
         path == Attachments.ObjectPath((space, e.name)) && |content| == e.size && digest(content) == e.sha256
  }

  ghost predicate AllListed(members: seq<Member>, digest: Content -> string, decode: Content -> Document) {
    var objects := Tally(ArchivePath, members).objects;
    forall path | path in objects :: ListedObject(ManifestIn(members, decode), digest, path, objects[path])
  }

  lemma MatchedIsListed(members: seq<Member>, digest: Content -> string, decode: Content -> Document)
    requires AttachmentsMatch(members, digest, decode)
    ensures AllListed(members, digest, decode)
  {
    var objects := Tally(ArchivePath, members).objects;
    var m, measured := ManifestIn(members, decode).manifest, Attachments.Measured(digest, objects);
    forall path | path in objects ensures ListedObject(ManifestIn(members, decode), digest, path, objects[path]) {
      assert path in measured;
      var space, i: nat :| Attachments.Lists(m, space, i)
                           && path == Attachments.ObjectPath((space, Attachments.EntryOf(m, space, i).name));
      assert Attachments.Recorded(measured, space, Attachments.EntryOf(m, space, i));
    }
  }

  /** Every object of a passing archive is listed by its manifest, with its size and digest, if
      and only if attachments are required, the manifest is not null, or there is no object. */
  lemma UncheckedObjects(members: seq<Member>, required: set<string>, attachments: bool, authentic: bool,
                         digest: Content -> string, decode: Content -> Document)
    requires Passes(members, required, attachments, authentic, digest, decode)
    ensures AllListed(members, digest, decode) <==>
              || attachments || ManifestIn(members, decode) != NullDocument
              || Tally(ArchivePath, members).objects == map[]
  {
    if attachments || ManifestIn(members, decode) != NullDocument {
      MatchedIsListed(members, digest, decode);
    }
  }

  const OBJECT := "elo-attachments/spaces/x"
  const NULL_TEXT: Content := [110, 117, 108, 108]
  const UNLISTED := [Member(OBJECT, RegularFile, 1, [0]), Member(MANIFEST, RegularFile, 4, NULL_TEXT)]

  lemma AttachmentComponents()
    ensures Proper(["elo-attachments"]) && Proper(["spaces"]) && Proper(["x"]) && Proper(["manifest.json"])
  {
  }

  lemma JoinTwo(a: string, b: string)
    requires Proper([a]) && Proper([b]) && |a| + |b| <= 1000
    ensures ArchivePath(a + "/" + b) == Some(a + "/" + b)
  {
    assert [a, b][1..] == [b];
    assert a in [a] && b in [b];
    ProperIsAccepted([a, b]);
  }

  lemma JoinThree(a: string, b: string, c: string)
    requires Proper([a]) && Proper([b]) && Proper([c]) && |a| + |b| + |c| <= 1000
    ensures ArchivePath(a + "/" + b + "/" + c) == Some(a + "/" + b + "/" + c)
  {
    assert [a, b, c][1..] == [b, c] && [b, c][1..] == [c];
    assert a in [a] && b in [b] && c in [c];
    assert Join([b, c]) == b + "/" + c;
    assert Join([a, b, c]) == a + "/" + (b + "/" + c) == a + "/" + b + "/" + c;
    ProperIsAccepted([a, b, c]);
  }

  lemma ObjectSpelled()
    ensures OBJECT == "elo-attachments" + "/" + "spaces" + "/" + "x"
  {
  }

  lemma ManifestSpelled()
    ensures MANIFEST == "elo-attachments" + "/" + "manifest.json"
  {
  }

  lemma AttachmentNames()
    ensures ArchivePath(OBJECT) == Some(OBJECT) && ArchivePath(MANIFEST) == Some(MANIFEST)
  {
    AttachmentComponents();
    JoinTwo("elo-attachments", "manifest.json");
    JoinThree("elo-attachments", "spaces", "x");
    ObjectSpelled();
    ManifestSpelled();
  }

  /** Two members of different names. */
  lemma TwoMembers(path: PathRule, m: Member, n: Member, a: string, b: string)
    requires Readable(path, m) && Readable(path, n) && path(m.name) == Some(a) && path(n.name) == Some(b) && a != b
    requires |a| <= 1024 && |b| <= 1024 && m.size + n.size <= 1024
    ensures var s := Add(Add(Scan({}, {}, map[], None, 0, 0), m, a), n, b);
            Tally(path, [m, n]) == s && Scannable(path, [m, n])
  {
    assert [] + [m] == [m] && [m] + [n] == [m, n];
    TallySnoc(path, [], m, a);
    TallySnoc(path, [m], n, b);
    Utf8Bound(a);
    Utf8Bound(b);
    assert NameAt(path, [m, n], 0) != NameAt(path, [m, n], 1);
  }

  /** What is gathered of one object and a manifest. */
  lemma ObjectThenManifest(m: Member, n: Member)
    requires m.kind == RegularFile && n.kind == RegularFile && m.size == 1
    ensures var s := AddAs(AddAs(Scan({}, {}, map[], None, 0, 0), m, m.name, true, false), n, n.name, false, true);
            s.sources == {m.name, n.name} && s.objects == map[m.name := m.content] && s.manifest == Some(n.content)
            && s.total > 0
  {
  }

  lemma ObjectAndManifest(path: PathRule, m: Member, n: Member)
    requires m.kind == RegularFile && IsObject(m, m.name) && !IsManifest(m, m.name)
    requires n.kind == RegularFile && IsManifest(n, n.name) && !IsObject(n, n.name)
    requires path(m.name) == Some(m.name) && path(n.name) == Some(n.name)
    requires |m.name| <= 1024 && |n.name| <= 1024
    requires m.size == |m.content| == 1 && n.size == |n.content| <= 1000
    ensures Scannable(path, [m, n])
    ensures var s := Tally(path, [m, n]);
            s.sources == {m.name, n.name} && s.objects == map[m.name := m.content] && s.manifest == Some(n.content)
            && s.total > 0
  {
    assert Readable(path, m) && Readable(path, n) && m.name != n.name;
    ObjectThenManifest(m, n);
    TwoMembers(path, m, n, m.name, n.name);
  }

  /** An archive with an attachment object and a manifest file that holds null passes where
      attachments are not required, although no manifest lists the object. */
  lemma NullManifestPasses(digest: Content -> string, decode: Content -> Document)
    requires decode(NULL_TEXT) == NullDocument
    ensures Passes(UNLISTED, {"/" + OBJECT}, false, true, digest, decode)
    ensures OBJECT in Tally(ArchivePath, UNLISTED).objects && Tally(ArchivePath, UNLISTED).manifest == Some(NULL_TEXT)
    ensures ManifestIn(UNLISTED, decode) == NullDocument
  {
    var m, n := Member(OBJECT, RegularFile, 1, [0]), Member(MANIFEST, RegularFile, 4, NULL_TEXT);
    assert UNLISTED == [m, n];
    AttachmentNames();
    UnlistedKinds();
    ObjectAndManifest(ArchivePath, m, n);
    OneRoot(OBJECT);
  }

  lemma UnlistedKinds()
    ensures OBJECT != MANIFEST && |OBJECT| == 24 && |MANIFEST| == 29
    ensures Attachments.PREFIX <= OBJECT && !(Attachments.PREFIX <= MANIFEST)
  {
    assert OBJECT[16] != MANIFEST[16] && Attachments.PREFIX[16] != MANIFEST[16];
  }
}
