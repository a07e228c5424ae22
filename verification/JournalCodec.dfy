/** The journal as JSON: what `apply` writes and how `recover` reads it back. */
module JournalCodec {
  import opened Prelude
  import opened Json
  import opened Schema
  import opened AdminConfig
  import opened AdminProtocol
  import Base64

  type Bytes = seq<Byte>

  const MAX_ID := 4294967295

  function AllowedList(role: Role): seq<Path> {
    match role
    case Api => [ApiConfig, ManifestInput, HostingProfile, HostingLink, HostingQr, HostingPage]
    case Witness => [StorageConfig, ManagedStorageFile]
  }

  /** The first of `paths` with that name. */
  function FindPath(paths: seq<Path>, name: string): Option<Path> {
    if paths == [] then None else if PathName(paths[0]) == name then Some(paths[0]) else FindPath(paths[1..], name)
  }

  predicate JobId(id: Id) {
    |id| == 32 && forall c | c in id :: Hex(c)
  }

  // ----- Writing -----

  function EncodeRecord(c: Change<Bytes>): Value {
    match c.content
    case None => Object(map[PathField := Str(PathName(c.path)), ContentField := Null])
    case Some(f) =>
      Object(map[PathField := Str(PathName(c.path)), ContentField := Str(Base64.Encode(f.data)),
                 UidField := Int(f.uid), GidField := Int(f.gid), ModeField := Int(f.mode)])
  }

  function EncodeRecords(previous: seq<Change<Bytes>>): seq<Value> {
    seq(|previous|, i requires 0 <= i < |previous| => EncodeRecord(previous[i]))
  }

  function PhaseName(phase: Phase): string {
    if phase == Prepared then "prepared" else "committed"
  }

  function PhaseText(phase: Phase): Value {
    Str(PhaseName(phase))
  }

  function EncodeJournal(id: Id, phase: Phase, previous: seq<Change<Bytes>>): Value {
    Object(map[IdField := Str(id), PhaseField := PhaseText(phase), PreviousField := List(EncodeRecords(previous))])
  }

  // ----- The text of a journal: sorted keys, indented by two, one byte a character -----

  function Decimal(n: nat): string {
    (if n < 10 then "" else Decimal(n / 10)) + ['0' + (n % 10) as char]
  }

  function RecordText(c: Change<Bytes>): string {
    match c.content
    case None =>
      "    {\n      \"content\": null,\n      \"path\": \"" + PathName(c.path) + "\"\n    }"
    case Some(f) =>
      "    {\n      \"content\": \"" + Base64.Encode(f.data) + "\",\n      \"gid\": " + Decimal(f.gid)
      + ",\n      \"mode\": " + Decimal(f.mode) + ",\n      \"path\": \"" + PathName(c.path)
      + "\",\n      \"uid\": " + Decimal(f.uid) + "\n    }"
  }

  function RecordsText(previous: seq<Change<Bytes>>): string {
    if previous == [] then "" else
    if |previous| == 1 then RecordText(previous[0]) else RecordText(previous[0]) + ",\n" + RecordsText(previous[1..])
  }

  function JournalText(id: Id, phase: Phase, previous: seq<Change<Bytes>>): string {
    "{\n  \"id\": \"" + id + "\",\n  \"phase\": \"" + PhaseName(phase) + "\",\n  \"previous\": [\n"
    + RecordsText(previous) + "\n  ]\n}\n"
  }

  // ----- Reading -----

  predicate IntIn(v: Value, maximum: int) {
    v.Int? && 0 <= v.number <= maximum
  }

  /** A record whose path is already known. */
  function DecodeContent(path: Path, m: map<Field, Value>): Option<Change<Bytes>> {
    if Get(m, ContentField) == Null then
      if m.Keys == {PathField, ContentField} then Some(Change(path, None)) else None
    else if m.Keys == {PathField, ContentField, UidField, GidField, ModeField}
            && IntIn(m[UidField], MAX_ID) && IntIn(m[GidField], MAX_ID) && IntIn(m[ModeField], 0x1FF)
            && m[ContentField].Str? then
      var data :- Base64.Decode(m[ContentField].text);
      if |data| > MAX_FILE then None
      else Some(Change(path, Some(File(data, |data|, m[UidField].number, m[GidField].number, m[ModeField].number))))
    else None
  }

  function DecodeRecord(role: Role, v: Value, seen: set<Path>): Option<Change<Bytes>> {
    if !v.Object? || !Get(v.fields, PathField).Str? then None else
    var path :- FindPath(AllowedList(role), v.fields[PathField].text);
    if path in seen then None else DecodeContent(path, v.fields)
  }

  /** The records from `k` on, after those at `seen`. */
  function DecodeRecords(role: Role, items: seq<Value>, seen: set<Path>): Option<seq<Change<Bytes>>> {
    if items == [] then Some([]) else
    var first :- DecodeRecord(role, items[0], seen);
    var rest :- DecodeRecords(role, items[1..], seen + {first.path});
    Some([first] + rest)
  }

  /** The checks on the journal as a whole. */
  function DecodeFields(role: Role, id: Id, m: map<Field, Value>): Option<(Phase, seq<Value>)> {
    if m.Keys != {IdField, PhaseField, PreviousField} || m[IdField] != Str(id) || !JobId(id)
       || (m[PhaseField] != PhaseText(Prepared) && m[PhaseField] != PhaseText(Committed))
       || !m[PreviousField].List? || |m[PreviousField].items| != |AllowedList(role)|
    then None
    else Some((if m[PhaseField] == PhaseText(Prepared) then Prepared else Committed, m[PreviousField].items))
  }

  /** The journal named after `id`; None where `recover` raises instead of restoring anything. */
  function DecodeJournal(role: Role, id: Id, v: Value): Option<(Phase, seq<Change<Bytes>>)> {
    if !v.Object? then None else
    var header :- DecodeFields(role, id, v.fields);
    var records :- DecodeRecords(role, header.1, {});
    Some((header.0, records))
  }

  /** The start of `recover`: at most 8 MiB are read, then parsed, then checked. */
  function ReadJournal(role: Role, id: Id, text: string, parse: string -> Option<Value>)
    : Option<(Phase, seq<Change<Bytes>>)>
  {
    if |text| > MAX_JOURNAL then None else
    var v :- parse(text);
    DecodeJournal(role, id, v)
  }

  /** The records read so far, followed by those still to come. */
  function Followed(done: seq<Change<Bytes>>, rest: Option<seq<Change<Bytes>>>): Option<seq<Change<Bytes>>> {
    match rest case Some(r) => Some(done + r) case None => None
  }

  lemma OneMoreRecord(role: Role, items: seq<Value>, done: seq<Change<Bytes>>, seen: set<Path>)
    requires items != []
    ensures var first := DecodeRecord(role, items[0], seen);
            Followed(done, DecodeRecords(role, items, seen))
            == if first.None? then None
               else Followed(done + [first.value], DecodeRecords(role, items[1..], seen + {first.value.path}))
  {
    var first := DecodeRecord(role, items[0], seen);
    if first.Some? {
      var rest := DecodeRecords(role, items[1..], seen + {first.value.path});
      if rest.Some? {
        assert done + ([first.value] + rest.value) == done + [first.value] + rest.value;
      }
    }
  }

  /** The loop of `recover` over the records: everything is checked before anything is written. */
  method ReadRecords(role: Role, items: seq<Value>) returns (restored: Option<seq<Change<Bytes>>>)
    ensures restored == DecodeRecords(role, items, {})
  {
    var done: seq<Change<Bytes>>, seen: set<Path>, left := [], {}, items;
    ghost var all := DecodeRecords(role, items, {});
    assert Followed([], all) == all by {
      assert all.Some? ==> [] + all.value == all.value;
    }
    while left != []
      invariant Followed(done, DecodeRecords(role, left, seen)) == all
      decreases |left|
    {
      var record := DecodeRecord(role, left[0], seen);
      OneMoreRecord(role, left, done, seen);
      if record.None? {
        return None;
      }
      done, seen, left := done + [record.value], seen + {record.value.path}, left[1..];
    }
    assert done + [] == done;
    return Some(done);
  }

  // ----- Every journal written is read back -----

  /** A record `apply` can write: files over 1 MiB are refused when read, and owners are 32-bit. */
  predicate Writable(c: Change<Bytes>) {
    c.content.Some? ==>
      && c.content.value.size == |c.content.value.data| <= MAX_FILE
      && c.content.value.uid <= MAX_ID && c.content.value.gid <= MAX_ID
  }

  lemma PathNameInjective(p: Path, q: Path)
    requires PathName(p) == PathName(q)
    ensures p == q
  {
    var a, b := PathName(p), PathName(q);
    assert |a| == |b| && (|a| == 27 ==> a[23] == b[23]);
  }

  lemma {:induction false} FindPathFinds(paths: seq<Path>, p: Path)
    requires p in paths
    ensures FindPath(paths, PathName(p)) == Some(p)
  {
    if PathName(paths[0]) == PathName(p) {
      PathNameInjective(paths[0], p);
    } else {
      FindPathFinds(paths[1..], p);
    }
  }

  lemma AllowedListed(role: Role, p: Path)
    requires p in Allowed(role)
    ensures p in AllowedList(role)
  {
    if role == Api {
      var l := AllowedList(Api);
      assert l[0] == ApiConfig && l[1] == ManifestInput && l[2] == HostingProfile;
      assert l[3] == HostingLink && l[4] == HostingQr && l[5] == HostingPage;
    } else {
      var l := AllowedList(Witness);
      assert l[0] == StorageConfig && l[1] == ManagedStorageFile;
    }
  }

  lemma PresentRoundTrip(c: Change<Bytes>)
    requires Writable(c) && c.content.Some?
    ensures DecodeContent(c.path, EncodeRecord(c).fields)
            == if c.content.value.mode > 0x1FF then None else Some(c)
  {
    Base64.RoundTrip(c.content.value.data);
    assert EncodeRecord(c).fields.Keys == {PathField, ContentField, UidField, GidField, ModeField};
  }

  lemma ContentRoundTrip(c: Change<Bytes>)
    requires Writable(c)
    ensures EncodeRecord(c).fields[PathField] == Str(PathName(c.path))
    ensures DecodeContent(c.path, EncodeRecord(c).fields)
            == if c.content.Some? && c.content.value.mode > 0x1FF then None else Some(c)
  {
    if c.content.Some? {
      PresentRoundTrip(c);
    } else {
      assert EncodeRecord(c).fields.Keys == {PathField, ContentField};
    }
  }

  lemma RecordRoundTrip(role: Role, c: Change<Bytes>, seen: set<Path>)
    requires c.path in Allowed(role) && Writable(c) && c.path !in seen
    ensures DecodeRecord(role, EncodeRecord(c), seen)
            == if c.content.Some? && c.content.value.mode > 0x1FF then None else Some(c)
  {
    AllowedListed(role, c.path);
    FindPathFinds(AllowedList(role), c.path);
    ContentRoundTrip(c);
  }

  lemma {:induction false} RecordsRoundTrip(role: Role, previous: seq<Change<Bytes>>, seen: set<Path>)
    requires forall i | 0 <= i < |previous| ::
               previous[i].path in Allowed(role) && Writable(previous[i]) && previous[i].path !in seen
    requires forall i, j | 0 <= i < j < |previous| :: previous[i].path != previous[j].path
    ensures DecodeRecords(role, EncodeRecords(previous), seen)
            == if Recoverable(previous) then Some(previous) else None
  {
    if previous != [] {
      var first, rest := previous[0], previous[1..];
      RecordRoundTrip(role, first, seen);
      assert EncodeRecords(previous)[1..] == EncodeRecords(rest);
      RecordsRoundTrip(role, rest, seen + {first.path});
      assert previous == [first] + rest;
      if Recoverable(rest) && !(first.content.Some? && first.content.value.mode > 0x1FF) {
        forall i | 0 <= i < |previous| && previous[i].content.Some?
          ensures previous[i].content.value.mode <= 0x1FF
        {
          assert i > 0 ==> previous[i] == rest[i - 1];
        }
      } else if !Recoverable(rest) {
        var i :| 0 <= i < |rest| && rest[i].content.Some? && rest[i].content.value.mode > 0x1FF;
        assert previous[i + 1] == rest[i];
      }
    }
  }

  lemma CoversCount<D>(changes: seq<Change<D>>, role: Role)
    requires Covers(changes, role)
    ensures |changes| == |AllowedList(role)|
  {
    PathCount(changes);
    if role == Api {
      assert |Allowed(Api)| == 6;
    } else {
      assert |Allowed(Witness)| == 2;
    }
  }

  lemma {:induction false} PathCount<D>(changes: seq<Change<D>>)
    requires forall i, j | 0 <= i < j < |changes| :: changes[i].path != changes[j].path
    ensures |PathsOf(changes)| == |changes|
  {
    if changes != [] {
      var n := |changes| - 1;
      PathCount(changes[..n]);
      assert PathsOf(changes) == PathsOf(changes[..n]) + {changes[n].path};
    }
  }

  lemma JournalHeader(role: Role, id: Id, phase: Phase, items: seq<Value>)
    requires JobId(id) && |items| == |AllowedList(role)|
    ensures var m := map[IdField := Str(id), PhaseField := PhaseText(phase), PreviousField := List(items)];
            DecodeFields(role, id, m) == Some((phase, items))
  {
    var m := map[IdField := Str(id), PhaseField := PhaseText(phase), PreviousField := List(items)];
    assert m.Keys == {IdField, PhaseField, PreviousField};
    assert "prepared"[0] != "committed"[0];
  }

  lemma DocumentRoundTrip(role: Role, id: Id, phase: Phase, previous: seq<Change<Bytes>>)
    requires JobId(id) && Covers(previous, role)
    requires forall i | 0 <= i < |previous| :: Writable(previous[i])
    ensures DecodeJournal(role, id, EncodeJournal(id, phase, previous))
            == if Recoverable(previous) then Some((phase, previous)) else None
  {
    CoversCount(previous, role);
    forall i | 0 <= i < |previous| ensures previous[i].path in Allowed(role) {
      assert previous[i].path in PathsOf(previous);
    }
    RecordsRoundTrip(role, previous, {});
    JournalHeader(role, id, phase, EncodeRecords(previous));
  }

  // ----- Only such journals are accepted -----

  lemma {:induction false} FoundIsListed(paths: seq<Path>, name: string)
    requires FindPath(paths, name).Some?
    ensures FindPath(paths, name).value in paths && PathName(FindPath(paths, name).value) == name
  {
    if PathName(paths[0]) != name {
      FoundIsListed(paths[1..], name);
    }
  }

  lemma ListedAllowed(role: Role, p: Path)
    requires p in AllowedList(role)
    ensures p in Allowed(role)
  {
  }

  lemma {:induction false} AcceptedRecords(role: Role, items: seq<Value>, seen: set<Path>)
    requires DecodeRecords(role, items, seen).Some?
    ensures var records := DecodeRecords(role, items, seen).value;
            && |records| == |items| && Recoverable(records)
            && (forall i | 0 <= i < |records| ::
                  records[i].path in Allowed(role) && Writable(records[i]) && records[i].path !in seen)
            && (forall i, j | 0 <= i < j < |records| :: records[i].path != records[j].path)
  {
    if items != [] {
      var first := DecodeRecord(role, items[0], seen).value;
      var rest := DecodeRecords(role, items[1..], seen + {first.path}).value;
      AcceptedRecords(role, items[1..], seen + {first.path});
      FoundIsListed(AllowedList(role), items[0].fields[PathField].text);
      ListedAllowed(role, first.path);
      var all := [first] + rest;
      assert forall i | 0 < i < |all| :: all[i] == rest[i - 1];
    }
  }

  /** Whatever recovery accepts is named after its job, is prepared or committed, and holds
      every file of the role once, each of at most 1 MiB, with 32-bit owners and permission
      bits up to 0o777. */
  lemma AcceptedJournal(role: Role, id: Id, v: Value)
    requires DecodeJournal(role, id, v).Some?
    ensures |id| == 32 && forall i | 0 <= i < 32 :: '0' <= id[i] <= '9' || 'a' <= id[i] <= 'f'
    ensures v.Object? && v.fields.Keys == {IdField, PhaseField, PreviousField} && v.fields[IdField] == Str(id)
    ensures v.fields[PhaseField]
            == Str(if DecodeJournal(role, id, v).value.0 == Prepared then "prepared" else "committed")
    ensures var records := DecodeJournal(role, id, v).value.1;
            && Covers(records, role)
            && (forall i | 0 <= i < |records| && records[i].content.Some? ::
                  var f := records[i].content.value;
                  f.size == |f.data| <= 1048576 && f.uid <= 4294967295 && f.gid <= 4294967295 && f.mode <= 511)
  {
    var header := DecodeFields(role, id, v.fields).value;
    var records := DecodeJournal(role, id, v).value.1;
    AcceptedRecords(role, header.1, {});
    assert "prepared"[0] != "committed"[0];
    forall i | 0 <= i < 32 ensures Hex(id[i]) {
      assert id[i] in id;
    }
    PathCount(records);
    AllowedCount(role);
    assert PathsOf(records) <= Allowed(role);
    SubsetOfSize(PathsOf(records), Allowed(role));
  }

  lemma AllowedCount(role: Role)
    ensures |Allowed(role)| == |AllowedList(role)|
  {
    if role == Api {
      assert |Allowed(Api)| == 6;
    } else {
      assert |Allowed(Witness)| == 2;
    }
  }

  lemma SubsetOfSize<T>(a: set<T>, b: set<T>)
    requires a <= b && |a| == |b|
    ensures a == b
  {
    assert |b - a| == |b| - |a|;
  }

  /** A journal `apply` writes is read back as the records it was made of if and only if no
      replaced file has permission bits above 0o777 and its text is at most 8 MiB long; any
      other is refused. The parser is only assumed to read this text as what was written. */
  lemma JournalRoundTrip(role: Role, id: Id, phase: Phase, previous: seq<Change<Bytes>>, parse: string -> Option<Value>)
    requires JobId(id) && Covers(previous, role)
    requires forall i | 0 <= i < |previous| :: Writable(previous[i])
    requires parse(JournalText(id, phase, previous)) == Some(EncodeJournal(id, phase, previous))
    ensures ReadJournal(role, id, JournalText(id, phase, previous), parse)
            == if Recoverable(previous) && |JournalText(id, phase, previous)| <= 8388608
               then Some((phase, previous)) else None
  {
    DocumentRoundTrip(role, id, phase, previous);
  }

  /** The mark of a commit makes the text one byte longer: a journal of exactly 8 MiB can be
      rolled back but, once committed, no longer be read. */
  lemma CommitLengthens(id: Id, previous: seq<Change<Bytes>>)
    ensures |JournalText(id, Committed, previous)| == |JournalText(id, Prepared, previous)| + 1
  {
  }

  // ----- The protocol's journals -----

  lemma {:induction false} DecimalLength(n: nat)
    ensures |Decimal(n)| == Digits(n)
  {
    if n >= 10 {
      DecimalLength(n / 10);
    }
  }

  lemma RecordTextLength(c: Change<Bytes>)
    requires Writable(c)
    ensures |RecordText(c)| == RecordLength(c)
  {
    if c.content.Some? {
      var f := c.content.value;
      DecimalLength(f.uid);
      DecimalLength(f.gid);
      DecimalLength(f.mode);
      Base64.EncodedLength(f.data);
      Base64.GroupsAreThirds(|f.data|);
    }
  }

  lemma {:induction false} RecordsTextLength(previous: seq<Change<Bytes>>)
    requires forall i | 0 <= i < |previous| :: Writable(previous[i])
    ensures |RecordsText(previous)| == RecordsLength(previous)
  {
    if previous != [] {
      RecordTextLength(previous[0]);
      RecordsTextLength(previous[1..]);
    }
  }

  /** A journalled file as the protocol sees it: its document instead of its bytes. */
  function Viewed(c: Change<Bytes>, view: Bytes -> Document): Change<Document> {
    match c.content
    case None => Change(c.path, None)
    case Some(f) => Change(c.path, Some(File(view(f.data), f.size, f.uid, f.gid, f.mode)))
  }

  function ViewedAll(previous: seq<Change<Bytes>>, view: Bytes -> Document): seq<Change<Document>> {
    if previous == [] then [] else [Viewed(previous[0], view)] + ViewedAll(previous[1..], view)
  }

  lemma ViewedLength(c: Change<Bytes>, view: Bytes -> Document)
    ensures RecordLength(Viewed(c, view)) == RecordLength(c)
  {
  }

  lemma {:induction false} ViewedLengths(previous: seq<Change<Bytes>>, view: Bytes -> Document)
    ensures RecordsLength(ViewedAll(previous, view)) == RecordsLength(previous)
    ensures |ViewedAll(previous, view)| == |previous|
  {
    if previous != [] {
      var first, rest := Viewed(previous[0], view), ViewedAll(previous[1..], view);
      ViewedLength(previous[0], view);
      ViewedLengths(previous[1..], view);
      assert ([first] + rest)[1..] == rest;
    }
  }

  lemma {:induction false} ViewedModes(previous: seq<Change<Bytes>>, view: Bytes -> Document)
    ensures Recoverable(ViewedAll(previous, view)) <==> Recoverable(previous)
  {
    if previous != [] {
      var first, rest := Viewed(previous[0], view), ViewedAll(previous[1..], view);
      ViewedModes(previous[1..], view);
      assert ([first] + rest)[1..] == rest && ([first] + rest)[0] == first;
      RecoverableCons(previous);
      RecoverableCons([first] + rest);
    }
  }

  lemma RecoverableCons<D>(previous: seq<Change<D>>)
    requires previous != []
    ensures Recoverable(previous) <==>
              (previous[0].content.Some? ==> previous[0].content.value.mode <= 0x1FF) && Recoverable(previous[1..])
  {
    var rest := previous[1..];
    assert forall i | 0 <= i < |rest| :: rest[i] == previous[i + 1];
    assert forall i | 0 < i < |previous| :: previous[i] == rest[i - 1];
  }

  /** The length the protocol gives a journal is that of its text, and the protocol calls it
      readable exactly when recovery accepts the text. */
  lemma ReadableIsAccepted(role: Role, id: Id, phase: Phase, previous: seq<Change<Bytes>>,
                           parse: string -> Option<Value>, view: Bytes -> Document)
    requires JobId(id) && Covers(previous, role)
    requires forall i | 0 <= i < |previous| :: Writable(previous[i])
    requires parse(JournalText(id, phase, previous)) == Some(EncodeJournal(id, phase, previous))
    ensures var viewed := ViewedAll(previous, view);
            var length := JournalLength(id, phase, viewed);
            && length == |JournalText(id, phase, previous)|
            && (Readable(Journal(phase, viewed, length))
                <==> ReadJournal(role, id, JournalText(id, phase, previous), parse).Some?)
  {
    RecordsTextLength(previous);
    ViewedLengths(previous, view);
    ViewedModes(previous, view);
    JournalRoundTrip(role, id, phase, previous, parse);
  }

  // ----- Two journals that are written and refused -----

  /** A configuration file with mode 0o4600. */
  const SETUID_JOURNAL: seq<Change<Bytes>> :=
    [Change(StorageConfig, Some(File([], 0, 0, 0, 0x980))), Change(ManagedStorageFile, None)]

  lemma SetuidIsRefused(id: Id, phase: Phase, parse: string -> Option<Value>)
    requires JobId(id)
    requires parse(JournalText(id, phase, SETUID_JOURNAL)) == Some(EncodeJournal(id, phase, SETUID_JOURNAL))
    ensures ReadJournal(Witness, id, JournalText(id, phase, SETUID_JOURNAL), parse) == None
  {
    var previous := SETUID_JOURNAL;
    assert PathsOf(previous) == {previous[0].path, previous[1].path};
    assert previous[0].content.value.mode == 0x980;
    JournalRoundTrip(Witness, id, phase, previous, parse);
  }

  /** Characters of file content in the journal. */
  function ContentChars(previous: seq<Change<Bytes>>): nat {
    if previous == [] then 0 else
      (if previous[0].content.Some? then |Base64.Encode(previous[0].content.value.data)| else 0)
      + ContentChars(previous[1..])
  }

  lemma MaximalText(data: Bytes)
    requires |data| == MAX_FILE
    ensures |Base64.Encode(data)| == 1398104
  {
    Base64.EncodedLength(data);
    Base64.GroupsAreThirds(|data|);
  }

  lemma {:induction false} MaximalContent(previous: seq<Change<Bytes>>)
    requires forall i | 0 <= i < |previous| ::
               previous[i].content.Some? && |previous[i].content.value.data| == MAX_FILE
    ensures ContentChars(previous) == |previous| * 1398104
  {
    if previous != [] {
      MaximalText(previous[0].content.value.data);
      MaximalContent(previous[1..]);
    }
  }

  /** Every record's text holds its content. */
  lemma {:induction false} ContentIsWritten(previous: seq<Change<Bytes>>)
    ensures ContentChars(previous) <= |RecordsText(previous)|
  {
    if previous != [] {
      ContentIsWritten(previous[1..]);
      if |previous| == 1 {
        assert previous[1..] == [];
      }
    }
  }

  /** Six files of the greatest size `apply` reads make a journal recovery refuses, whatever
      their owners and modes and however it is parsed. */
  lemma MaximalFilesRefused(id: Id, phase: Phase, previous: seq<Change<Bytes>>, parse: string -> Option<Value>)
    requires Covers(previous, Api)
    requires forall i | 0 <= i < |previous| ::
               previous[i].content.Some? && |previous[i].content.value.data| == MAX_FILE
    ensures ReadJournal(Api, id, JournalText(id, phase, previous), parse) == None
  {
    CoversCount(previous, Api);
    MaximalContent(previous);
    ContentIsWritten(previous);
  }
}
