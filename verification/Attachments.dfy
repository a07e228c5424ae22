/** Attachment objects in a backup: the inventory they are copied by, and the check that an
    archive holds exactly the inventoried objects. */
module Attachments {
  import opened Prelude
  import opened Sums
  import opened OnlineSnapshot
  import Schema

  const MAX_FILE := 6 * 1024 * 1024

  datatype ObjectEntry = ObjectEntry(name: string, size: int, sha256: string)
  datatype SpaceState = SpaceState(revision: string, objects: seq<ObjectEntry>)
  datatype Manifest = Manifest(version: int, spaces: map<string, SpaceState>)

  /** An object is addressed by its Space and its name. */
  type Key = (string, string)

  predicate HexString(s: string, n: nat) {
    |s| == n && forall c | c in s :: Schema.Hex(c)
  }

  predicate ValidObject(e: ObjectEntry) {
    HexString(e.name, 32) && 0 < e.size <= MAX_FILE && HexString(e.sha256, 64)
  }

  predicate ValidSpace(space: string, state: SpaceState) {
    && HexString(space, 64) && HexString(state.revision, 64)
    && (forall i | 0 <= i < |state.objects| :: ValidObject(state.objects[i]))
    && (forall i, j | 0 <= i < j < |state.objects| :: state.objects[i].name != state.objects[j].name)
  }

  /** An object's entry: 32 hexadecimal digits, at most 6 MiB, and a SHA-256 digest. */
  lemma ValidObjectMeans(e: ObjectEntry)
    ensures ValidObject(e) <==> Hexadecimal(e.name, 32) && 0 < e.size <= 6291456 && Hexadecimal(e.sha256, 64)
  {
    HexMeans(e.name, 32);
    HexMeans(e.sha256, 64);
  }

  ghost predicate Hexadecimal(s: string, n: nat) {
    |s| == n && forall i | 0 <= i < n :: '0' <= s[i] <= '9' || 'a' <= s[i] <= 'f'
  }

  lemma HexMeans(s: string, n: nat)
    ensures HexString(s, n) <==> Hexadecimal(s, n)
  {
    if HexString(s, n) {
      forall i | 0 <= i < n ensures Schema.Hex(s[i]) {
        assert s[i] in s;
      }
    }
  }

  /** Version 1, Spaces and revisions of 64 hexadecimal digits, and in each Space well-formed
      entries of different names. */
  lemma ValidManifestMeans(m: Manifest)
    ensures ValidManifest(m) <==>
              m.version == 1
              && forall space | space in m.spaces ::
                   && Hexadecimal(space, 64) && Hexadecimal(m.spaces[space].revision, 64)
                   && (forall i | 0 <= i < |m.spaces[space].objects| :: ValidObject(m.spaces[space].objects[i]))
                   && DistinctNames(m.spaces[space].objects)
  {
    forall space | space in m.spaces
      ensures HexString(space, 64) <==> Hexadecimal(space, 64)
      ensures HexString(m.spaces[space].revision, 64) <==> Hexadecimal(m.spaces[space].revision, 64)
    {
      HexMeans(space, 64);
      HexMeans(m.spaces[space].revision, 64);
    }
  }

  predicate ValidManifest(m: Manifest) {
    m.version == 1 && forall space | space in m.spaces :: ValidSpace(space, m.spaces[space])
  }

  function Size(e: ObjectEntry): nat {
    if e.size > 0 then e.size else 0
  }

  function SpaceSize(objects: seq<ObjectEntry>): nat {
    if objects == [] then 0 else SpaceSize(objects[..|objects| - 1]) + Size(objects[|objects| - 1])
  }

  ghost function SizesOf(m: Manifest, spaces: set<string>): map<string, nat>
    requires spaces <= m.spaces.Keys
  {
    map space | space in spaces :: SpaceSize(m.spaces[space].objects)
  }

  ghost function TotalSize(m: Manifest): nat {
    Sum(SizesOf(m, m.spaces.Keys))
  }

  /** The object is listed: entry `i` of that Space. */
  predicate Lists(m: Manifest, space: string, i: nat) {
    space in m.spaces && i < |m.spaces[space].objects|
  }

  function EntryOf(m: Manifest, space: string, i: nat): ObjectEntry
    requires Lists(m, space, i)
  {
    m.spaces[space].objects[i]
  }

  // ----- Inventory -----

  method CheckSpace(space: string, state: SpaceState) returns (total: Option<nat>)
    ensures total == if ValidSpace(space, state) then Some(SpaceSize(state.objects)) else None
  {
    if !HexString(space, 64) || !HexString(state.revision, 64) {
      return None;
    }
    var seen: set<string> := {};
    var sum := 0;
    var objects := state.objects;
    for k := 0 to |objects|
      invariant seen == NamesBefore(objects, k)
      invariant forall i | 0 <= i < k :: ValidObject(objects[i])
      invariant forall i, j | 0 <= i < j < k :: objects[i].name != objects[j].name
      invariant sum == SpaceSize(objects[..k])
    {
      if !ValidObject(objects[k]) || objects[k].name in seen {
        return None;
      }
      SpaceSizeStep(objects, k);
      seen := seen + {objects[k].name};
      sum := sum + objects[k].size;
    }
    assert objects[..|objects|] == objects;
    return Some(sum);
  }

  function NamesBefore(objects: seq<ObjectEntry>, k: nat): set<string>
    requires k <= |objects|
  {
    set i | 0 <= i < k :: objects[i].name
  }

  lemma SpaceSizeStep(objects: seq<ObjectEntry>, k: nat)
    requires k < |objects|
    ensures SpaceSize(objects[..k + 1]) == SpaceSize(objects[..k]) + Size(objects[k])
  {
    assert objects[..k + 1][..k] == objects[..k];
  }

  lemma SizesStep(m: Manifest, spaces: set<string>, space: string)
    requires spaces <= m.spaces.Keys && space in spaces
    ensures Sum(SizesOf(m, spaces)) == SpaceSize(m.spaces[space].objects) + Sum(SizesOf(m, spaces - {space}))
  {
    SumRemove(SizesOf(m, spaces), space);
    assert SizesOf(m, spaces) - {space} == SizesOf(m, spaces - {space});
  }

  /** The checks of `inventory`: every object well formed, and all of them within the budget. */
  method CheckManifest(m: Manifest, maximum: nat) returns (total: Option<nat>)
    ensures total == if ValidManifest(m) && TotalSize(m) <= maximum then Some(TotalSize(m)) else None
  {
    if m.version != 1 {
      return None;
    }
    var sum := 0;
    var left := m.spaces.Keys;
    while left != {}
      invariant left <= m.spaces.Keys && sum + Sum(SizesOf(m, left)) == TotalSize(m)
      invariant forall space | space in m.spaces && space !in left :: ValidSpace(space, m.spaces[space])
      decreases |left|
    {
      var space :| space in left;
      var size := CheckSpace(space, m.spaces[space]);
      if size.None? {
        return None;
      }
      SizesStep(m, left, space);
      sum := sum + size.value;
      left := left - {space};
    }
    return if sum > maximum then None else Some(sum);
  }

  // ----- Copying -----

  /** What the attachment service holds at an instant. */
  datatype Service = Service(manifest: Manifest, objects: map<Key, Content>)

  type ServiceTimeline = nat -> Service

  /** Every copied object is one that was listed, with its listed size and digest, and every
      listed object was copied. */
  ghost predicate Matches(digest: Content -> string, m: Manifest, files: map<Key, Content>) {
    && (forall space, i: nat | Lists(m, space, i) :: Fetched(digest, files, space, EntryOf(m, space, i)))
    && (forall k | k in files :: k.0 in m.spaces && Named(m.spaces[k.0].objects, k.1))
  }

  /** Reads one response in pieces of any size, giving up as soon as it exceeds its declared size. */
  method Download(content: Content, expected: nat) returns (r: Option<Content>)
    ensures r == if |content| == expected then Some(content) else None
  {
    var output: Content := [];
    while |output| < |content|
      invariant output <= content && |output| <= expected
      decreases |content| - |output|
    {
      var piece: int := *;
      var limit := if expected - |output| + 1 < 65536 then expected - |output| + 1 else 65536;
      var n := if 1 <= piece <= limit && piece <= |content| - |output| then piece else 1;
      if |output| + n > expected {
        return None;
      }
      output := output + content[|output|..|output| + n];
    }
    assert output == content;
    return if |output| == expected then Some(output) else None;
  }

  /** The service holds the same from `start` on. */
  ghost predicate Rests(tl: ServiceTimeline, start: nat) {
    forall t: nat | start <= t :: tl(t) == tl(start)
  }

  /** An object that was served with another size or digest than listed. */
  ghost predicate Corrupt(tl: ServiceTimeline, digest: Content -> string, space: string, e: ObjectEntry, t: nat) {
    (space, e.name) in tl(t).objects
    && (|tl(t).objects[(space, e.name)]| != e.size || digest(tl(t).objects[(space, e.name)]) != e.sha256)
  }

  ghost predicate SawCorrupt(tl: ServiceTimeline, digest: Content -> string, space: string, objects: seq<ObjectEntry>,
                             start: nat, end: nat)
  {
    exists i, t: nat | 0 <= i < |objects| && start <= t <= end :: Corrupt(tl, digest, space, objects[i], t)
  }

  predicate DistinctNames(objects: seq<ObjectEntry>) {
    forall i, j | 0 <= i < j < |objects| :: objects[i].name != objects[j].name
  }

  /** The objects of one Space. */
  method CaptureSpace(tl: ServiceTimeline, digest: Content -> string, space: string, objects: seq<ObjectEntry>,
                      files: map<Key, Content>, start: nat)
    returns (r: Outcome<map<Key, Content>>, end: nat)
    requires forall i | 0 <= i < |objects| :: ValidObject(objects[i])
    requires DistinctNames(objects) && forall k | k in files :: k.0 != space
    ensures start <= end
    ensures r.Got? ==>
              && (forall i | 0 <= i < |objects| :: Fetched(digest, r.value, space, objects[i]))
              && (forall k | k in files :: k in r.value && r.value[k] == files[k])
              && (forall k | k in r.value && k !in files :: k.0 == space && Named(objects, k.1))
    ensures r.Failed? ==> SawCorrupt(tl, digest, space, objects, start, end)
    ensures Rests(tl, start) && (forall i | 0 <= i < |objects| :: Fetched(digest, tl(start).objects, space, objects[i]))
            ==> r.Got?
  {
    var now := start;
    var result := files;
    for i := 0 to |objects|
      invariant start <= now
      invariant forall j | 0 <= j < i :: Fetched(digest, result, space, objects[j])
      invariant forall k | k in files :: k in result && result[k] == files[k]
      invariant forall k | k in result && k !in files :: k.0 == space && Named(objects[..i], k.1)
    {
      now := Later(now);
      var key := (space, objects[i].name);
      assert !Named(objects[..i], key.1);
      assert Fetched(digest, tl(start).objects, space, objects[i]) ==> key in tl(start).objects;
      if key !in tl(now).objects {
        return SourceChanged, now;
      }
      var content := Download(tl(now).objects[key], objects[i].size);
      if content.None? || digest(content.value) != objects[i].sha256 || key in result {
        assert Corrupt(tl, digest, space, objects[i], now);
        return Failed, now;
      }
      NamedMore(objects, i);
      result := result[key := content.value];
    }
    assert objects[..|objects|] == objects;
    return Got(result), now;
  }

  lemma NamedMore(objects: seq<ObjectEntry>, i: nat)
    requires i < |objects|
    ensures Named(objects[..i + 1], objects[i].name)
    ensures forall name | Named(objects[..i], name) :: Named(objects[..i + 1], name)
  {
    assert objects[..i + 1][i] == objects[i];
    forall name | Named(objects[..i], name) ensures Named(objects[..i + 1], name) {
      var j :| 0 <= j < i && objects[..i][j].name == name;
      assert objects[..i + 1][j].name == name;
    }
  }

  predicate Named(objects: seq<ObjectEntry>, name: string) {
    exists i | 0 <= i < |objects| :: objects[i].name == name
  }

  ghost predicate Fetched(digest: Content -> string, files: map<Key, Content>, space: string, e: ObjectEntry) {
    (space, e.name) in files && |files[(space, e.name)]| == e.size && digest(files[(space, e.name)]) == e.sha256
  }

  /** The inventory is well formed and within the budget, and the service holds what it says. */
  ghost predicate Serviceable(digest: Content -> string, s: Service, maximum: nat) {
    ValidManifest(s.manifest) && TotalSize(s.manifest) <= maximum && Matches(digest, s.manifest, s.objects)
  }

  /** An inventory that is not well formed or not within the budget, or a listed object that
      does not match it, was seen. */
  ghost predicate Refusable(tl: ServiceTimeline, digest: Content -> string, maximum: nat, start: nat, end: nat) {
    exists t: nat | start <= t <= end ::
      || !ValidManifest(tl(t).manifest) || TotalSize(tl(t).manifest) > maximum
      || exists space | space in tl(t).manifest.spaces ::
           SawCorrupt(tl, digest, space, tl(t).manifest.spaces[space].objects, t, end)
  }

  /** `capture`: the manifest, then every object it lists, each checked against its entry. */
  method CaptureObjects(tl: ServiceTimeline, digest: Content -> string, maximum: nat, start: nat, reliable: bool)
    returns (r: Outcome<(Manifest, map<Key, Content>)>, end: nat, ghost fetched: nat)
    ensures start <= fetched <= end
    ensures r.Got? ==>
              ValidManifest(r.value.0) && TotalSize(r.value.0) <= maximum && Matches(digest, r.value.0, r.value.1)
    ensures r.Got? ==> r.value.0 == tl(fetched).manifest
    ensures reliable && r.Failed? ==> Refusable(tl, digest, maximum, start, end)
    ensures reliable && Rests(tl, start) && Serviceable(digest, tl(start), maximum) ==> r.Got?
  {
    var now := Later(start);
    fetched, end := now, now;
    var m := tl(now).manifest;
    var total := CheckManifest(m, maximum);
    var space: bool := *;
    if total.None? || (!space && !reliable) {
      return Failed, end, fetched;
    }
    var files: map<Key, Content> := map[];
    var left := m.spaces.Keys;
    while left != {}
      invariant fetched <= now && left <= m.spaces.Keys
      invariant forall s, i: nat | Lists(m, s, i) && s !in left :: Fetched(digest, files, s, EntryOf(m, s, i))
      invariant forall k | k in files :: k.0 in m.spaces && k.0 !in left && Named(m.spaces[k.0].objects, k.1)
      decreases |left|
    {
      var s :| s in left;
      var next;
      ghost var before := now;
      assert ValidSpace(s, m.spaces[s]);
      if Rests(tl, start) && Serviceable(digest, tl(start), maximum) {
        SpaceRests(tl, digest, m, s, start, now);
      }
      next, now := CaptureSpace(tl, digest, s, m.spaces[s].objects, files, now);
      if !next.Got? {
        if next.Failed? {
          SpaceRefused(tl, digest, maximum, m, s, start, fetched, before, now);
        }
        return if next.Failed? then Failed else SourceChanged, now, fetched;
      }
      files := next.value;
      left := left - {s};
    }
    return Got((m, files)), now, fetched;
  }

  lemma RefusableWider(tl: ServiceTimeline, digest: Content -> string, maximum: nat, start: nat, a: nat, b: nat,
                       end: nat)
    requires start <= a <= b <= end && Refusable(tl, digest, maximum, a, b)
    ensures Refusable(tl, digest, maximum, start, end)
  {
    var t: nat :| a <= t <= b && (|| !ValidManifest(tl(t).manifest) || TotalSize(tl(t).manifest) > maximum
                                  || exists space | space in tl(t).manifest.spaces ::
                                       SawCorrupt(tl, digest, space, tl(t).manifest.spaces[space].objects, t, b));
    if ValidManifest(tl(t).manifest) && TotalSize(tl(t).manifest) <= maximum {
      var space :| space in tl(t).manifest.spaces
                   && SawCorrupt(tl, digest, space, tl(t).manifest.spaces[space].objects, t, b);
      assert SawCorrupt(tl, digest, space, tl(t).manifest.spaces[space].objects, t, end);
    }
  }

  lemma SpaceRests(tl: ServiceTimeline, digest: Content -> string, m: Manifest, s: string, start: nat, now: nat)
    requires Rests(tl, start) && start <= now && m == tl(start).manifest && s in m.spaces
    requires Matches(digest, m, tl(start).objects)
    ensures Rests(tl, now)
    ensures forall i | 0 <= i < |m.spaces[s].objects| :: Fetched(digest, tl(now).objects, s, m.spaces[s].objects[i])
  {
    assert tl(now) == tl(start);
    forall i: nat | i < |m.spaces[s].objects| ensures Fetched(digest, tl(now).objects, s, m.spaces[s].objects[i]) {
      assert Lists(m, s, i) && EntryOf(m, s, i) == m.spaces[s].objects[i];
    }
  }

  lemma SpaceRefused(tl: ServiceTimeline, digest: Content -> string, maximum: nat, m: Manifest, s: string,
                     start: nat, fetched: nat, before: nat, end: nat)
    requires start <= fetched <= before <= end && m == tl(fetched).manifest && s in m.spaces
    requires SawCorrupt(tl, digest, s, m.spaces[s].objects, before, end)
    ensures Refusable(tl, digest, maximum, start, end)
  {
    var objects := m.spaces[s].objects;
    var i, t: nat :| 0 <= i < |objects| && before <= t <= end && Corrupt(tl, digest, s, objects[i], t);
    assert SawCorrupt(tl, digest, s, objects, fetched, end);
  }

  /** The inventory does not return to an earlier value during the interval. */
  ghost predicate ManifestNoReturn(tl: ServiceTimeline, start: nat, end: nat) {
    forall a: nat, b: nat, c: nat | start <= a <= b <= c <= end && tl(a).manifest == tl(c).manifest ::
      tl(b).manifest == tl(a).manifest
  }

  /** At every instant the service holds what its inventory says. */
  ghost predicate Describes(tl: ServiceTimeline, digest: Content -> string) {
    forall t: nat :: Matches(digest, tl(t).manifest, tl(t).objects)
  }

  /** Objects matching the same inventory are the same objects. */
  lemma SameObjects(digest: Content -> string, m: Manifest, a: map<Key, Content>, b: map<Key, Content>)
    requires Injective(digest) && Matches(digest, m, a) && Matches(digest, m, b)
    ensures a == b
  {
    forall k ensures k in a <==> k in b {
      if k in a {
        var i: nat :| i < |m.spaces[k.0].objects| && m.spaces[k.0].objects[i].name == k.1;
        assert Lists(m, k.0, i) && Fetched(digest, b, k.0, EntryOf(m, k.0, i));
      }
      if k in b {
        var i: nat :| i < |m.spaces[k.0].objects| && m.spaces[k.0].objects[i].name == k.1;
        assert Lists(m, k.0, i) && Fetched(digest, a, k.0, EntryOf(m, k.0, i));
      }
    }
    forall k | k in a ensures a[k] == b[k] {
      var i: nat :| i < |m.spaces[k.0].objects| && m.spaces[k.0].objects[i].name == k.1;
      assert Lists(m, k.0, i);
      assert Fetched(digest, a, k.0, EntryOf(m, k.0, i)) && Fetched(digest, b, k.0, EntryOf(m, k.0, i));
    }
  }

  // ----- Checking an archive -----

  const PREFIX := "elo-attachments/spaces/"

  function ObjectPath(k: Key): string {
    PREFIX + k.0 + "/" + k.1
  }

  /** Paths of objects in well-formed Spaces determine Space and object. */
  lemma ObjectPathInjective(a: Key, b: Key)
    requires |a.0| == |b.0| && ObjectPath(a) == ObjectPath(b)
    ensures a == b && ObjectPath(a) == "elo-attachments/spaces/" + a.0 + "/" + a.1
  {
    var n, p := |PREFIX|, ObjectPath(a);
    assert p[n..n + |a.0|] == a.0 && ObjectPath(b)[n..n + |a.0|] == b.0;
    assert p[n + |a.0| + 1..] == a.1 && ObjectPath(b)[n + |a.0| + 1..] == b.1;
  }

  /** The size and digest recorded for each object path. */
  type Record = map<string, (int, string)>

  /** Exactly the manifest's objects, under their paths. */
  ghost predicate RecordOf(m: Manifest, record: Record) {
    && (forall space, i: nat | Lists(m, space, i) :: Recorded(record, space, EntryOf(m, space, i)))
    && (forall path | path in record ::
          exists space, i: nat :: Lists(m, space, i) && path == ObjectPath((space, EntryOf(m, space, i).name)))
  }

  ghost predicate Recorded(record: Record, space: string, e: ObjectEntry) {
    ObjectPath((space, e.name)) in record && record[ObjectPath((space, e.name))] == (e.size, e.sha256)
  }

  /** What the archive's object files measure. */
  function Measured(digest: Content -> string, objects: map<string, Content>): Record {
    map path | path in objects :: (|objects[path]|, digest(objects[path]))
  }

  /** The archive holds exactly these object files, under their paths. */
  ghost predicate Archived(objects: map<string, Content>, files: map<Key, Content>) {
    && (forall k | k in files :: ObjectPath(k) in objects && objects[ObjectPath(k)] == files[k])
    && (forall path | path in objects :: exists k :: k in files && path == ObjectPath(k))
  }

  /** The archive check compares equal exactly when the archive holds the captured files: a
      faithful archive passes, and a missing, extra or altered object fails. */
  lemma ProducerConsumerAgree(digest: Content -> string, m: Manifest, files: map<Key, Content>, record: Record,
                              objects: map<string, Content>)
    requires Injective(digest) && ValidManifest(m) && Matches(digest, m, files) && RecordOf(m, record)
    ensures Measured(digest, objects) == record <==> Archived(objects, files)
  {
    if Archived(objects, files) {
      ArchivedRecord(digest, m, files, objects);
      RecordIsUnique(m, Measured(digest, objects), record);
    }
    if Measured(digest, objects) == record {
      MeasuredArchives(digest, m, files, record, objects);
    }
  }

  /** A manifest determines its record. */
  lemma RecordIsUnique(m: Manifest, a: Record, b: Record)
    requires RecordOf(m, a) && RecordOf(m, b)
    ensures a == b
  {
    forall path | path in a ensures path in b && a[path] == b[path] {
      var space, i: nat :| Lists(m, space, i) && path == ObjectPath((space, EntryOf(m, space, i).name));
      assert Recorded(a, space, EntryOf(m, space, i)) && Recorded(b, space, EntryOf(m, space, i));
    }
    forall path | path in b ensures path in a {
      var space, i: nat :| Lists(m, space, i) && path == ObjectPath((space, EntryOf(m, space, i).name));
      assert Recorded(a, space, EntryOf(m, space, i));
    }
  }

  /** Archived captured files measure as the manifest says. */
  lemma ArchivedRecord(digest: Content -> string, m: Manifest, files: map<Key, Content>, objects: map<string, Content>)
    requires Matches(digest, m, files) && Archived(objects, files)
    ensures RecordOf(m, Measured(digest, objects))
  {
    var measured := Measured(digest, objects);
    forall space, i: nat | Lists(m, space, i) ensures Recorded(measured, space, EntryOf(m, space, i)) {
      assert Fetched(digest, files, space, EntryOf(m, space, i));
    }
    forall path | path in measured
      ensures exists space, i: nat :: Lists(m, space, i) && path == ObjectPath((space, EntryOf(m, space, i).name))
    {
      var k :| k in files && path == ObjectPath(k);
      var i: nat :| i < |m.spaces[k.0].objects| && m.spaces[k.0].objects[i].name == k.1;
      assert Lists(m, k.0, i) && EntryOf(m, k.0, i).name == k.1;
      assert path == ObjectPath((k.0, EntryOf(m, k.0, i).name));
    }
  }

  lemma MeasuredArchives(digest: Content -> string, m: Manifest, files: map<Key, Content>, record: Record,
                         objects: map<string, Content>)
    requires Injective(digest) && Matches(digest, m, files) && RecordOf(m, record)
    requires Measured(digest, objects) == record
    ensures Archived(objects, files)
  {
    forall k | k in files ensures ObjectPath(k) in objects && objects[ObjectPath(k)] == files[k] {
      var i: nat :| i < |m.spaces[k.0].objects| && m.spaces[k.0].objects[i].name == k.1;
      assert Lists(m, k.0, i);
      assert Fetched(digest, files, k.0, EntryOf(m, k.0, i)) && Recorded(record, k.0, EntryOf(m, k.0, i));
      assert ObjectPath(k) in Measured(digest, objects);
    }
    forall path | path in objects ensures exists k :: k in files && path == ObjectPath(k) {
      assert path in record;
      var space, i: nat :| Lists(m, space, i) && path == ObjectPath((space, EntryOf(m, space, i).name));
      assert Fetched(digest, files, space, EntryOf(m, space, i));
      assert (space, EntryOf(m, space, i).name) in files;
    }
  }

  /** The path of an object in some other well-formed Space. */
  ghost predicate Elsewhere(path: string, space: string) {
    exists k: Key :: |k.0| == 64 && k.0 != space && path == ObjectPath(k)
  }

  ghost predicate OwnPath(path: string, space: string, objects: seq<ObjectEntry>, n: nat) {
    exists i | 0 <= i < n && i < |objects| :: path == ObjectPath((space, objects[i].name))
  }

  method RebuildSpace(space: string, state: SpaceState, record: Record) returns (r: Option<Record>)
    requires forall path | path in record :: Elsewhere(path, space)
    ensures r.Some? <==> ValidSpace(space, state)
    ensures r.Some? ==>
              && (forall path | path in record :: path in r.value && r.value[path] == record[path])
              && (forall i | 0 <= i < |state.objects| :: Recorded(r.value, space, state.objects[i]))
              && (forall path | path in r.value && path !in record ::
                    OwnPath(path, space, state.objects, |state.objects|))
  {
    if !HexString(space, 64) || !HexString(state.revision, 64) {
      return None;
    }
    var objects := state.objects;
    var result := record;
    for k := 0 to |objects|
      invariant forall path | path in record :: path in result && result[path] == record[path]
      invariant forall i | 0 <= i < k :: ValidObject(objects[i])
      invariant forall i | 0 <= i < k :: Recorded(result, space, objects[i])
      invariant forall i, j | 0 <= i < j < k :: objects[i].name != objects[j].name
      invariant forall path | path in result && path !in record :: OwnPath(path, space, objects, k)
    {
      var path := ObjectPath((space, objects[k].name));
      if !ValidObject(objects[k]) {
        return None;
      }
      if path in result {
        RepeatedPath(space, objects, record, result, k);
        return None;
      }
      assert OwnPath(path, space, objects, k + 1);
      result := result[path := (objects[k].size, objects[k].sha256)];
    }
    return Some(result);
  }

  /** A path met again is one of the same Space. */
  lemma RepeatedPath(space: string, objects: seq<ObjectEntry>, record: Record, result: Record, k: nat)
    requires |space| == 64 && k < |objects| && ObjectPath((space, objects[k].name)) in result
    requires forall path | path in record :: Elsewhere(path, space)
    requires forall path | path in result && path !in record :: OwnPath(path, space, objects, k)
    ensures exists i | 0 <= i < k :: objects[i].name == objects[k].name
  {
    var path := ObjectPath((space, objects[k].name));
    if path in record {
      var other: Key :| |other.0| == 64 && other.0 != space && path == ObjectPath(other);
      ObjectPathInjective((space, objects[k].name), other);
    } else {
      var i :| 0 <= i < k && path == ObjectPath((space, objects[i].name));
      ObjectPathInjective((space, objects[k].name), (space, objects[i].name));
    }
  }

  /** The path belongs to one of the Spaces already rebuilt. */
  ghost predicate FromManifest(m: Manifest, path: string, left: set<string>) {
    exists s, i: nat :: Lists(m, s, i) && s !in left && path == ObjectPath((s, EntryOf(m, s, i).name))
  }

  /** `verify_archive` rebuilds the record; it refuses exactly the manifests the producer's own
      inventory refuses. */
  method Rebuild(m: Manifest) returns (record: Option<Record>)
    ensures record.Some? <==> ValidManifest(m)
    ensures record.Some? ==> RecordOf(m, record.value)
  {
    if m.version != 1 {
      return None;
    }
    var result: Record := map[];
    var left := m.spaces.Keys;
    while left != {}
      invariant left <= m.spaces.Keys
      invariant forall s | s in m.spaces && s !in left :: ValidSpace(s, m.spaces[s])
      invariant forall s, i: nat | Lists(m, s, i) && s !in left :: Recorded(result, s, EntryOf(m, s, i))
      invariant forall path | path in result :: FromManifest(m, path, left)
      decreases |left|
    {
      var s :| s in left;
      forall path | path in result ensures Elsewhere(path, s) {
        var t, i: nat :| Lists(m, t, i) && t !in left && path == ObjectPath((t, EntryOf(m, t, i).name));
        assert ValidSpace(t, m.spaces[t]);
      }
      var next := RebuildSpace(s, m.spaces[s], result);
      if next.None? {
        return None;
      }
      forall path | path in next.value ensures FromManifest(m, path, left - {s}) {
        if path in result {
          var t, i: nat :| Lists(m, t, i) && t !in left && path == ObjectPath((t, EntryOf(m, t, i).name));
        } else {
          var i :| 0 <= i < |m.spaces[s].objects| && path == ObjectPath((s, m.spaces[s].objects[i].name));
          assert Lists(m, s, i) && EntryOf(m, s, i) == m.spaces[s].objects[i];
        }
      }
      result := next.value;
      left := left - {s};
    }
    return Some(result);
  }
}
