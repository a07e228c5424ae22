/** Input validation run by the web process before queueing and again by the worker
    before applying. The result is the normalised configuration. */
module Schema {
  import opened Prelude
  import opened Json

  datatype Role = Api | Witness

  const API_FIELDS: set<Field> :=
    {Name, MessageLifetimes, DefaultMessageLifetime, CreationMode, AllowedCreators, ManagedProvider}
  const CREDENTIALS: set<Field> :=
    {FolderLink, WriteAuth, S3Endpoint, S3Region, S3Bucket, S3AccessKey, S3SecretKey}
  const RETENTIONS: seq<Value> := [Int(21600), Int(43200), Int(86400), Int(172800), Str("no_expiry")]

  // ----- Text -----

  function Utf8Size(s: string): nat {
    if s == "" then 0 else
      (var c := s[0] as int; if c < 0x80 then 1 else if c < 0x800 then 2 else if c < 0x10000 then 3 else 4)
      + Utf8Size(s[1..])
  }

  predicate In(c: char, lo: int, hi: int) {
    lo <= c as int <= hi
  }

  /** Unicode categories Cc and Cf. */
  predicate Control(c: char) {
    In(c, 0, 0x1F) || In(c, 0x7F, 0x9F) || In(c, 0xAD, 0xAD) || In(c, 0x600, 0x605) || In(c, 0x61C, 0x61C)
    || In(c, 0x6DD, 0x6DD) || In(c, 0x70F, 0x70F) || In(c, 0x890, 0x891) || In(c, 0x8E2, 0x8E2)
    || In(c, 0x180E, 0x180E) || In(c, 0x200B, 0x200F) || In(c, 0x202A, 0x202E) || In(c, 0x2060, 0x2064)
    || In(c, 0x2066, 0x206F) || In(c, 0xFEFF, 0xFEFF) || In(c, 0xFFF9, 0xFFFB) || In(c, 0x110BD, 0x110BD)
    || In(c, 0x110CD, 0x110CD) || In(c, 0x13430, 0x1343F) || In(c, 0x1BCA0, 0x1BCA3)
    || In(c, 0x1D173, 0x1D17A) || In(c, 0xE0001, 0xE0001) || In(c, 0xE0020, 0xE007F)
  }

  predicate Space(c: char) {
    In(c, 9, 13) || In(c, 28, 32) || In(c, 0x85, 0x85) || In(c, 0xA0, 0xA0) || In(c, 0x1680, 0x1680)
    || In(c, 0x2000, 0x200A) || In(c, 0x2028, 0x2029) || In(c, 0x202F, 0x202F) || In(c, 0x205F, 0x205F)
    || In(c, 0x3000, 0x3000)
  }

  predicate IsText(v: Value, minimum: nat, maximum: nat) {
    v.Str? && minimum <= Utf8Size(v.text) <= maximum && forall c | c in v.text :: !Control(c)
  }

  predicate Stripped(s: string) {
    s != "" ==> !Space(s[0]) && !Space(s[|s| - 1])
  }

  predicate Hex(c: char) { '0' <= c <= '9' || 'a' <= c <= 'f' }

  predicate Alphanumeric(c: char) { '0' <= c <= '9' || 'a' <= c <= 'z' || 'A' <= c <= 'Z' }

  predicate UrlSafe(c: char) { Alphanumeric(c) || c == '_' || c == '-' }

  predicate AccessKeyChar(c: char) { Alphanumeric(c) || c in "/+=._:@-" }

  predicate IdentityId(v: Value) {
    v.Str? && |v.text| == 64 && forall c | c in v.text :: Hex(c)
  }

  const FOLDER_PREFIX := "https://mega.nz/folder/"

  predicate MegaFolder(s: string) {
    var p := |FOLDER_PREFIX|;
    && p + 9 + 22 <= |s| <= p + 9 + 64
    && s[..p] == FOLDER_PREFIX
    && (forall c | c in s[p..p + 8] :: UrlSafe(c))
    && s[p + 8] == '#'
    && forall c | c in s[p + 9..] :: UrlSafe(c)
  }

  predicate MegaAuth(s: string) { 16 <= |s| <= 128 && forall c | c in s :: UrlSafe(c) }

  predicate S3RegionName(s: string) { 1 <= |s| <= 128 && forall c | c in s :: Alphanumeric(c) || c == '-' }

  predicate S3BucketName(s: string) {
    1 <= |s| <= 255 && forall c | c in s :: Alphanumeric(c) || c == '.' || c == '-'
  }

  predicate S3Access(s: string) { 1 <= |s| <= 256 && forall c | c in s :: AccessKeyChar(c) }

  // ----- Sorted identity lists -----

  predicate Before(a: string, b: string) {
    a == "" || (b != "" && (a[0] < b[0] || (a[0] == b[0] && Before(a[1..], b[1..]))))
  }

  lemma {:induction false} BeforeTotal(a: string, b: string)
    ensures Before(a, b) || Before(b, a)
  {
    if a != "" && b != "" && a[0] == b[0] {
      BeforeTotal(a[1..], b[1..]);
    }
  }

  /** Text is ordered by the first character in which it differs; a prefix comes first. */
  lemma {:induction false} BeforeMeans(a: string, b: string)
    ensures Before(a, b) <==>
              exists k | 0 <= k <= |a| && k <= |b| ::
                a[..k] == b[..k] && (k == |a| || (k < |b| && a[k] < b[k]))
  {
    if a == "" {
      assert a[..0] == b[..0];
    } else if b != "" {
      BeforeMeans(a[1..], b[1..]);
      if a[0] == b[0] && Before(a[1..], b[1..]) {
        var k :| 0 <= k <= |a| - 1 && k <= |b| - 1 && a[1..][..k] == b[1..][..k]
                 && (k == |a| - 1 || (k < |b| - 1 && a[1..][k] < b[1..][k]));
        assert a[..k + 1] == [a[0]] + a[1..][..k] && b[..k + 1] == [b[0]] + b[1..][..k];
        assert k + 1 == |a| || a[k + 1] < b[k + 1];
      } else if a[0] < b[0] {
        assert a[..0] == b[..0];
      }
      if k :| 0 <= k <= |a| && k <= |b| && a[..k] == b[..k] && (k == |a| || (k < |b| && a[k] < b[k])) {
        if k > 0 {
          assert a[0] == a[..k][0] == b[..k][0] == b[0];
          assert a[1..][..k - 1] == a[..k][1..] == b[..k][1..] == b[1..][..k - 1];
        }
      }
    }
  }

  /** The order of list elements; validated lists hold only strings. */
  predicate Leq(a: Value, b: Value) {
    a.Str? ==> b.Str? && Before(a.text, b.text)
  }

  predicate Ascending(s: seq<Value>) {
    forall i | 0 < i < |s| :: Leq(s[i - 1], s[i])
  }

  function Insert(x: Value, s: seq<Value>): seq<Value> {
    if s == [] || Leq(x, s[0]) then [x] + s else [s[0]] + Insert(x, s[1..])
  }

  function Sorted(s: seq<Value>): seq<Value> {
    if s == [] then [] else Insert(s[0], Sorted(s[1..]))
  }

  lemma {:induction false} InsertPermutes(x: Value, s: seq<Value>)
    ensures multiset(Insert(x, s)) == multiset{x} + multiset(s)
  {
    if s != [] && !Leq(x, s[0]) {
      InsertPermutes(x, s[1..]);
      assert s == [s[0]] + s[1..];
    }
  }

  lemma AscendingCons(x: Value, s: seq<Value>)
    requires Ascending(s) && (s != [] ==> Leq(x, s[0]))
    ensures Ascending([x] + s)
  {
    var all := [x] + s;
    forall i | 0 < i < |all| ensures Leq(all[i - 1], all[i]) {
      assert all[i] == s[i - 1] && (i > 1 ==> all[i - 1] == s[i - 2]);
    }
  }

  lemma {:induction false} InsertAscending(x: Value, s: seq<Value>)
    requires Ascending(s)
    ensures Ascending(Insert(x, s))
    ensures Insert(x, s)[0] == x || (s != [] && Insert(x, s)[0] == s[0])
  {
    if s == [] || Leq(x, s[0]) {
      AscendingCons(x, s);
    } else {
      assert Ascending(s[1..]);
      InsertAscending(x, s[1..]);
      if x.Str? && s[0].Str? {
        BeforeTotal(x.text, s[0].text);
      }
      assert |s| > 1 ==> Leq(s[0], s[1]);
      AscendingCons(s[0], Insert(x, s[1..]));
    }
  }

  /** `sorted` permutes its input into ascending order, and sorting again changes nothing. */
  lemma {:induction false} SortedIsSorted(s: seq<Value>)
    ensures Ascending(Sorted(s)) && multiset(Sorted(s)) == multiset(s)
    ensures Ascending(s) ==> Sorted(s) == s
  {
    if s == [] {
    } else {
      SortedIsSorted(s[1..]);
      InsertAscending(s[0], Sorted(s[1..]));
      InsertPermutes(s[0], Sorted(s[1..]));
      assert s == [s[0]] + s[1..];
      if Ascending(s) {
        assert Ascending(s[1..]);
        assert |s| > 1 ==> Leq(s[0], s[1]);
      }
    }
  }

  // ----- Validation -----

  function Owners(v: Value): Option<Value> {
    if v.List? && |v.items| <= 1024 && (forall item | item in v.items :: IdentityId(item)) && Distinct(v.items)
    then Some(List(Sorted(v.items)))
    else None
  }

  /** The members of `all` that were chosen, in the order of `all`. */
  function Keep(all: seq<Value>, chosen: seq<Value>): seq<Value> {
    if all == [] then [] else
      (if all[0] in chosen then [all[0]] else []) + Keep(all[1..], chosen)
  }

  predicate LifetimeChoices(v: Value) {
    v.List? && 1 <= |v.items| <= 5 && (forall item | item in v.items :: item in RETENTIONS) && Distinct(v.items)
  }

  predicate ProviderChoice(v: Value) {
    v == Null || v == Str("mega") || v == Str("s3")
  }

  /** The checks on an API configuration whose identity list is already validated. */
  predicate ApiChoices(name: Value, lifetimes: Value, default: Value, mode: Value, allowed: Value, managed: Value) {
    && IsText(name, 1, 96) && Stripped(name.text)
    && LifetimeChoices(lifetimes) && default in lifetimes.items
    && (mode == Str("public") || mode == Str("allowlist"))
    && ProviderChoice(managed)
    && (mode == Str("public") ==> allowed == List([]) && managed == Null)
  }

  function ApiObject(name: Value, lifetimes: Value, default: Value, mode: Value, allowed: Value, managed: Value)
    : map<Field, Value>
  {
    map[Name := name, MessageLifetimes := lifetimes, DefaultMessageLifetime := default,
        CreationMode := mode, AllowedCreators := allowed, ManagedProvider := managed]
  }

  function ValidateApi(v: Value): Option<Value> {
    if !v.Object? || v.fields.Keys != API_FIELDS then None else
    var name, lifetimes, default := v.fields[Name], v.fields[MessageLifetimes], v.fields[DefaultMessageLifetime];
    var mode, managed := v.fields[CreationMode], v.fields[ManagedProvider];
    var allowed :- Owners(v.fields[AllowedCreators]);
    if ApiChoices(name, lifetimes, default, mode, allowed, managed)
    then Some(Object(ApiObject(name, List(Keep(RETENTIONS, lifetimes.items)), default, mode, allowed, managed)))
    else None
  }

  /** `supplied[key]`: an absent credential reads as the empty string. */
  function Supplied(m: map<Field, Value>, key: Field): string {
    if key in m && m[key].Str? then m[key].text else ""
  }

  predicate CredentialTexts(m: map<Field, Value>) {
    forall key | key in m && key in CREDENTIALS :: IsText(m[key], 0, 4096)
  }

  /** `origin` is URL parsing; all that is used of it is that its results are their own
      normal form and acceptable text. */
  ghost predicate Normaliser(origin: string -> Option<string>) {
    && origin("").None?
    && forall s :: origin(s).Some? ==>
         origin(origin(s).value) == origin(s) && IsText(Str(origin(s).value), 1, 2048)
  }

  function MegaFields(m: map<Field, Value>): Option<map<Field, Value>> {
    var folder, auth := Supplied(m, FolderLink), Supplied(m, WriteAuth);
    if Supplied(m, S3Endpoint) != "" || Supplied(m, S3Region) != "" || Supplied(m, S3Bucket) != ""
       || Supplied(m, S3AccessKey) != "" || Supplied(m, S3SecretKey) != ""
    then None
    else if folder == "" && auth == "" then Some(map[])
    else if folder != "" && auth != "" && MegaFolder(folder) && MegaAuth(auth)
    then Some(map[FolderLink := Str(folder), WriteAuth := Str(auth)])
    else None
  }

  function S3Fields(m: map<Field, Value>, origin: string -> Option<string>): Option<map<Field, Value>> {
    var region, bucket := Supplied(m, S3Region), Supplied(m, S3Bucket);
    var access, secret := Supplied(m, S3AccessKey), Supplied(m, S3SecretKey);
    if Supplied(m, FolderLink) != "" || Supplied(m, WriteAuth) != "" then None else
    var endpoint :- origin(Supplied(m, S3Endpoint));
    var public := map[S3Endpoint := Str(endpoint), S3Region := Str(region), S3Bucket := Str(bucket)];
    if !(IsText(Str(region), 1, 128) && IsText(Str(bucket), 1, 255) && S3RegionName(region) && S3BucketName(bucket))
    then None
    else if access == "" && secret == "" then Some(public)
    else if access != "" && secret != "" && S3Access(access) && IsText(Str(secret), 1, 4096)
    then Some(public[S3AccessKey := Str(access)][S3SecretKey := Str(secret)])
    else None
  }

  function ProviderFields(provider: Value, m: map<Field, Value>, origin: string -> Option<string>)
    : Option<map<Field, Value>>
  {
    if provider == Null then
      (if exists key | key in CREDENTIALS :: Supplied(m, key) != "" then None else Some(map[]))
    else if provider == Str("mega") then MegaFields(m)
    else if provider == Str("s3") then S3Fields(m, origin)
    else None
  }

  function ValidateWitness(v: Value, origin: string -> Option<string>): Option<Value> {
    if !v.Object? || !(v.fields.Keys <= CREDENTIALS + {Provider, AllowedOwners})
       || !({Provider, AllowedOwners} <= v.fields.Keys) || !CredentialTexts(v.fields) then None else
    var allowed :- Owners(v.fields[AllowedOwners]);
    var fields :- ProviderFields(v.fields[Provider], v.fields, origin);
    Some(Object(map[Provider := v.fields[Provider], AllowedOwners := allowed] + fields))
  }

  function Validate(role: Role, v: Value, origin: string -> Option<string>): Option<Value> {
    if role == Api then ValidateApi(v) else ValidateWitness(v, origin)
  }

  // ----- Validation is a fixpoint on its own output -----

  lemma {:induction false} KeepMembers(all: seq<Value>, chosen: seq<Value>, x: Value)
    ensures x in Keep(all, chosen) <==> x in all && x in chosen
  {
    if all == [] {
    } else {
      KeepMembers(all[1..], chosen, x);
      assert all == [all[0]] + all[1..];
    }
  }

  lemma {:induction false} KeepAgrees(all: seq<Value>, a: seq<Value>, b: seq<Value>)
    requires forall x | x in all :: x in a <==> x in b
    ensures Keep(all, a) == Keep(all, b)
  {
    if all != [] {
      KeepAgrees(all[1..], a, b);
    }
  }

  lemma {:induction false} KeepDistinct(all: seq<Value>, chosen: seq<Value>)
    requires Distinct(all)
    ensures Distinct(Keep(all, chosen)) && |Keep(all, chosen)| <= |all|
  {
    if all == [] {
    } else {
      assert all == [all[0]] + all[1..];
      DistinctCons(all[0], all[1..]);
      KeepDistinct(all[1..], chosen);
      KeepMembers(all[1..], chosen, all[0]);
      DistinctCons(all[0], Keep(all[1..], chosen));
      assert [] + Keep(all[1..], chosen) == Keep(all[1..], chosen);
    }
  }

  lemma RetentionsDistinct()
    ensures Distinct(RETENTIONS)
  {
    var r := RETENTIONS;
    DistinctCons(r[4], []);
    DistinctCons(r[3], [r[4]]);
    DistinctCons(r[2], [r[3], r[4]]);
    DistinctCons(r[1], [r[2], r[3], r[4]]);
    DistinctCons(r[0], [r[1], r[2], r[3], r[4]]);
    assert r == [r[0]] + [r[1], r[2], r[3], r[4]];
    assert [r[1], r[2], r[3], r[4]] == [r[1]] + [r[2], r[3], r[4]];
    assert [r[2], r[3], r[4]] == [r[2]] + [r[3], r[4]];
    assert [r[3], r[4]] == [r[3]] + [r[4]];
    assert [r[4]] == [r[4]] + [];
  }

  lemma LifetimesFixpoint(v: Value)
    requires LifetimeChoices(v)
    ensures var w := List(Keep(RETENTIONS, v.items));
            && LifetimeChoices(w)
            && Keep(RETENTIONS, w.items) == w.items
            && forall x :: x in w.items <==> x in v.items
  {
    var kept := Keep(RETENTIONS, v.items);
    forall x ensures x in kept <==> x in RETENTIONS && x in v.items {
      KeepMembers(RETENTIONS, v.items, x);
    }
    RetentionsDistinct();
    KeepDistinct(RETENTIONS, v.items);
    KeepAgrees(RETENTIONS, v.items, kept);
    assert v.items[0] in kept;
  }

  lemma OwnersFixpoint(v: Value)
    requires Owners(v).Some?
    ensures Owners(Owners(v).value) == Owners(v)
    ensures Owners(v).value.List? && multiset(Owners(v).value.items) == multiset(v.items)
  {
    var w := Sorted(v.items);
    SortedIsSorted(v.items);
    SortedIsSorted(w);
    PermutationDistinct(v.items, w);
    assert |w| == |multiset(w)| == |multiset(v.items)| == |v.items|;
    forall x | x in w ensures IdentityId(x) {
      assert x in multiset(w);
    }
  }

  lemma ApiObjectFields(name: Value, lifetimes: Value, default: Value, mode: Value, allowed: Value, managed: Value)
    ensures ApiObject(name, lifetimes, default, mode, allowed, managed).Keys == API_FIELDS
  {
  }

  /** Normalised parts pass the checks again and are put together as they were. */
  lemma NormalisedParts(name: Value, lifetimes: Value, default: Value, mode: Value, allowed: Value, managed: Value)
    requires ApiChoices(name, lifetimes, default, mode, allowed, managed) && Owners(allowed) == Some(allowed)
    requires Keep(RETENTIONS, lifetimes.items) == lifetimes.items
    ensures ValidateApi(Object(ApiObject(name, lifetimes, default, mode, allowed, managed)))
            == Some(Object(ApiObject(name, lifetimes, default, mode, allowed, managed)))
  {
    ApiObjectFields(name, lifetimes, default, mode, allowed, managed);
    assert List(lifetimes.items) == lifetimes;
  }

  lemma ApiFixpoint(v: Value)
    requires ValidateApi(v).Some?
    ensures ValidateApi(ValidateApi(v).value) == ValidateApi(v)
  {
    var lifetimes := v.fields[MessageLifetimes];
    LifetimesFixpoint(lifetimes);
    OwnersFixpoint(v.fields[AllowedCreators]);
    NormalisedParts(v.fields[Name], List(Keep(RETENTIONS, lifetimes.items)), v.fields[DefaultMessageLifetime],
                    v.fields[CreationMode], Owners(v.fields[AllowedCreators]).value, v.fields[ManagedProvider]);
  }

  /** `w` answers every credential lookup as `fields` does. */
  ghost predicate SameCredentials(w: map<Field, Value>, fields: map<Field, Value>) {
    forall key | key in CREDENTIALS :: Supplied(w, key) == Supplied(fields, key)
  }

  lemma MegaFixpoint(m: map<Field, Value>, w: map<Field, Value>)
    requires CredentialTexts(m) && MegaFields(m).Some? && SameCredentials(w, MegaFields(m).value)
    ensures var fields := MegaFields(m).value;
            fields.Keys <= CREDENTIALS && CredentialTexts(fields) && MegaFields(w) == Some(fields)
  {
    var fields := MegaFields(m).value;
    assert Supplied(w, S3Endpoint) == "" && Supplied(w, S3Region) == "" && Supplied(w, S3Bucket) == "";
    assert Supplied(w, S3AccessKey) == "" && Supplied(w, S3SecretKey) == "";
    assert Supplied(w, FolderLink) == Supplied(m, FolderLink);
    assert Supplied(w, WriteAuth) == Supplied(m, WriteAuth);
  }

  lemma S3Fixpoint(m: map<Field, Value>, w: map<Field, Value>, origin: string -> Option<string>)
    requires Normaliser(origin)
    requires CredentialTexts(m) && S3Fields(m, origin).Some? && SameCredentials(w, S3Fields(m, origin).value)
    ensures var fields := S3Fields(m, origin).value;
            fields.Keys <= CREDENTIALS && CredentialTexts(fields) && S3Fields(w, origin) == Some(fields)
  {
    var fields := S3Fields(m, origin).value;
    assert Supplied(w, FolderLink) == "" && Supplied(w, WriteAuth) == "";
    assert Supplied(w, S3Endpoint) == origin(Supplied(m, S3Endpoint)).value;
    assert Supplied(w, S3Region) == Supplied(m, S3Region);
    assert Supplied(w, S3Bucket) == Supplied(m, S3Bucket);
    assert Supplied(w, S3AccessKey) == Supplied(m, S3AccessKey);
    assert Supplied(w, S3SecretKey) == Supplied(m, S3SecretKey);
  }

  lemma WithoutCredentials(rest: map<Field, Value>, fields: map<Field, Value>)
    requires rest.Keys !! CREDENTIALS
    ensures SameCredentials(rest + fields, fields)
  {
  }

  lemma ProviderFieldsFixpoint(m: map<Field, Value>, allowed: Value, origin: string -> Option<string>)
    requires Normaliser(origin) && Provider in m && CredentialTexts(m)
    requires ProviderFields(m[Provider], m, origin).Some?
    ensures var fields := ProviderFields(m[Provider], m, origin).value;
            var w := map[Provider := m[Provider], AllowedOwners := allowed] + fields;
            && fields.Keys <= CREDENTIALS
            && CredentialTexts(fields)
            && ProviderFields(m[Provider], w, origin) == Some(fields)
  {
    var fields := ProviderFields(m[Provider], m, origin).value;
    var w := map[Provider := m[Provider], AllowedOwners := allowed] + fields;
    WithoutCredentials(map[Provider := m[Provider], AllowedOwners := allowed], fields);
    if m[Provider] == Null {
    } else if m[Provider] == Str("mega") {
      MegaFixpoint(m, w);
    } else {
      S3Fixpoint(m, w, origin);
    }
  }

  lemma WitnessFixpoint(v: Value, origin: string -> Option<string>)
    requires Normaliser(origin) && ValidateWitness(v, origin).Some?
    ensures ValidateWitness(ValidateWitness(v, origin).value, origin) == ValidateWitness(v, origin)
  {
    OwnersFixpoint(v.fields[AllowedOwners]);
    ProviderFieldsFixpoint(v.fields, Owners(v.fields[AllowedOwners]).value, origin);
  }

  /** The worker's second validation returns exactly what the web process queued. */
  lemma ValidationFixpoint(role: Role, v: Value, origin: string -> Option<string>)
    requires Normaliser(origin) && Validate(role, v, origin).Some?
    ensures Validate(role, Validate(role, v, origin).value, origin) == Validate(role, v, origin)
  {
    if role == Api {
      ApiFixpoint(v);
    } else {
      WitnessFixpoint(v, origin);
    }
  }

  // ----- What validation keeps -----

  /** The order in which lifetimes are offered. */
  function Rank(v: Value): int {
    match v
    case Int(n) => n
    case _ => 1000000
  }

  ghost predicate Ranked(s: seq<Value>) {
    forall i, j | 0 <= i < j < |s| :: Rank(s[i]) < Rank(s[j])
  }

  lemma RetentionsRanked()
    ensures Ranked(RETENTIONS)
  {
    var r := RETENTIONS;
    assert Rank(r[0]) == 21600 && Rank(r[1]) == 43200 && Rank(r[2]) == 86400 && Rank(r[3]) == 172800;
    assert |r| == 5 && Rank(r[4]) == 1000000;
  }

  lemma RankedCons(v: Value, s: seq<Value>)
    ensures Ranked([v] + s) <==> Ranked(s) && forall i | 0 <= i < |s| :: Rank(v) < Rank(s[i])
  {
    var all := [v] + s;
    assert forall i | 0 <= i < |s| :: all[i + 1] == s[i];
    if Ranked(all) {
      forall i, j | 0 <= i < j < |s| ensures Rank(s[i]) < Rank(s[j]) {
        assert all[i + 1] == s[i] && all[j + 1] == s[j];
      }
      forall i | 0 <= i < |s| ensures Rank(v) < Rank(s[i]) {
        assert all[0] == v && all[i + 1] == s[i];
      }
    }
  }

  lemma {:induction false} KeepRanked(all: seq<Value>, chosen: seq<Value>)
    requires Ranked(all)
    ensures Ranked(Keep(all, chosen))
  {
    if all != [] {
      var rest := Keep(all[1..], chosen);
      assert all == [all[0]] + all[1..];
      RankedCons(all[0], all[1..]);
      KeepRanked(all[1..], chosen);
      forall i | 0 <= i < |rest| ensures Rank(all[0]) < Rank(rest[i]) {
        KeepMembers(all[1..], chosen, rest[i]);
      }
      RankedCons(all[0], rest);
      assert [] + rest == rest;
    }
  }

  /** An accepted API request is kept as it is, but for the order of its two lists: lifetimes
      come in the order they are offered in. */
  lemma ApiKeeps(v: Value)
    requires ValidateApi(v).Some?
    ensures ValidateApi(v).value.Object?
    ensures var w := ValidateApi(v).value.fields;
            && w.Keys == v.fields.Keys
               == {Name, MessageLifetimes, DefaultMessageLifetime, CreationMode, AllowedCreators, ManagedProvider}
            && w[Name] == v.fields[Name] && w[DefaultMessageLifetime] == v.fields[DefaultMessageLifetime]
            && w[CreationMode] == v.fields[CreationMode] && w[ManagedProvider] == v.fields[ManagedProvider]
            && w[MessageLifetimes].List? && v.fields[MessageLifetimes].List?
            && (forall x :: x in w[MessageLifetimes].items <==> x in v.fields[MessageLifetimes].items)
            && Ranked(w[MessageLifetimes].items)
            && w[AllowedCreators].List? && v.fields[AllowedCreators].List?
            && multiset(w[AllowedCreators].items) == multiset(v.fields[AllowedCreators].items)
  {
    var lifetimes, allowed := v.fields[MessageLifetimes], v.fields[AllowedCreators];
    LifetimesFixpoint(lifetimes);
    OwnersFixpoint(allowed);
    RetentionsRanked();
    KeepRanked(RETENTIONS, lifetimes.items);
    ApiParts(v, List(Keep(RETENTIONS, lifetimes.items)), Owners(allowed).value);
  }

  /** The result is put together from the request's own parts. */
  lemma ApiParts(v: Value, lifetimes: Value, allowed: Value)
    requires ValidateApi(v).Some?
    requires Owners(v.fields[AllowedCreators]) == Some(allowed)
    requires lifetimes == List(Keep(RETENTIONS, v.fields[MessageLifetimes].items))
    ensures ValidateApi(v).value.Object?
    ensures var w := ValidateApi(v).value.fields;
            && w.Keys == v.fields.Keys
               == {Name, MessageLifetimes, DefaultMessageLifetime, CreationMode, AllowedCreators, ManagedProvider}
            && w[Name] == v.fields[Name] && w[DefaultMessageLifetime] == v.fields[DefaultMessageLifetime]
            && w[CreationMode] == v.fields[CreationMode] && w[ManagedProvider] == v.fields[ManagedProvider]
            && w[MessageLifetimes] == lifetimes && w[AllowedCreators] == allowed
  {
    ApiObjectFields(v.fields[Name], lifetimes, v.fields[DefaultMessageLifetime], v.fields[CreationMode], allowed,
                    v.fields[ManagedProvider]);
  }

  /** A credential the request supplies: present and not blank. */
  predicate Given(m: map<Field, Value>, key: Field) {
    key in m && m[key] != Str("")
  }

  /** The credential is kept exactly if it is supplied, the endpoint in its normal form. */
  ghost predicate Kept(m: map<Field, Value>, w: map<Field, Value>, key: Field, origin: string -> Option<string>) {
    && (key in w <==> Given(m, key))
    && (key in w && key != S3Endpoint ==> w[key] == m[key])
    && (key in w && key == S3Endpoint ==>
          m[key].Str? && origin(m[key].text).Some? && w[key] == Str(origin(m[key].text).value))
  }

  /** The credentials a request supplies are kept under their own names, and there are no others. */
  ghost predicate KeepsCredentials(m: map<Field, Value>, w: map<Field, Value>, origin: string -> Option<string>) {
    forall key | key in {FolderLink, WriteAuth, S3Endpoint, S3Region, S3Bucket, S3AccessKey, S3SecretKey} ::
      Kept(m, w, key, origin)
  }

  lemma GivenIsSupplied(m: map<Field, Value>, key: Field)
    requires CredentialTexts(m) && key in CREDENTIALS
    ensures Given(m, key) <==> Supplied(m, key) != ""
    ensures Given(m, key) ==> m[key] == Str(Supplied(m, key))
  {
  }

  lemma MegaKeeps(m: map<Field, Value>, origin: string -> Option<string>)
    requires CredentialTexts(m) && MegaFields(m).Some?
    ensures MegaFields(m).value.Keys <= CREDENTIALS && KeepsCredentials(m, MegaFields(m).value, origin)
  {
    forall key | key in CREDENTIALS ensures Kept(m, MegaFields(m).value, key, origin) {
      GivenIsSupplied(m, key);
    }
  }

  lemma S3KeepsOne(m: map<Field, Value>, origin: string -> Option<string>, key: Field)
    requires origin("").None? && S3Fields(m, origin).Some? && key in CREDENTIALS
    requires Given(m, key) <==> Supplied(m, key) != ""
    requires Given(m, key) ==> m[key] == Str(Supplied(m, key))
    ensures Kept(m, S3Fields(m, origin).value, key, origin)
  {
  }

  lemma S3Keeps(m: map<Field, Value>, origin: string -> Option<string>)
    requires Normaliser(origin) && CredentialTexts(m) && S3Fields(m, origin).Some?
    ensures S3Fields(m, origin).value.Keys <= CREDENTIALS && KeepsCredentials(m, S3Fields(m, origin).value, origin)
  {
    forall key | key in CREDENTIALS ensures Kept(m, S3Fields(m, origin).value, key, origin) {
      GivenIsSupplied(m, key);
      S3KeepsOne(m, origin, key);
    }
  }

  lemma ProviderKeeps(provider: Value, m: map<Field, Value>, origin: string -> Option<string>)
    requires Normaliser(origin) && CredentialTexts(m) && ProviderFields(provider, m, origin).Some?
    ensures var fields := ProviderFields(provider, m, origin).value;
            fields.Keys <= CREDENTIALS && KeepsCredentials(m, fields, origin)
  {
    if provider == Str("mega") {
      MegaKeeps(m, origin);
    } else if provider == Str("s3") {
      S3Keeps(m, origin);
    } else {
      forall key | key in CREDENTIALS ensures Kept(m, map[], key, origin) {
        GivenIsSupplied(m, key);
        assert Supplied(m, key) == "";
      }
    }
  }

  lemma KeepsBeside(m: map<Field, Value>, rest: map<Field, Value>, fields: map<Field, Value>,
                    origin: string -> Option<string>)
    requires rest.Keys !! CREDENTIALS && KeepsCredentials(m, fields, origin)
    ensures KeepsCredentials(m, rest + fields, origin)
  {
    forall key | key in CREDENTIALS ensures Kept(m, rest + fields, key, origin) {
      assert Kept(m, fields, key, origin);
    }
  }

  /** An accepted witness request keeps its provider, the members of its owner list and every
      credential it supplies; there is nothing else in the result. */
  lemma WitnessKeeps(v: Value, origin: string -> Option<string>)
    requires Normaliser(origin) && ValidateWitness(v, origin).Some?
    ensures ValidateWitness(v, origin).value.Object?
    ensures var m, w := v.fields, ValidateWitness(v, origin).value.fields;
            && {Provider, AllowedOwners} <= m.Keys && {Provider, AllowedOwners} <= w.Keys
            && w[Provider] == m[Provider]
            && w[AllowedOwners].List? && m[AllowedOwners].List?
            && multiset(w[AllowedOwners].items) == multiset(m[AllowedOwners].items)
            && KeepsCredentials(m, w, origin)
            && w.Keys <= {Provider, AllowedOwners, FolderLink, WriteAuth, S3Endpoint, S3Region, S3Bucket,
                          S3AccessKey, S3SecretKey}
  {
    var m := v.fields;
    OwnersFixpoint(m[AllowedOwners]);
    ProviderKeeps(m[Provider], m, origin);
    KeepsBeside(m, map[Provider := m[Provider], AllowedOwners := Owners(m[AllowedOwners]).value],
                ProviderFields(m[Provider], m, origin).value, origin);
  }

  // ----- What validation accepts -----

  /** Text of so many UTF-8 bytes without control or formatting characters. */
  ghost predicate PlainText(v: Value, minimum: nat, maximum: nat) {
    v.Str? && minimum <= Utf8Size(v.text) <= maximum && forall i | 0 <= i < |v.text| :: !Control(v.text[i])
  }

  /** A list of at most 1024 different identities, each of 64 lower-case hexadecimal digits. */
  ghost predicate Identities(v: Value) {
    && v.List? && |v.items| <= 1024
    && (forall i, j | 0 <= i < j < |v.items| :: v.items[i] != v.items[j])
    && (forall i | 0 <= i < |v.items| ::
          v.items[i].Str? && |v.items[i].text| == 64
          && forall k | 0 <= k < 64 ::
               '0' <= v.items[i].text[k] <= '9' || 'a' <= v.items[i].text[k] <= 'f')
  }

  lemma {:induction false} DistinctMeans<T>(s: seq<T>)
    ensures Distinct(s) <==> forall i, j | 0 <= i < j < |s| :: s[i] != s[j]
  {
    if s != [] {
      DistinctCons(s[0], s[1..]);
      DistinctMeans(s[1..]);
      assert s == [s[0]] + s[1..];
      if Distinct(s) {
        forall i, j | 0 <= i < j < |s| ensures s[i] != s[j] {
          assert s[j] == s[1..][j - 1] && (i > 0 ==> s[i] == s[1..][i - 1]);
        }
      }
      if forall i, j | 0 <= i < j < |s| :: s[i] != s[j] {
        forall i, j | 0 <= i < j < |s[1..]| ensures s[1..][i] != s[1..][j] {
          assert s[1..][i] == s[i + 1] && s[1..][j] == s[j + 1];
        }
      }
    }
  }

  lemma OwnersAccepts(v: Value)
    ensures Owners(v).Some? <==> Identities(v)
  {
    if v.List? {
      DistinctMeans(v.items);
      if forall item | item in v.items :: IdentityId(item) {
        forall i | 0 <= i < |v.items| ensures IdentityId(v.items[i]) {
        }
        forall i, k | 0 <= i < |v.items| && 0 <= k < 64 ensures Hex(v.items[i].text[k]) {
          assert v.items[i].text[k] in v.items[i].text;
        }
      }
    }
  }

  /** One to five different lifetimes among the five on offer. */
  ghost predicate Lifetimes(v: Value) {
    && v.List? && 1 <= |v.items| <= 5
    && (forall i, j | 0 <= i < j < |v.items| :: v.items[i] != v.items[j])
    && (forall i | 0 <= i < |v.items| ::
          v.items[i] in {Int(21600), Int(43200), Int(86400), Int(172800), Str("no_expiry")})
  }

  lemma RetentionMeans(x: Value)
    ensures x in RETENTIONS <==> x in {Int(21600), Int(43200), Int(86400), Int(172800), Str("no_expiry")}
  {
    var r := RETENTIONS;
    assert r[0] == Int(21600) && r[1] == Int(43200) && r[2] == Int(86400) && r[3] == Int(172800);
    assert r[4] == Str("no_expiry") && |r| == 5;
  }

  lemma LifetimesAccepts(v: Value)
    ensures LifetimeChoices(v) <==> Lifetimes(v)
  {
    if v.List? {
      DistinctMeans(v.items);
      forall i | 0 <= i < |v.items|
        ensures v.items[i] in RETENTIONS
                <==> v.items[i] in {Int(21600), Int(43200), Int(86400), Int(172800), Str("no_expiry")}
      {
        RetentionMeans(v.items[i]);
      }
      if forall i | 0 <= i < |v.items| :: v.items[i] in RETENTIONS {
        forall item | item in v.items ensures item in RETENTIONS {
        }
      }
    }
  }

  /** Which API requests are accepted. */
  lemma ApiAccepts(v: Value)
    ensures ValidateApi(v).Some? <==>
              && v.Object?
              && v.fields.Keys
                 == {Name, MessageLifetimes, DefaultMessageLifetime, CreationMode, AllowedCreators, ManagedProvider}
              && var m := v.fields;
                 && PlainText(m[Name], 1, 96) && !Space(m[Name].text[0])
                 && !Space(m[Name].text[|m[Name].text| - 1])
                 && Lifetimes(m[MessageLifetimes]) && m[DefaultMessageLifetime] in m[MessageLifetimes].items
                 && m[CreationMode] in {Str("public"), Str("allowlist")}
                 && Identities(m[AllowedCreators]) && m[ManagedProvider] in {Null, Str("mega"), Str("s3")}
                 && (m[CreationMode] == Str("public") ==>
                       m[AllowedCreators] == List([]) && m[ManagedProvider] == Null)
  {
    if v.Object? && v.fields.Keys == API_FIELDS {
      LifetimesAccepts(v.fields[MessageLifetimes]);
      OwnersAccepts(v.fields[AllowedCreators]);
      if Owners(v.fields[AllowedCreators]).Some? {
        OwnersFixpoint(v.fields[AllowedCreators]);
        EmptyPermutation(v.fields[AllowedCreators].items, Owners(v.fields[AllowedCreators]).value.items);
      }
    }
  }

  lemma EmptyPermutation<T>(a: seq<T>, b: seq<T>)
    requires multiset(a) == multiset(b)
    ensures a == [] <==> b == []
  {
    assert |a| == |multiset(a)| == |multiset(b)| == |b|;
  }

  /** So many letters, digits and characters of `extra`. */
  ghost predicate Pattern(s: string, least: nat, most: nat, extra: string) {
    && least <= |s| <= most
    && forall i | 0 <= i < |s| ::
         '0' <= s[i] <= '9' || 'a' <= s[i] <= 'z' || 'A' <= s[i] <= 'Z' || s[i] in extra
  }

  /** The link of a MEGA folder: a handle of eight characters and a key of 22 to 64. */
  ghost predicate FolderUrl(s: string) {
    && |s| >= 32 && s[..23] == "https://mega.nz/folder/" && s[31] == '#'
    && Pattern(s[23..31], 8, 8, "_-") && Pattern(s[32..], 22, 64, "_-")
  }

  lemma {:induction false} AsciiSize(s: string)
    requires forall i | 0 <= i < |s| :: s[i] as int < 0x80
    ensures Utf8Size(s) == |s|
  {
    if s != "" {
      AsciiSize(s[1..]);
    }
  }

  lemma PatternIsText(s: string, least: nat, most: nat, extra: string)
    requires Pattern(s, least, most, extra) && forall c | c in extra :: 0x20 < c as int < 0x7F
    ensures IsText(Str(s), least, most)
  {
    AsciiSize(s);
  }

  lemma MembersMean(s: string, extra: string)
    ensures (forall c | c in s :: Alphanumeric(c) || c in extra) <==> Pattern(s, 0, |s|, extra)
  {
    if Pattern(s, 0, |s|, extra) {
      forall c | c in s ensures Alphanumeric(c) || c in extra {
        var i :| 0 <= i < |s| && s[i] == c;
      }
    }
  }

  lemma AuthMeans(s: string)
    ensures MegaAuth(s) <==> Pattern(s, 16, 128, "_-")
  {
    MembersMean(s, "_-");
    assert forall c :: UrlSafe(c) <==> Alphanumeric(c) || c in "_-";
  }

  lemma FolderMeans(s: string)
    ensures MegaFolder(s) <==> FolderUrl(s)
  {
    assert |FOLDER_PREFIX| == 23;
    assert forall c :: UrlSafe(c) <==> Alphanumeric(c) || c in "_-";
    if |s| >= 32 {
      MembersMean(s[23..31], "_-");
      MembersMean(s[32..], "_-");
    }
  }

  lemma RegionMeans(s: string)
    ensures IsText(Str(s), 1, 128) && S3RegionName(s) <==> Pattern(s, 1, 128, "-")
  {
    MembersMean(s, "-");
    assert forall c :: c == '-' <==> c in "-";
    if Pattern(s, 1, 128, "-") {
      PatternIsText(s, 1, 128, "-");
    }
  }

  lemma BucketMeans(s: string)
    ensures IsText(Str(s), 1, 255) && S3BucketName(s) <==> Pattern(s, 1, 255, ".-")
  {
    MembersMean(s, ".-");
    assert forall c :: c == '.' || c == '-' <==> c in ".-";
    if Pattern(s, 1, 255, ".-") {
      PatternIsText(s, 1, 255, ".-");
    }
  }

  lemma AccessMeans(s: string)
    ensures S3Access(s) <==> Pattern(s, 1, 256, "/+=._:@-")
  {
    MembersMean(s, "/+=._:@-");
  }

  /** MEGA credentials: both or neither, in their formats, and nothing of S3. */
  ghost predicate MegaRequest(m: map<Field, Value>) {
    && !Given(m, S3Endpoint) && !Given(m, S3Region) && !Given(m, S3Bucket)
    && !Given(m, S3AccessKey) && !Given(m, S3SecretKey)
    && (Given(m, FolderLink) <==> Given(m, WriteAuth))
    && (Given(m, FolderLink) ==>
          && m[FolderLink].Str? && FolderUrl(m[FolderLink].text)
          && m[WriteAuth].Str? && Pattern(m[WriteAuth].text, 16, 128, "_-"))
  }

  /** S3 credentials: an origin, a region and a bucket, both keys or neither, and nothing of MEGA. */
  ghost predicate S3Request(m: map<Field, Value>, origin: string -> Option<string>) {
    && !Given(m, FolderLink) && !Given(m, WriteAuth)
    && Given(m, S3Endpoint) && m[S3Endpoint].Str? && origin(m[S3Endpoint].text).Some?
    && Given(m, S3Region) && m[S3Region].Str? && Pattern(m[S3Region].text, 1, 128, "-")
    && Given(m, S3Bucket) && m[S3Bucket].Str? && Pattern(m[S3Bucket].text, 1, 255, ".-")
    && (Given(m, S3AccessKey) <==> Given(m, S3SecretKey))
    && (Given(m, S3AccessKey) ==>
          && m[S3AccessKey].Str? && Pattern(m[S3AccessKey].text, 1, 256, "/+=._:@-")
          && PlainText(m[S3SecretKey], 1, 4096))
  }

  lemma MegaAccepts(m: map<Field, Value>)
    requires CredentialTexts(m)
    ensures MegaFields(m).Some? <==> MegaRequest(m)
  {
    forall key | key in CREDENTIALS
      ensures (Given(m, key) <==> Supplied(m, key) != "") && (Given(m, key) ==> m[key] == Str(Supplied(m, key)))
    {
      GivenIsSupplied(m, key);
    }
    FolderMeans(Supplied(m, FolderLink));
    AuthMeans(Supplied(m, WriteAuth));
  }

  lemma S3Accepts(m: map<Field, Value>, origin: string -> Option<string>)
    requires origin("").None? && CredentialTexts(m)
    ensures S3Fields(m, origin).Some? <==> S3Request(m, origin)
  {
    forall key | key in CREDENTIALS
      ensures (Given(m, key) <==> Supplied(m, key) != "") && (Given(m, key) ==> m[key] == Str(Supplied(m, key)))
    {
      GivenIsSupplied(m, key);
    }
    RegionMeans(Supplied(m, S3Region));
    BucketMeans(Supplied(m, S3Bucket));
    AccessMeans(Supplied(m, S3AccessKey));
  }

  /** Which witness requests are accepted. */
  lemma WitnessAccepts(v: Value, origin: string -> Option<string>)
    requires origin("").None?
    ensures ValidateWitness(v, origin).Some? <==>
              && v.Object?
              && {Provider, AllowedOwners} <= v.fields.Keys
              && v.fields.Keys <= {Provider, AllowedOwners, FolderLink, WriteAuth, S3Endpoint, S3Region, S3Bucket,
                                   S3AccessKey, S3SecretKey}
              && (forall key | key in v.fields && key != Provider && key != AllowedOwners ::
                    PlainText(v.fields[key], 0, 4096))
              && Identities(v.fields[AllowedOwners])
              && (|| (v.fields[Provider] == Null && forall key | key in CREDENTIALS :: !Given(v.fields, key))
                  || (v.fields[Provider] == Str("mega") && MegaRequest(v.fields))
                  || (v.fields[Provider] == Str("s3") && S3Request(v.fields, origin)))
  {
    if v.Object? && {Provider, AllowedOwners} <= v.fields.Keys <= CREDENTIALS + {Provider, AllowedOwners} {
      TextsMean(v.fields);
      OwnersAccepts(v.fields[AllowedOwners]);
      if CredentialTexts(v.fields) {
        ProviderAccepts(v.fields[Provider], v.fields, origin);
      }
    }
  }

  lemma TextsMean(m: map<Field, Value>)
    requires m.Keys <= CREDENTIALS + {Provider, AllowedOwners}
    ensures CredentialTexts(m)
            <==> forall key | key in m && key != Provider && key != AllowedOwners :: PlainText(m[key], 0, 4096)
  {
    forall key | key in m ensures IsText(m[key], 0, 4096) <==> PlainText(m[key], 0, 4096) {
      PlainTextMeans(m[key], 0, 4096);
    }
  }

  lemma PlainTextMeans(v: Value, minimum: nat, maximum: nat)
    ensures IsText(v, minimum, maximum) <==> PlainText(v, minimum, maximum)
  {
  }

  lemma ProviderAccepts(provider: Value, m: map<Field, Value>, origin: string -> Option<string>)
    requires origin("").None? && CredentialTexts(m)
    ensures ProviderFields(provider, m, origin).Some? <==>
              (|| (provider == Null && forall key | key in CREDENTIALS :: !Given(m, key))
               || (provider == Str("mega") && MegaRequest(m))
               || (provider == Str("s3") && S3Request(m, origin)))
  {
    if provider == Str("mega") {
      MegaAccepts(m);
    } else if provider == Str("s3") {
      S3Accepts(m, origin);
    } else {
      forall key | key in CREDENTIALS ensures Given(m, key) <==> Supplied(m, key) != "" {
        GivenIsSupplied(m, key);
      }
    }
  }
}
