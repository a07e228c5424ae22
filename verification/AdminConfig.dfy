/** The configuration documents a worker manages: what `state` reports of them and the
    file changes a validated request asks for. */
module AdminConfig {
  import opened Prelude
  import opened Json
  import opened Schema

  datatype Path =
    | ApiConfig | ManifestInput | HostingProfile | HostingLink | HostingQr | HostingPage
    | StorageConfig | ManagedStorageFile

  function PathName(p: Path): string {
    match p
    case ApiConfig => "api/config/config.json"
    case ManifestInput => "export/config/manifest-input.json"
    case HostingProfile => "public/hosting-profile.json"
    case HostingLink => "public/hosting-link.txt"
    case HostingQr => "public/hosting-qr.svg"
    case HostingPage => "public/hosting-profile.html"
    case StorageConfig => "storage/config/config.json"
    case ManagedStorageFile => "storage/config/managed-storage.json"
  }

  /** A regular file: what it holds, how many bytes that takes, owner, group and permission bits. */
  datatype File<+D> = File(data: D, size: nat, uid: nat, gid: nat, mode: nat)

  /** The greatest file the worker reads. */
  const MAX_FILE := 1048576

  /** What a path is to hold; None is absence. */
  datatype Change<+D> = Change(path: Path, content: Option<File<D>>)

  /** A document, and whether its text is one the decoder takes. */
  datatype Document = Document(value: Value, decodes: bool)

  type Files = map<Path, File<Document>>

  function Allowed(role: Role): set<Path> {
    match role
    case Api => {ApiConfig, ManifestInput, HostingProfile, HostingLink, HostingQr, HostingPage}
    case Witness => {StorageConfig, ManagedStorageFile}
  }

  function Lookup(files: Files, path: Path): Option<File<Document>> {
    if path in files then Some(files[path]) else None
  }

  /** One durable replacement or removal. */
  function Put(files: Files, change: Change<Document>): Files {
    if change.content.None? then files - {change.path} else files[change.path := change.content.value]
  }

  function PutAll(files: Files, changes: seq<Change<Document>>): Files {
    if changes == [] then files
    else Put(PutAll(files, changes[..|changes| - 1]), changes[|changes| - 1])
  }

  lemma PutAllStep(files: Files, changes: seq<Change<Document>>, k: nat)
    requires k < |changes|
    ensures PutAll(files, changes[..k + 1]) == Put(PutAll(files, changes[..k]), changes[k])
  {
    assert changes[..k + 1][..k] == changes[..k];
  }

  function PathsOf<D>(changes: seq<Change<D>>): set<Path> {
    set i | 0 <= i < |changes| :: changes[i].path
  }

  /** Exactly the files of the role, each once. */
  predicate Covers<D>(changes: seq<Change<D>>, role: Role) {
    PathsOf(changes) == Allowed(role)
    && forall i, j | 0 <= i < j < |changes| :: changes[i].path != changes[j].path
  }

  // ----- Documents -----

  function Meant(files: Files, path: Path): Option<map<Field, Value>> {
    if path in files && files[path].data.value.Object? then Some(files[path].data.value.fields) else None
  }

  /** A file `load` does not refuse: at most 1 MiB long, and decodable. */
  predicate Loadable(file: File<Document>) {
    file.size <= MAX_FILE && file.data.decodes
  }

  function Load(files: Files, path: Path): Option<map<Field, Value>> {
    if path in files && Loadable(files[path]) then Meant(files, path) else None
  }

  /** What is loaded: an object in a readable file of at most 1 MiB. */
  lemma LoadMeans(files: Files, path: Path)
    ensures Load(files, path).Some? <==>
              path in files && files[path].size <= 1048576 && files[path].data.decodes && files[path].data.value.Object?
    ensures Load(files, path).Some? ==> files[path].data.value == Object(Load(files, path).value)
  {
  }

  /** A document as `encoded` writes it; `length` is the number of bytes it writes. */
  function Written(v: Value, owner: nat, mode: nat, length: Value -> nat): File<Document> {
    File(Document(v, Finite(v)), length(v), owner, owner, mode)
  }

  function Text(s: string): File<Document> {
    File(Document(Str(s), false), Utf8Size(s), 0, 0, 0x1A4)
  }

  /** `(body.get('storage') or {})`, which must be a dictionary. */
  function StorageSection(body: map<Field, Value>): Option<map<Field, Value>> {
    var storage := Get(body, Storage);
    if !Truthy(storage) then Some(map[]) else if storage.Object? then Some(storage.fields) else None
  }

  datatype ApiView = ApiView(configuration: map<Field, Value>, link: Value, revision: Value)

  /** The configuration section of `state`, from the loaded documents. */
  function ApiConfiguration(config: map<Field, Value>, body: map<Field, Value>, storage: map<Field, Value>)
    : map<Field, Value>
    requires {Name, MessageLifetimes, DefaultMessageLifetime} <= body.Keys
    requires Truthy(Get(storage, Managed)) ==> Get(storage, Managed).Object? && Provider in Get(storage, Managed).fields
  {
    var creators, managed := Get(config, AllowedCreators), Get(storage, Managed);
    map[Name := body[Name],
        MessageLifetimes := body[MessageLifetimes],
        DefaultMessageLifetime := body[DefaultMessageLifetime],
        CreationMode := if creators == Null then Str("public") else Str("allowlist"),
        AllowedCreators := if Truthy(creators) then creators else List([]),
        ManagedProvider := if Truthy(managed) then managed.fields[Provider] else Null,
        StorageAvailable := Bool(Truthy(Get(storage, Url)))]
  }

  /** `state` for the API role; None where a document is missing or malformed. */
  function ApiState(files: Files): Option<ApiView> {
    var config :- Load(files, ApiConfig);
    var body :- Load(files, ManifestInput);
    var public :- Load(files, HostingProfile);
    var storage :- StorageSection(body);
    var managed := Get(storage, Managed);
    if !({Name, MessageLifetimes, DefaultMessageLifetime, Revision} <= body.Keys) || Link !in public
       || (Truthy(managed) && !(managed.Object? && Provider in managed.fields)) then None else
    Some(ApiView(ApiConfiguration(config, body, storage), public[Link], body[Revision]))
  }

  /** The request asks for nothing that is not already in force. */
  predicate NothingToDo(files: Files, value: map<Field, Value>) {
    ApiState(files).Some?
    && forall k | k in value :: Get(ApiState(files).value.configuration, k) == value[k]
  }

  /** What the signing container and the page template produce for one manifest. */
  datatype Signed = Signed(record: Value, link: string, qr: string, page: string)

  function NewConfig(config: map<Field, Value>, value: map<Field, Value>): map<Field, Value>
    requires API_FIELDS <= value.Keys
  {
    var creators := if value[CreationMode] == Str("public") then Null else value[AllowedCreators];
    config[AllowedCreators := creators][AllowedMessageRetentions := value[MessageLifetimes]]
  }

  function NewBody(body: map<Field, Value>, storage: map<Field, Value>, revision: int, value: map<Field, Value>)
    : map<Field, Value>
    requires API_FIELDS <= value.Keys
  {
    var managed := if Truthy(value[ManagedProvider])
                   then Object(map[Provider := value[ManagedProvider], RetentionHours := Int(1)]) else Null;
    var edited := body[Name := value[Name]][MessageLifetimes := value[MessageLifetimes]]
                      [DefaultMessageLifetime := value[DefaultMessageLifetime]][Revision := Int(revision + 1)];
    if storage != map[] then edited[Storage := Object(storage[Managed := managed])] else edited
  }

  /** The six files of the API in the order they are written. */
  function ApiPlan(config: File<Document>, body: File<Document>, profile: File<Document>, signed: Signed)
    : seq<Change<Document>>
  {
    [Change(ApiConfig, Some(config)), Change(ManifestInput, Some(body)), Change(HostingProfile, Some(profile)),
     Change(HostingLink, Some(Text(signed.link + "\n"))), Change(HostingQr, Some(Text(signed.qr))),
     Change(HostingPage, Some(Text(signed.page)))]
  }

  function NewPlan(config: map<Field, Value>, body: map<Field, Value>, storage: map<Field, Value>, revision: int,
                   value: map<Field, Value>, signed: Signed, length: Value -> nat): seq<Change<Document>>
    requires API_FIELDS <= value.Keys
  {
    ApiPlan(Written(Object(NewConfig(config, value)), 21001, 0x180, length),
            Written(Object(NewBody(body, storage, revision, value)), 21005, 0x180, length),
            Written(Object(map[Record := signed.record, Link := Str(signed.link)]), 0, 0x1A4, length), signed)
  }

  /** `api_changes`, given the outcome of signing. */
  function ApiChanges(files: Files, value: map<Field, Value>, signed: Option<Signed>, length: Value -> nat)
    : Option<seq<Change<Document>>>
    requires API_FIELDS <= value.Keys
  {
    var config :- Load(files, ApiConfig);
    var body :- Load(files, ManifestInput);
    var storage :- StorageSection(body);
    if (Truthy(value[ManagedProvider]) && !Truthy(Get(storage, Url)))
       || !(Revision in body && body[Revision].Int?) then None else
    var s :- signed;
    Some(NewPlan(config, body, storage, body[Revision].number, value, s, length))
  }

  /** The request field that supplies each stored credential of a provider kind. */
  function CredentialMap(kind: string): map<Field, Field> {
    if kind == "mega_folder" then map[FolderLink := FolderLink, WriteAuth := WriteAuth]
    else map[Endpoint := S3Endpoint, Region := S3Region, Bucket := S3Bucket,
             AccessKey := S3AccessKey, SecretKey := S3SecretKey]
  }

  /** Stored credentials, each overwritten by the request where the request supplies one. */
  function MergedProvider(kind: string, previous: map<Field, Value>, value: map<Field, Value>): map<Field, Value> {
    var kept := if Get(previous, Provider) == Str(kind) then previous else map[Provider := Str(kind)];
    var source := CredentialMap(kind);
    kept + map target | target in source && Truthy(Get(value, source[target])) :: value[source[target]]
  }

  /** The provider section as a complete request, to be validated once more. */
  function AsRequest(provider: map<Field, Value>, kind: string): map<Field, Value> {
    if kind == "mega_folder" then
      map[FolderLink := Get(provider, FolderLink), WriteAuth := Get(provider, WriteAuth)]
    else
      map[S3Endpoint := Get(provider, Endpoint), S3Region := Get(provider, Region), S3Bucket := Get(provider, Bucket),
          S3AccessKey := Get(provider, AccessKey), S3SecretKey := Get(provider, SecretKey)]
  }

  /** The saved connection: `previous.get('provider', {})`. */
  function SavedProvider(files: Files): Option<map<Field, Value>> {
    var config :- Load(files, StorageConfig);
    var saved :- if Truthy(Get(config, ManagedStorage)) then Load(files, ManagedStorageFile) else Some(map[]);
    if Provider !in saved then Some(map[])
    else if saved[Provider].Object? then Some(saved[Provider].fields) else None
  }

  function Kind(provider: Value): string {
    if provider == Str("mega") then "mega_folder" else "s3_compatible"
  }

  /** Every credential of the kind is there and not blank, and nothing else is. */
  predicate Complete(kind: string, provider: map<Field, Value>) {
    provider.Keys == {Provider} + CredentialMap(kind).Keys && forall k | k in provider :: Truthy(provider[k])
  }

  /** The provider section to store, or None where a credential is missing or malformed. */
  function CompleteProvider(previous: map<Field, Value>, value: map<Field, Value>, origin: string -> Option<string>)
    : Option<map<Field, Value>>
    requires {Provider, AllowedOwners} <= value.Keys
  {
    var kind := Kind(value[Provider]);
    var provider := MergedProvider(kind, previous, value);
    if !Complete(kind, provider) then None else
    var complete := map[Provider := value[Provider], AllowedOwners := value[AllowedOwners]] + AsRequest(provider, kind);
    var _ :- ValidateWitness(Object(complete), origin);
    Some(provider)
  }

  /** The provider to store for a request that names one. */
  function NewProvider(files: Files, value: map<Field, Value>, mega: bool, origin: string -> Option<string>)
    : Option<map<Field, Value>>
    requires {Provider, AllowedOwners} <= value.Keys
  {
    var previous :- SavedProvider(files);
    var provider :- CompleteProvider(previous, value, origin);
    if value[Provider] == Str("mega") && !mega then None else Some(provider)
  }

  function DisabledPlan(config: map<Field, Value>, length: Value -> nat): seq<Change<Document>> {
    [Change(StorageConfig, Some(Written(Object(config - {ManagedStorage}), 21003, 0x180, length))),
     Change(ManagedStorageFile, None)]
  }

  const MANAGED_PATH := Str("/etc/elo/storage/managed-storage.json")

  function ManagedDocument(provider: map<Field, Value>, owners: Value): map<Field, Value> {
    map[Provider := Object(provider), AllowedOwners := owners]
  }

  function ProviderPlan(config: map<Field, Value>, provider: map<Field, Value>, owners: Value, length: Value -> nat)
    : seq<Change<Document>>
  {
    [Change(ManagedStorageFile, Some(Written(Object(ManagedDocument(provider, owners)), 21003, 0x180, length))),
     Change(StorageConfig, Some(Written(Object(config[ManagedStorage := MANAGED_PATH]), 21003, 0x180, length)))]
  }

  /** `storage_changes`; `mega` says whether the MEGA adapter image is installed. */
  function StorageChanges(files: Files, value: map<Field, Value>, mega: bool, origin: string -> Option<string>,
                          length: Value -> nat): Option<seq<Change<Document>>>
    requires {Provider, AllowedOwners} <= value.Keys
  {
    var config :- Load(files, StorageConfig);
    if value[Provider] == Null then Some(DisabledPlan(config, length)) else
    var provider :- NewProvider(files, value, mega, origin);
    Some(ProviderPlan(config, provider, value[AllowedOwners], length))
  }

  /** Either storage plan touches both storage files, each once. */
  lemma StoragePlansCover(config: map<Field, Value>, provider: map<Field, Value>, owners: Value, length: Value -> nat)
    ensures Covers(DisabledPlan(config, length), Witness)
    ensures Covers(ProviderPlan(config, provider, owners, length), Witness)
  {
    var disabled, plan := DisabledPlan(config, length), ProviderPlan(config, provider, owners, length);
    assert PathsOf(disabled) == {disabled[0].path, disabled[1].path};
    assert PathsOf(plan) == {plan[0].path, plan[1].path};
  }

  lemma ApiChangesCover(files: Files, value: map<Field, Value>, signed: Option<Signed>, length: Value -> nat)
    requires API_FIELDS <= value.Keys
    ensures var plan := ApiChanges(files, value, signed, length); plan.Some? ==> Covers(plan.value, Api)
  {
    var plan := ApiChanges(files, value, signed, length);
    if plan.Some? {
      var p := plan.value;
      assert PathsOf(p) == {p[0].path, p[1].path, p[2].path, p[3].path, p[4].path, p[5].path};
    }
  }

  lemma StorageChangesCover(files: Files, value: map<Field, Value>, mega: bool, origin: string -> Option<string>,
                            length: Value -> nat)
    requires {Provider, AllowedOwners} <= value.Keys
    ensures var plan := StorageChanges(files, value, mega, origin, length);
            plan.Some? ==> Covers(plan.value, Witness)
  {
    if Load(files, StorageConfig).Some? {
      var config := Load(files, StorageConfig).value;
      if value[Provider] == Null {
        StoragePlansCover(config, map[], Null, length);
      } else if NewProvider(files, value, mega, origin).Some? {
        StoragePlansCover(config, NewProvider(files, value, mega, origin).value, value[AllowedOwners], length);
      }
    }
  }

  // ----- What `state` can show -----

  /** The connection part of the witness state: `kind` is Null where no provider is known. */
  datatype WitnessView = WitnessView(kind: Value, owners: Value)

  function PublicKind(stored: Value): Value {
    if stored == Str("mega_folder") then Str("mega") else if stored == Str("s3_compatible") then Str("s3") else Null
  }

  /** The managed storage document, if the configuration names one. */
  function ManagedView(managed: Value): Option<WitnessView> {
    if !Truthy(managed) then Some(WitnessView(Null, List([])))
    else if !managed.Object? || !({Provider, AllowedOwners} <= managed.fields.Keys)
            || !managed.fields[Provider].Object? then None
    else
      var provider := managed.fields[Provider].fields;
      var stored := Get(provider, Provider);
      // a list or dictionary cannot be looked up in a table
      if stored.List? || stored.Object? then None
      else if PublicKind(stored) == Str("s3") && !({Endpoint, Region, Bucket} <= provider.Keys) then None
      else Some(WitnessView(PublicKind(stored), managed.fields[AllowedOwners]))
  }

  /** `state` for the witness role; None where a document is missing, malformed or too long. */
  function WitnessState(files: Files): Option<WitnessView> {
    var config :- Load(files, StorageConfig);
    if !Truthy(Get(config, ManagedStorage)) then Some(WitnessView(Null, List([])))
    else if ManagedStorageFile !in files || !Loadable(files[ManagedStorageFile]) then None
    else ManagedView(files[ManagedStorageFile].data.value)
  }

  /** `state` returns; otherwise it raises, and `refresh` with it. */
  predicate Viewable(role: Role, files: Files) {
    if role == Api then ApiState(files).Some? else WitnessState(files).Some?
  }

  /** The documents `state` loads. */
  function ViewedPaths(role: Role): set<Path> {
    match role
    case Api => {ApiConfig, ManifestInput, HostingProfile}
    case Witness => {StorageConfig, ManagedStorageFile}
  }

  /** Every document of the plan that `state` loads is one it can load: within the limit it is
      read with, and without infinities. */
  predicate Fits(role: Role, plan: seq<Change<Document>>) {
    forall c | c in plan && c.path in ViewedPaths(role) && c.content.Some? :: Loadable(c.content.value)
  }

  /** The manifest revision in force; 0 where there is no readable one. */
  function RevisionOf(files: Files): int {
    match Meant(files, ManifestInput)
    case Some(body) => if Revision in body && body[Revision].Int? then body[Revision].number else 0
    case None => 0
  }

  // ----- Replacing whole sets of files -----

  /** Every change is in force. */
  predicate Installed(files: Files, changes: seq<Change<Document>>) {
    forall c | c in changes :: Lookup(files, c.path) == c.content
  }

  /** The two trees differ at most on `paths`. */
  predicate AgreeOutside(a: Files, b: Files, paths: set<Path>) {
    forall p: Path | p !in paths :: Lookup(a, p) == Lookup(b, p)
  }

  /** What `changes` would overwrite: the records `apply` journals. */
  function Snapshot(files: Files, changes: seq<Change<Document>>): (r: seq<Change<Document>>)
    ensures |r| == |changes|
    ensures forall i | 0 <= i < |r| :: r[i] == Change(changes[i].path, Lookup(files, changes[i].path))
  {
    seq(|changes|, i requires 0 <= i < |changes| => Change(changes[i].path, Lookup(files, changes[i].path)))
  }

  lemma SameFiles(a: Files, b: Files)
    requires AgreeOutside(a, b, {})
    ensures a == b
  {
    forall p: Path ensures p in a <==> p in b {
      assert Lookup(a, p) == Lookup(b, p);
    }
    forall p: Path | p in a ensures a[p] == b[p] {
      assert Lookup(a, p) == Lookup(b, p);
    }
  }

  lemma {:induction false} PutAllInstalls(files: Files, changes: seq<Change<Document>>)
    requires forall i, j | 0 <= i < j < |changes| :: changes[i].path != changes[j].path
    ensures Installed(PutAll(files, changes), changes)
    ensures AgreeOutside(PutAll(files, changes), files, PathsOf(changes))
  {
    if changes != [] {
      var n := |changes| - 1;
      var before, after := PutAll(files, changes[..n]), PutAll(files, changes);
      PutAllInstalls(files, changes[..n]);
      forall c | c in changes ensures Lookup(after, c.path) == c.content {
        var i :| 0 <= i < |changes| && changes[i] == c;
        if i < n {
          assert changes[..n][i] == c;
          assert Lookup(before, c.path) == c.content;
        }
      }
      forall p: Path | p !in PathsOf(changes) ensures Lookup(after, p) == Lookup(files, p) {
        assert p != changes[n].path;
        assert p !in PathsOf(changes[..n]);
      }
    }
  }

  /** Installing changes is determined by the files they do not touch. */
  lemma InstalledIsPutAll(files: Files, base: Files, changes: seq<Change<Document>>)
    requires forall i, j | 0 <= i < j < |changes| :: changes[i].path != changes[j].path
    requires Installed(files, changes) && AgreeOutside(files, base, PathsOf(changes))
    ensures files == PutAll(base, changes)
  {
    PutAllInstalls(base, changes);
    forall p: Path ensures Lookup(files, p) == Lookup(PutAll(base, changes), p) {
      if p in PathsOf(changes) {
        var c :| c in changes && c.path == p;
      }
    }
    SameFiles(files, PutAll(base, changes));
  }

  /** Putting one of the changes first makes no difference. */
  lemma PutAllAbsorbs(files: Files, changes: seq<Change<Document>>, k: nat)
    requires forall i, j | 0 <= i < j < |changes| :: changes[i].path != changes[j].path
    requires k < |changes|
    ensures PutAll(Put(files, changes[k]), changes) == PutAll(files, changes)
  {
    var first := Put(files, changes[k]);
    PutAllInstalls(first, changes);
    assert changes[k].path in PathsOf(changes);
    assert AgreeOutside(first, files, PathsOf(changes));
    assert AgreeOutside(PutAll(first, changes), files, PathsOf(changes));
    InstalledIsPutAll(PutAll(first, changes), files, changes);
  }

  // ----- Resubmission -----

  /** What `state` needs to know of a validated API configuration. */
  predicate Normalised(value: map<Field, Value>) {
    && value.Keys == API_FIELDS
    && value[AllowedCreators].List?
    && value[CreationMode] in {Str("public"), Str("allowlist")}
    && value[ManagedProvider] in {Null, Str("mega"), Str("s3")}
    && (value[CreationMode] == Str("public") ==> value[AllowedCreators] == List([]))
  }

  lemma ValidatedIsNormalised(request: Value)
    requires ValidateApi(request).Some?
    ensures ValidateApi(request).value.Object? && Normalised(ValidateApi(request).value.fields)
  {
  }

  lemma StorageOfNewBody(body: map<Field, Value>, storage: map<Field, Value>, revision: int, value: map<Field, Value>)
    requires API_FIELDS <= value.Keys && StorageSection(body) == Some(storage)
    requires Truthy(value[ManagedProvider]) ==> storage != map[]
    ensures var s := StorageSection(NewBody(body, storage, revision, value));
            s.Some? && Get(s.value, Managed) ==
              if Truthy(value[ManagedProvider])
              then Object(map[Provider := value[ManagedProvider], RetentionHours := Int(1)]) else Null
  {
    if storage != map[] {
      assert storage[Managed := Null] != map[] by { assert Managed in storage[Managed := Null]; }
    }
  }

  /** The managed section stored for a provider choice is present exactly when one is chosen. */
  lemma ManagedSection(choice: Value)
    requires choice in {Null, Str("mega"), Str("s3")}
    ensures Truthy(Object(map[Provider := choice, RetentionHours := Int(1)])) && !Truthy(Null)
    ensures Truthy(choice) <==> choice != Null
  {
    assert Provider in map[Provider := choice, RetentionHours := Int(1)];
    assert |"mega"| == 4 && |"s3"| == 2;
  }

  lemma ViewedChoices(config: map<Field, Value>, body: map<Field, Value>, storage: map<Field, Value>,
                      value: map<Field, Value>)
    requires Normalised(value)
    requires {Name, MessageLifetimes, DefaultMessageLifetime} <= body.Keys
    requires Get(config, AllowedCreators)
             == if value[CreationMode] == Str("public") then Null else value[AllowedCreators]
    requires Get(storage, Managed)
             == if value[ManagedProvider] != Null
                then Object(map[Provider := value[ManagedProvider], RetentionHours := Int(1)]) else Null
    ensures Truthy(Get(storage, Managed)) ==>
              Get(storage, Managed).Object? && Provider in Get(storage, Managed).fields
    ensures var view := ApiConfiguration(config, body, storage);
            view[CreationMode] == value[CreationMode] && view[AllowedCreators] == value[AllowedCreators]
            && view[ManagedProvider] == value[ManagedProvider]
  {
    ManagedSection(value[ManagedProvider]);
  }

  lemma ConfigurationOfNewDocuments(config: map<Field, Value>, body: map<Field, Value>, storage: map<Field, Value>,
                                    value: map<Field, Value>)
    requires Normalised(value)
    requires {Name, MessageLifetimes, DefaultMessageLifetime} <= body.Keys
    requires forall k | k in {Name, MessageLifetimes, DefaultMessageLifetime} :: body[k] == value[k]
    requires Get(config, AllowedCreators)
             == if value[CreationMode] == Str("public") then Null else value[AllowedCreators]
    requires Get(storage, Managed)
             == if Truthy(value[ManagedProvider])
                then Object(map[Provider := value[ManagedProvider], RetentionHours := Int(1)]) else Null
    ensures forall k | k in value :: Get(ApiConfiguration(config, body, storage), k) == value[k]
  {
    var view := ApiConfiguration(config, body, storage);
    ManagedSection(value[ManagedProvider]);
    ViewedChoices(config, body, storage, value);
    forall k | k in value ensures Get(view, k) == value[k] {
      assert k in API_FIELDS;
    }
  }

  lemma StateOfNewDocuments(config: map<Field, Value>, body: map<Field, Value>, storage: map<Field, Value>,
                            revision: int, value: map<Field, Value>, after: Files)
    requires Normalised(value) && StorageSection(body) == Some(storage)
    requires Truthy(value[ManagedProvider]) ==> Truthy(Get(storage, Url))
    requires Load(after, ApiConfig) == Some(NewConfig(config, value))
    requires Load(after, ManifestInput) == Some(NewBody(body, storage, revision, value))
    requires Load(after, HostingProfile).Some? && Link in Load(after, HostingProfile).value
    ensures NothingToDo(after, value)
  {
    StorageOfNewBody(body, storage, revision, value);
    var body' := NewBody(body, storage, revision, value);
    ConfigurationOfNewDocuments(NewConfig(config, value), body', StorageSection(body').value, value);
  }

  lemma ApiPlanInstalled(config: File<Document>, body: File<Document>, profile: File<Document>, signed: Signed,
                         after: Files)
    requires Installed(after, ApiPlan(config, body, profile, signed))
    ensures Lookup(after, ApiConfig) == Some(config) && Lookup(after, ManifestInput) == Some(body)
    ensures Lookup(after, HostingProfile) == Some(profile)
    ensures Fits(Api, ApiPlan(config, body, profile, signed))
            <==> Loadable(config) && Loadable(body) && Loadable(profile)
  {
    var plan := ApiPlan(config, body, profile, signed);
    assert plan[0] in plan && plan[1] in plan && plan[2] in plan;
    if Loadable(config) && Loadable(body) && Loadable(profile) {
      forall c | c in plan && c.path in ViewedPaths(Api) && c.content.Some? ensures Loadable(c.content.value) {
        assert Lookup(after, c.path) == c.content;
      }
    }
  }

  /** `state` returns only where the three documents it loads can be loaded. */
  lemma ViewableIsLoadable(files: Files)
    requires Viewable(Api, files)
    ensures forall p | p in ViewedPaths(Api) :: p in files && Loadable(files[p])
  {
  }

  /** A tree with an API plan in force has the next revision, and reports the requested
      configuration if and only if the documents can be loaded again. */
  lemma ApiChangesReport(files: Files, value: map<Field, Value>, signed: Option<Signed>, length: Value -> nat,
                         after: Files)
    requires Normalised(value) && ApiChanges(files, value, signed, length).Some?
    requires Installed(after, ApiChanges(files, value, signed, length).value)
    ensures var plan := ApiChanges(files, value, signed, length).value;
            && (NothingToDo(after, value) <==> Fits(Api, plan))
            && (Viewable(Api, after) <==> Fits(Api, plan))
    ensures RevisionOf(after) == RevisionOf(files) + 1
  {
    var config, body := Meant(files, ApiConfig).value, Meant(files, ManifestInput).value;
    var storage, revision := StorageSection(body).value, body[Revision].number;
    ReportOf(config, body, storage, revision, value, signed.value, length, after);
  }

  lemma ReportOf(config: map<Field, Value>, body: map<Field, Value>, storage: map<Field, Value>, revision: int,
                 value: map<Field, Value>, signed: Signed, length: Value -> nat, after: Files)
    requires Normalised(value) && StorageSection(body) == Some(storage)
    requires Truthy(value[ManagedProvider]) ==> Truthy(Get(storage, Url))
    requires Installed(after, NewPlan(config, body, storage, revision, value, signed, length))
    ensures var plan := NewPlan(config, body, storage, revision, value, signed, length);
            && (NothingToDo(after, value) <==> Fits(Api, plan))
            && (Viewable(Api, after) <==> Fits(Api, plan))
    ensures RevisionOf(after) == revision + 1
  {
    var a := Written(Object(NewConfig(config, value)), 21001, 0x180, length);
    var b := Written(Object(NewBody(body, storage, revision, value)), 21005, 0x180, length);
    var c := Written(Object(map[Record := signed.record, Link := Str(signed.link)]), 0, 0x1A4, length);
    ApiPlanInstalled(a, b, c, signed, after);
    if Loadable(a) && Loadable(b) && Loadable(c) {
      StateOfNewDocuments(config, body, storage, revision, value, after);
    } else if Viewable(Api, after) {
      ViewableIsLoadable(after);
    }
  }

  /** Once an API request has been installed, the service reports exactly that configuration, so
      that submitting it again has nothing to do, if and only if the written documents are
      within the limit they are read with. */
  lemma ResubmissionIsNoOp(files: Files, request: Value, signed: Option<Signed>, length: Value -> nat)
    requires ValidateApi(request).Some?
    requires ApiChanges(files, ValidateApi(request).value.fields, signed, length).Some?
    ensures var value := ValidateApi(request).value.fields;
            var plan := ApiChanges(files, value, signed, length).value;
            var after := PutAll(files, plan);
            (NothingToDo(after, value) <==> Fits(Api, plan)) && RevisionOf(after) == RevisionOf(files) + 1
  {
    ValidatedIsNormalised(request);
    var value := ValidateApi(request).value.fields;
    var plan := ApiChanges(files, value, signed, length).value;
    ApiChangesCover(files, value, signed, length);
    PutAllInstalls(files, plan);
    ApiChangesReport(files, value, signed, length, PutAll(files, plan));
  }

  // ----- The witness -----

  lemma DisabledReport(config: map<Field, Value>, length: Value -> nat, after: Files)
    requires Installed(after, DisabledPlan(config, length))
    ensures WitnessState(after)
            == if Fits(Witness, DisabledPlan(config, length)) then Some(WitnessView(Null, List([]))) else None
  {
    var plan := DisabledPlan(config, length);
    assert plan[0] in plan && plan[1] in plan;
  }

  lemma ManagedReport(provider: map<Field, Value>, owners: Value, kind: string)
    requires provider.Keys == {Provider} + CredentialMap(kind).Keys && provider[Provider] == Str(kind)
    requires kind == "mega_folder" || kind == "s3_compatible"
    ensures ManagedView(Object(ManagedDocument(provider, owners))) == Some(WitnessView(PublicKind(Str(kind)), owners))
  {
    assert Provider in ManagedDocument(provider, owners);
  }

  lemma ProviderReport(config: map<Field, Value>, provider: map<Field, Value>, owners: Value, kind: string,
                       length: Value -> nat, after: Files)
    requires provider.Keys == {Provider} + CredentialMap(kind).Keys && provider[Provider] == Str(kind)
    requires kind == "mega_folder" || kind == "s3_compatible"
    requires Installed(after, ProviderPlan(config, provider, owners, length))
    ensures WitnessState(after)
            == if Fits(Witness, ProviderPlan(config, provider, owners, length))
               then Some(WitnessView(PublicKind(Str(kind)), owners)) else None
  {
    var plan := ProviderPlan(config, provider, owners, length);
    assert plan[0] in plan && plan[1] in plan;
    ManagedReport(provider, owners, kind);
    assert |MANAGED_PATH.text| > 0 && Truthy(MANAGED_PATH);
  }

  lemma MergedKind(kind: string, previous: map<Field, Value>, value: map<Field, Value>)
    requires MergedProvider(kind, previous, value).Keys == {Provider} + CredentialMap(kind).Keys
    ensures MergedProvider(kind, previous, value)[Provider] == Str(kind)
  {
    assert Provider !in CredentialMap(kind);
  }

  /** What a storage plan leaves is reported as requested if and only if the written documents
      are within the limit; a disabled provider is reported as none. */
  lemma StorageChangesReport(files: Files, value: map<Field, Value>, mega: bool, origin: string -> Option<string>,
                             length: Value -> nat, after: Files)
    requires {Provider, AllowedOwners} <= value.Keys && ProviderChoice(value[Provider])
    requires StorageChanges(files, value, mega, origin, length).Some?
    requires Installed(after, StorageChanges(files, value, mega, origin, length).value)
    ensures WitnessState(after)
            == if !Fits(Witness, StorageChanges(files, value, mega, origin, length).value) then None
               else Some(WitnessView(value[Provider],
                                     if value[Provider] == Null then List([]) else value[AllowedOwners]))
  {
    var config := Load(files, StorageConfig).value;
    if value[Provider] == Null {
      DisabledReport(config, length, after);
    } else {
      var kind := Kind(value[Provider]);
      var provider := NewProvider(files, value, mega, origin).value;
      MergedKind(kind, SavedProvider(files).value, value);
      ProviderReport(config, provider, value[AllowedOwners], kind, length, after);
      assert PublicKind(Str(kind)) == value[Provider];
    }
  }

  /** What is stored for one credential: what the request supplies, and otherwise what is saved
      of a connection of the same kind. */
  ghost function Stored(same: bool, saved: map<Field, Value>, value: map<Field, Value>, asked: Field, kept: Field)
    : Value
  {
    if Truthy(Get(value, asked)) then value[asked] else if same then Get(saved, kept) else Null
  }

  lemma MergedAt(kind: string, saved: map<Field, Value>, value: map<Field, Value>, target: Field)
    requires target in CredentialMap(kind)
    ensures Get(MergedProvider(kind, saved, value), target)
            == Stored(Get(saved, Provider) == Str(kind), saved, value, CredentialMap(kind)[target], target)
  {
    assert target != Provider;
  }

  lemma MergedProviderKind(kind: string, saved: map<Field, Value>, value: map<Field, Value>)
    ensures Get(MergedProvider(kind, saved, value), Provider) == Str(kind)
  {
    assert Provider !in CredentialMap(kind);
  }

  /** Merging adds nothing but credentials of the kind to what is kept. */
  lemma MergedKeys(kind: string, saved: map<Field, Value>, value: map<Field, Value>)
    ensures var provider := MergedProvider(kind, saved, value);
            var kept := if Get(saved, Provider) == Str(kind) then saved.Keys else {Provider};
            kept <= provider.Keys <= kept + CredentialMap(kind).Keys
  {
  }

  ghost predicate AsStored(kind: string, saved: map<Field, Value>, value: map<Field, Value>, c: map<Field, Value>,
                           k: Field)
    requires k in CredentialMap(kind)
  {
    k in c && c[k] == Stored(Get(saved, Provider) == Str(kind), saved, value, CredentialMap(kind)[k], k)
  }

  /** Merging completes the connection with every credential as it is to be stored. */
  lemma ConnectionCompletes(kind: string, saved: map<Field, Value>, value: map<Field, Value>, c: map<Field, Value>)
    requires kind != "" && c.Keys == {Provider} + CredentialMap(kind).Keys && c[Provider] == Str(kind)
    requires forall k | k in CredentialMap(kind) :: AsStored(kind, saved, value, c, k)
    ensures var provider := MergedProvider(kind, saved, value);
            && (Complete(kind, provider) <==> Usable(saved, c))
            && (Complete(kind, provider) ==> provider == c)
  {
    var provider := MergedProvider(kind, saved, value);
    MergedKeys(kind, saved, value);
    forall k | k in c ensures Get(provider, k) == c[k] {
      if k == Provider {
        MergedProviderKind(kind, saved, value);
      } else {
        MergedAt(kind, saved, value, k);
        assert AsStored(kind, saved, value, c, k);
      }
    }
    GettingComplete(kind, saved, provider, c);
  }

  lemma GettingComplete(kind: string, saved: map<Field, Value>, provider: map<Field, Value>, c: map<Field, Value>)
    requires Provider in c && c[Provider] == Str(kind) && c.Keys == {Provider} + CredentialMap(kind).Keys
    requires forall k | k in c :: Get(provider, k) == c[k]
    requires var kept := if Get(saved, Provider) == Str(kind) then saved.Keys else {Provider};
             kept <= provider.Keys <= kept + CredentialMap(kind).Keys
    ensures Complete(kind, provider) <==> Usable(saved, c)
    ensures Complete(kind, provider) ==> provider == c
  {
  }

  /** The S3 connection a request asks for, given the saved one. */
  ghost function S3Connection(saved: map<Field, Value>, value: map<Field, Value>): map<Field, Value> {
    var same := Get(saved, Provider) == Str("s3_compatible");
    map[Provider := Str("s3_compatible"),
        Endpoint := Stored(same, saved, value, S3Endpoint, Endpoint),
        Region := Stored(same, saved, value, S3Region, Region),
        Bucket := Stored(same, saved, value, S3Bucket, Bucket),
        AccessKey := Stored(same, saved, value, S3AccessKey, AccessKey),
        SecretKey := Stored(same, saved, value, S3SecretKey, SecretKey)]
  }

  /** A connection that can be stored beside what is saved: whole, and nothing else saved. */
  ghost predicate Usable(saved: map<Field, Value>, c: map<Field, Value>) {
    && (Get(saved, Provider) == Get(c, Provider) ==> saved.Keys <= c.Keys)
    && forall k | k in c :: Truthy(c[k])
  }

  /** The request with the whole connection in it. */
  ghost function WholeRequest(c: map<Field, Value>, value: map<Field, Value>): map<Field, Value>
    requires {Provider, AllowedOwners} <= value.Keys
  {
    if value[Provider] == Str("mega") then
      map[Provider := Str("mega"), AllowedOwners := value[AllowedOwners],
          FolderLink := Get(c, FolderLink), WriteAuth := Get(c, WriteAuth)]
    else
      map[Provider := Str("s3"), AllowedOwners := value[AllowedOwners],
          S3Endpoint := Get(c, Endpoint), S3Region := Get(c, Region), S3Bucket := Get(c, Bucket),
          S3AccessKey := Get(c, AccessKey), S3SecretKey := Get(c, SecretKey)]
  }

  /** It is stored exactly if nothing in it is blank, nothing else is saved beside it, and it
      passes validation as a request. */
  lemma S3Stored(saved: map<Field, Value>, value: map<Field, Value>, origin: string -> Option<string>)
    requires {Provider, AllowedOwners} <= value.Keys && value[Provider] == Str("s3")
    ensures var c := S3Connection(saved, value);
            CompleteProvider(saved, value, origin)
            == if Usable(saved, c) && ValidateWitness(Object(WholeRequest(c, value)), origin).Some?
               then Some(c) else None
  {
    assert Kind(value[Provider]) == "s3_compatible" by { assert |"s3"| == 2 && |"mega"| == 4; }
    S3Completes(saved, value);
    if Complete("s3_compatible", MergedProvider("s3_compatible", saved, value)) {
      S3Assembled(S3Connection(saved, value), value[AllowedOwners]);
    }
  }

  lemma S3Completes(saved: map<Field, Value>, value: map<Field, Value>)
    ensures var c := S3Connection(saved, value);
            var provider := MergedProvider("s3_compatible", saved, value);
            && (Complete("s3_compatible", provider) <==> Usable(saved, c))
            && (Complete("s3_compatible", provider) ==> provider == c)
  {
    S3Map();
    assert |"s3_compatible"| == 13;
    forall k | k in CredentialMap("s3_compatible")
      ensures AsStored("s3_compatible", saved, value, S3Connection(saved, value), k)
    {
      S3Source(saved, value, k);
    }
    ConnectionCompletes("s3_compatible", saved, value, S3Connection(saved, value));
  }

  lemma S3Source(saved: map<Field, Value>, value: map<Field, Value>, k: Field)
    requires k in CredentialMap("s3_compatible")
    ensures AsStored("s3_compatible", saved, value, S3Connection(saved, value), k)
  {
    S3Map();
  }

  lemma S3Map()
    ensures CredentialMap("s3_compatible")
            == map[Endpoint := S3Endpoint, Region := S3Region, Bucket := S3Bucket, AccessKey := S3AccessKey,
                   SecretKey := S3SecretKey]
  {
    assert |"mega_folder"| == 11 && |"s3_compatible"| == 13;
  }

  lemma S3Assembled(c: map<Field, Value>, owners: Value)
    requires c.Keys == {Provider, Endpoint, Region, Bucket, AccessKey, SecretKey}
    ensures map[Provider := Str("s3"), AllowedOwners := owners] + AsRequest(c, "s3_compatible")
            == map[Provider := Str("s3"), AllowedOwners := owners, S3Endpoint := c[Endpoint], S3Region := c[Region],
                   S3Bucket := c[Bucket], S3AccessKey := c[AccessKey], S3SecretKey := c[SecretKey]]
  {
    assert |"mega_folder"| == 11 && |"s3_compatible"| == 13;
  }

  /** The MEGA connection a request asks for, given the saved one. */
  ghost function MegaConnection(saved: map<Field, Value>, value: map<Field, Value>): map<Field, Value> {
    var same := Get(saved, Provider) == Str("mega_folder");
    map[Provider := Str("mega_folder"),
        FolderLink := Stored(same, saved, value, FolderLink, FolderLink),
        WriteAuth := Stored(same, saved, value, WriteAuth, WriteAuth)]
  }

  /** It is stored under the same conditions. */
  lemma MegaStored(saved: map<Field, Value>, value: map<Field, Value>, origin: string -> Option<string>)
    requires {Provider, AllowedOwners} <= value.Keys && value[Provider] == Str("mega")
    ensures var c := MegaConnection(saved, value);
            CompleteProvider(saved, value, origin)
            == if Usable(saved, c) && ValidateWitness(Object(WholeRequest(c, value)), origin).Some?
               then Some(c) else None
  {
    var c := MegaConnection(saved, value);
    assert |"mega_folder"| == 11;
    forall k | k in CredentialMap("mega_folder") ensures AsStored("mega_folder", saved, value, c, k) {
    }
    ConnectionCompletes("mega_folder", saved, value, c);
    if Complete("mega_folder", MergedProvider("mega_folder", saved, value)) {
      MegaAssembled(c, value[AllowedOwners]);
    }
  }

  lemma MegaAssembled(c: map<Field, Value>, owners: Value)
    requires c.Keys == {Provider, FolderLink, WriteAuth}
    ensures map[Provider := Str("mega"), AllowedOwners := owners] + AsRequest(c, "mega_folder")
            == map[Provider := Str("mega"), AllowedOwners := owners, FolderLink := c[FolderLink],
                   WriteAuth := c[WriteAuth]]
  {
  }

  lemma MergedBlank(kind: string, previous: map<Field, Value>, value: map<Field, Value>)
    requires forall k | k in CREDENTIALS :: !Truthy(Get(value, k))
    requires CredentialMap(kind).Keys <= MergedProvider(kind, previous, value).Keys
    ensures Get(previous, Provider) == Str(kind) && MergedProvider(kind, previous, value) == previous
  {
    var source := CredentialMap(kind);
    var kept := if Get(previous, Provider) == Str(kind) then previous else map[Provider := Str(kind)];
    assert forall target | target in source :: source[target] in CREDENTIALS;
    assert MergedProvider(kind, previous, value) == kept;
    assert (if kind == "mega_folder" then FolderLink else Endpoint) in source;
  }

  /** Leaving every credential blank succeeds only where a connection of the same provider
      is saved, and stores that connection unchanged. */
  lemma BlankCredentials(files: Files, value: map<Field, Value>, mega: bool, origin: string -> Option<string>,
                         length: Value -> nat)
    requires {Provider, AllowedOwners} <= value.Keys && value[Provider] != Null
    requires forall k | k in CREDENTIALS :: !Truthy(Get(value, k))
    requires StorageChanges(files, value, mega, origin, length).Some?
    ensures var plan := StorageChanges(files, value, mega, origin, length).value;
            && SavedProvider(files).Some?
            && Get(SavedProvider(files).value, Provider) == Str(Kind(value[Provider]))
            && plan[0].content.Some?
            && plan[0].content.value.data.value
               == Object(map[Provider := Object(SavedProvider(files).value), AllowedOwners := value[AllowedOwners]])
  {
    MergedBlank(Kind(value[Provider]), SavedProvider(files).value, value);
  }

  // ----- The written files, field by field -----

  /** The change writes that document under that name, with that owner and group and those
      permission bits. */
  ghost predicate Writes(c: Change<Document>, name: string, fields: map<Field, Value>, owner: nat, mode: nat,
                         length: Value -> nat)
  {
    && PathName(c.path) == name
    && c.content == Some(File(Document(Object(fields), Finite(Object(fields))), length(Object(fields)),
                              owner, owner, mode))
  }

  /** The change writes that text under that name, for everyone to read. */
  ghost predicate WritesText(c: Change<Document>, name: string, text: string) {
    PathName(c.path) == name && c.content == Some(File(Document(Str(text), false), Utf8Size(text), 0, 0, 0x1A4))
  }

  ghost predicate SameAt(a: map<Field, Value>, b: map<Field, Value>, k: Field) {
    (k in a <==> k in b) && (k in a ==> a[k] == b[k])
  }

  /** The two objects differ at most on `fields`. */
  ghost predicate SameElsewhere(a: map<Field, Value>, b: map<Field, Value>, fields: set<Field>) {
    forall k: Field | k !in fields :: SameAt(a, b, k)
  }

  /** The creators and retentions of the server configuration, after a request. */
  ghost predicate ConfigAsked(prior: map<Field, Value>, config: map<Field, Value>, value: map<Field, Value>)
    requires API_FIELDS <= value.Keys
  {
    && SameElsewhere(config, prior, {AllowedCreators, AllowedMessageRetentions})
    && Get(config, AllowedMessageRetentions) == value[MessageLifetimes]
    && AllowedCreators in config
    && (value[CreationMode] == Str("public") ==> config[AllowedCreators] == Null)
    && (value[CreationMode] != Str("public") ==> config[AllowedCreators] == value[AllowedCreators])
  }

  /** The manifest input after a request; its storage section is edited only if there is one. */
  ghost predicate BodyAsked(prior: map<Field, Value>, body: map<Field, Value>, value: map<Field, Value>)
    requires API_FIELDS <= value.Keys
  {
    && SameElsewhere(body, prior, {Name, MessageLifetimes, DefaultMessageLifetime, Revision, Storage})
    && Get(body, Name) == value[Name] && Get(body, MessageLifetimes) == value[MessageLifetimes]
    && Get(body, DefaultMessageLifetime) == value[DefaultMessageLifetime]
    && Get(prior, Revision).Int? && Get(body, Revision) == Int(Get(prior, Revision).number + 1)
    && if !Truthy(Get(prior, Storage)) then SameAt(body, prior, Storage) else
         && Get(prior, Storage).Object? && Get(body, Storage).Object?
         && SameElsewhere(Get(body, Storage).fields, Get(prior, Storage).fields, {Managed})
         && Managed in Get(body, Storage).fields
         && Get(body, Storage).fields[Managed]
            == if Truthy(value[ManagedProvider])
               then Object(map[Provider := value[ManagedProvider], RetentionHours := Int(1)]) else Null
  }

  lemma NewConfigAsked(prior: map<Field, Value>, value: map<Field, Value>)
    requires API_FIELDS <= value.Keys
    ensures ConfigAsked(prior, NewConfig(prior, value), value)
  {
  }

  lemma NewBodyAsked(prior: map<Field, Value>, value: map<Field, Value>)
    requires API_FIELDS <= value.Keys && StorageSection(prior).Some? && Revision in prior && prior[Revision].Int?
    ensures BodyAsked(prior, NewBody(prior, StorageSection(prior).value, prior[Revision].number, value), value)
  {
  }

  lemma ApiPlanWrites(config: map<Field, Value>, body: map<Field, Value>, profile: map<Field, Value>, signed: Signed,
                      length: Value -> nat)
    ensures var plan := ApiPlan(Written(Object(config), 21001, 0x180, length),
                                Written(Object(body), 21005, 0x180, length),
                                Written(Object(profile), 0, 0x1A4, length), signed);
            && |plan| == 6
            && Writes(plan[0], "api/config/config.json", config, 21001, 0x180, length)
            && Writes(plan[1], "export/config/manifest-input.json", body, 21005, 0x180, length)
            && Writes(plan[2], "public/hosting-profile.json", profile, 0, 0x1A4, length)
            && WritesText(plan[3], "public/hosting-link.txt", signed.link + "\n")
            && WritesText(plan[4], "public/hosting-qr.svg", signed.qr)
            && WritesText(plan[5], "public/hosting-profile.html", signed.page)
  {
  }

  /** The six files an API request writes: which document or text under which path, for which
      owner and with which permissions. */
  lemma ApiFiles(files: Files, value: map<Field, Value>, signed: Option<Signed>, length: Value -> nat)
    returns (config: map<Field, Value>, body: map<Field, Value>)
    requires API_FIELDS <= value.Keys && ApiChanges(files, value, signed, length).Some?
    ensures Load(files, ApiConfig).Some? && Load(files, ManifestInput).Some? && signed.Some?
    ensures ConfigAsked(Load(files, ApiConfig).value, config, value)
    ensures BodyAsked(Load(files, ManifestInput).value, body, value)
    ensures var plan := ApiChanges(files, value, signed, length).value;
            && |plan| == 6
            && Writes(plan[0], "api/config/config.json", config, 21001, 0x180, length)
            && Writes(plan[1], "export/config/manifest-input.json", body, 21005, 0x180, length)
            && Writes(plan[2], "public/hosting-profile.json",
                      map[Record := signed.value.record, Link := Str(signed.value.link)], 0, 0x1A4, length)
            && WritesText(plan[3], "public/hosting-link.txt", signed.value.link + "\n")
            && WritesText(plan[4], "public/hosting-qr.svg", signed.value.qr)
            && WritesText(plan[5], "public/hosting-profile.html", signed.value.page)
  {
    var prior := Load(files, ManifestInput).value;
    config := NewConfig(Load(files, ApiConfig).value, value);
    body := NewBody(prior, StorageSection(prior).value, prior[Revision].number, value);
    NewConfigAsked(Load(files, ApiConfig).value, value);
    NewBodyAsked(prior, value);
    ApiPlanWrites(config, body, map[Record := signed.value.record, Link := Str(signed.value.link)], signed.value,
                  length);
  }

  /** Exactly when an API request has changes to make. */
  lemma ApiChangesExist(files: Files, value: map<Field, Value>, signed: Option<Signed>, length: Value -> nat)
    requires API_FIELDS <= value.Keys
    ensures ApiChanges(files, value, signed, length).Some? <==>
              && Load(files, ApiConfig).Some? && Load(files, ManifestInput).Some? && signed.Some?
              && var body := Load(files, ManifestInput).value;
                 && (Truthy(Get(body, Storage)) ==> Get(body, Storage).Object?)
                 && Get(body, Revision).Int?
                 && (Truthy(value[ManagedProvider]) ==>
                       Truthy(Get(body, Storage)) && Truthy(Get(Get(body, Storage).fields, Url)))
  {
  }

  /** The connection a witness request asks for, given the saved one. */
  ghost function Connection(saved: map<Field, Value>, value: map<Field, Value>): map<Field, Value>
    requires Provider in value
  {
    if value[Provider] == Str("mega") then MegaConnection(saved, value) else S3Connection(saved, value)
  }

  /** The two files a witness request writes: every credential under its own name, the owners,
      and the reference to them; or, for a disabled provider, no reference and no file. */
  lemma StorageFiles(files: Files, value: map<Field, Value>, mega: bool, origin: string -> Option<string>,
                     length: Value -> nat)
    requires {Provider, AllowedOwners} <= value.Keys && value[Provider] in {Null, Str("mega"), Str("s3")}
    requires StorageChanges(files, value, mega, origin, length).Some?
    ensures Load(files, StorageConfig).Some?
    ensures var plan, config := StorageChanges(files, value, mega, origin, length).value,
                                Load(files, StorageConfig).value;
            && |plan| == 2
            && (value[Provider] == Null ==>
                  && Writes(plan[0], "storage/config/config.json", config - {ManagedStorage}, 21003, 0x180, length)
                  && PathName(plan[1].path) == "storage/config/managed-storage.json" && plan[1].content == None)
            && (value[Provider] != Null ==>
                  && SavedProvider(files).Some?
                  && Writes(plan[0], "storage/config/managed-storage.json",
                            map[Provider := Object(Connection(SavedProvider(files).value, value)),
                                AllowedOwners := value[AllowedOwners]], 21003, 0x180, length)
                  && Writes(plan[1], "storage/config/config.json",
                            config[ManagedStorage := Str("/etc/elo/storage/managed-storage.json")],
                            21003, 0x180, length))
  {
    if value[Provider] != Null {
      ConnectionStored(SavedProvider(files).value, value, origin);
    }
  }

  lemma ConnectionStored(saved: map<Field, Value>, value: map<Field, Value>, origin: string -> Option<string>)
    requires {Provider, AllowedOwners} <= value.Keys && value[Provider] in {Str("mega"), Str("s3")}
    ensures var c := Connection(saved, value);
            CompleteProvider(saved, value, origin)
            == if Usable(saved, c) && ValidateWitness(Object(WholeRequest(c, value)), origin).Some?
               then Some(c) else None
  {
    if value[Provider] == Str("mega") {
      MegaStored(saved, value, origin);
    } else {
      S3Stored(saved, value, origin);
    }
  }

  /** Exactly when a witness request has changes to make. */
  lemma StorageChangesExist(files: Files, value: map<Field, Value>, mega: bool, origin: string -> Option<string>,
                            length: Value -> nat)
    requires {Provider, AllowedOwners} <= value.Keys && value[Provider] in {Null, Str("mega"), Str("s3")}
    ensures StorageChanges(files, value, mega, origin, length).Some? <==>
              && Load(files, StorageConfig).Some?
              && (value[Provider] != Null ==>
                    && SavedProvider(files).Some? && (value[Provider] == Str("mega") ==> mega)
                    && var c := Connection(SavedProvider(files).value, value);
                       && Usable(SavedProvider(files).value, c)
                       && ValidateWitness(Object(WholeRequest(c, value)), origin).Some?)
  {
    if value[Provider] != Null && SavedProvider(files).Some? {
      ConnectionStored(SavedProvider(files).value, value, origin);
    }
  }

  /** The stored connection is the one the next request finds saved, and a disabled provider
      leaves none. */
  lemma StoredIsSaved(files: Files, value: map<Field, Value>, mega: bool, origin: string -> Option<string>,
                      length: Value -> nat, after: Files)
    requires {Provider, AllowedOwners} <= value.Keys && value[Provider] in {Null, Str("mega"), Str("s3")}
    requires StorageChanges(files, value, mega, origin, length).Some?
    requires Installed(after, StorageChanges(files, value, mega, origin, length).value)
    requires Fits(Witness, StorageChanges(files, value, mega, origin, length).value)
    ensures value[Provider] == Null ==> SavedProvider(after) == Some(map[])
    ensures value[Provider] != Null ==>
              SavedProvider(files).Some?
              && SavedProvider(after) == Some(Connection(SavedProvider(files).value, value))
  {
    var plan := StorageChanges(files, value, mega, origin, length).value;
    if value[Provider] == Null {
      assert plan[0] in plan;
    } else {
      ConnectionStored(SavedProvider(files).value, value, origin);
      SavedAfter(after, Load(files, StorageConfig).value, Connection(SavedProvider(files).value, value),
                 value[AllowedOwners], length);
    }
  }

  lemma SavedAfter(after: Files, config: map<Field, Value>, c: map<Field, Value>, owners: Value, length: Value -> nat)
    requires Installed(after, ProviderPlan(config, c, owners, length))
    requires Fits(Witness, ProviderPlan(config, c, owners, length))
    ensures SavedProvider(after) == Some(c)
  {
    var plan := ProviderPlan(config, c, owners, length);
    assert plan[0] in plan && plan[1] in plan;
    assert Truthy(MANAGED_PATH) by { assert |MANAGED_PATH.text| > 0; }
  }
}
