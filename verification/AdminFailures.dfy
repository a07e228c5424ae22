/** Two jobs the administration queue accepts and never resolves. */
module AdminFailures {
  import opened Prelude
  import opened Json
  import opened Schema
  import opened AdminConfig
  import opened AdminProtocol
  import opened AdminSafety
  import JsonLength

  const JOB_ID: Id := "0123456789abcdef0123456789abcdef"

  /** A request to disable managed storage. */
  const DISABLE: map<Field, Value> := map[Provider := Null, AllowedOwners := List([])]

  function Idle(tools: Tools, files: Files): State {
    State(Witness, tools, Disk(files, None, map[], map[], map[]), Free, {}, files, [], [], {}, {})
  }

  /** The job has been queued, and read by the worker under the lock. */
  function Queued(tools: Tools, files: Files): State {
    var job := Job(1, JOB_ID, Witness, 0, Object(DISABLE));
    State(Witness, tools, Disk(files, None, map[], map[], map[JOB_ID := job]), Free, {}, files, [], [], {}, {JOB_ID})
  }

  lemma RunSnoc(run: seq<State>, e: Event) returns (longer: seq<State>)
    requires IsRun(run) && Enabled(run[|run| - 1], e)
    ensures IsRun(longer) && longer[|longer| - 1] == Effect(run[|run| - 1], e)
  {
    var s := run[|run| - 1];
    assert Step(s, e, Effect(s, e));
    assert Next(s, Effect(s, e));
    longer := run + [Effect(s, e)];
  }

  lemma QueuedRun(tools: Tools, files: Files) returns (run: seq<State>)
    ensures IsRun(run) && run[|run| - 1] == Queued(tools, files)
  {
    run := [Idle(tools, files)];
    run := RunSnoc(run, Enter);
    run := RunSnoc(run, Publish(JOB_ID, Job(1, JOB_ID, Witness, 0, Object(DISABLE))));
    run := RunSnoc(run, Leave);
    run := RunSnoc(run, Take);
    run := RunSnoc(run, Drop);
  }

  // ----- A half-written configuration that stays -----

  const SETUID_FILE := File(Document(Object(map[]), true), 3, 0, 0, 0x980)
  const BOTH_FILES: Files := map[StorageConfig := SETUID_FILE, ManagedStorageFile := SETUID_FILE]

  lemma DisablePlanned(tools: Tools, files: Files, config: map<Field, Value>)
    requires Load(files, StorageConfig) == Some(config)
    ensures Plannable(Witness, tools, files, DISABLE, None, false, DisabledPlan(config, tools.length))
  {
    StoragePlansCover(config, map[], Null, tools.length);
  }

  /** Files with permission bits above 0o777 make recovery fail: this run journals a request to
      disable storage and stops after the first of its two writes. By `StuckForever` the tree
      then stays neither the old configuration nor the new one. */
  lemma HalfWrittenIsReachable(tools: Tools) returns (run: seq<State>)
    ensures IsRun(run)
    ensures var s := run[|run| - 1];
            Stuck(s, JOB_ID) && s.lock == Free
            && s.disk.files != Serial(s) && s.disk.files != PutAll(Serial(s), s.plan)
  {
    run := QueuedRun(tools, BOTH_FILES);
    DisablePlanned(tools, BOTH_FILES, map[]);
    run := RunSnoc(run, Prepare(JOB_ID, DISABLE, None, false, DisabledPlan(map[], tools.length)));
    run := RunSnoc(run, Forward(JOB_ID, 0));
    HalfWritten(run[|run| - 1]);
  }

  lemma HalfWritten(s: State)
    requires s.log == [] && s.initial == BOTH_FILES && s.plan == DisabledPlan(map[], s.tools.length)
    requires s.disk.files == Put(BOTH_FILES, s.plan[0])
    requires s.disk.status == map[] && InPhase(s, JOB_ID, Prepared)
    requires s.disk.journals[JOB_ID].previous == Snapshot(BOTH_FILES, s.plan)
    ensures Stuck(s, JOB_ID) && s.disk.files != Serial(s) && s.disk.files != PutAll(Serial(s), s.plan)
  {
    var previous := s.disk.journals[JOB_ID].previous;
    assert previous[0] == Change(StorageConfig, Some(SETUID_FILE));
    assert s.disk.files[StorageConfig].mode == 0x180;
    assert ManagedStorageFile in s.disk.files;
    PutAllStep(BOTH_FILES, s.plan, 1);
    assert s.plan[..2] == s.plan;
    assert ManagedStorageFile !in PutAll(BOTH_FILES, s.plan);
  }

  // ----- A committed configuration that cannot be reported -----

  /** A storage configuration as someone wrote it. */
  function Stored(config: map<Field, Value>, size: nat): Files {
    map[StorageConfig := File(Document(Object(config), true), size, 21003, 21003, 0x180)]
  }

  lemma StoredPlanned(tools: Tools, config: map<Field, Value>, size: nat, plan: seq<Change<Document>>)
    requires ManagedStorage !in config && size <= MAX_FILE && plan == DisabledPlan(config, tools.length)
    ensures Plannable(Witness, tools, Stored(config, size), DISABLE, None, false, plan)
    ensures Journable(Stored(config, size), plan) && Viewable(Witness, Stored(config, size))
  {
    DisablePlanned(tools, Stored(config, size), config);
  }

  lemma BothWritten(files: Files, plan: seq<Change<Document>>)
    requires |plan| == 2 && plan[0].path != plan[1].path
    ensures Put(Put(files, plan[0]), plan[1]) == PutAll(files, plan) && Installed(PutAll(files, plan), plan)
  {
    PutAllStep(files, plan, 0);
    PutAllStep(files, plan, 1);
    assert plan[..2] == plan && plan[..0] == [];
    PutAllInstalls(files, plan);
  }

  /** The job has been journalled. */
  function Journalled(tools: Tools, files: Files, plan: seq<Change<Document>>): State {
    var previous := Snapshot(files, plan);
    var s := Queued(tools, files);
    var journal := Journal(Prepared, previous, JournalLength(JOB_ID, Prepared, previous));
    s.(disk := s.disk.(journals := map[JOB_ID := journal]), plan := plan)
  }

  lemma JournalledRun(tools: Tools, files: Files, plan: seq<Change<Document>>) returns (run: seq<State>)
    requires Plannable(Witness, tools, files, DISABLE, None, false, plan) && Journable(files, plan)
    requires Viewable(Witness, files)
    ensures IsRun(run) && run[|run| - 1] == Journalled(tools, files, plan)
  {
    run := QueuedRun(tools, files);
    run := RunSnoc(run, Prepare(JOB_ID, DISABLE, None, false, plan));
  }

  /** Both files have been written. */
  lemma ForwardTwice(run: seq<State>) returns (longer: seq<State>)
    requires IsRun(run)
    requires var s := run[|run| - 1];
             InPhase(s, JOB_ID, Prepared) && JOB_ID !in s.disk.status && |s.plan| == 2
             && s.plan[0].path != s.plan[1].path
    ensures IsRun(longer)
    ensures var s := run[|run| - 1];
            longer[|longer| - 1] == s.(disk := s.disk.(files := PutAll(s.disk.files, s.plan)))
  {
    var s := run[|run| - 1];
    BothWritten(s.disk.files, s.plan);
    longer := RunSnoc(run, Forward(JOB_ID, 0));
    longer := RunSnoc(longer, Forward(JOB_ID, 1));
  }

  /** The journal is marked committed, over files `state` raises on. */
  lemma CommitUnviewable(run: seq<State>) returns (longer: seq<State>)
    requires IsRun(run) && Enabled(run[|run| - 1], Commit(JOB_ID))
    requires var s := run[|run| - 1];
             !Viewable(s.role, s.disk.files) && Recoverable(s.disk.journals[JOB_ID].previous)
             && s.disk.journals[JOB_ID].size < MAX_JOURNAL
    ensures IsRun(longer)
    ensures var s, t := run[|run| - 1], longer[|longer| - 1];
            Unviewable(t, JOB_ID) && Readable(t.disk.journals[JOB_ID])
            && t.lock == s.lock && t.initial == s.initial && t.disk.files == s.disk.files
  {
    longer := RunSnoc(run, Commit(JOB_ID));
  }

  lemma StoredJournal(plan: seq<Change<Document>>, config: map<Field, Value>, size: nat, tools: Tools)
    requires size <= MAX_FILE && plan == DisabledPlan(config, tools.length)
    ensures var previous := Snapshot(Stored(config, size), plan);
            Recoverable(previous) && JournalLength(JOB_ID, Prepared, previous) < MAX_JOURNAL
  {
    var previous := Snapshot(Stored(config, size), plan);
    assert previous[1..][0] == previous[1] && |previous[1..]| == 1;
    assert Digits(21003) == 5 && Digits(0x180) == 3;
    assert RecordsLength(previous) == RecordLength(previous[0]) + 2 + RecordLength(previous[1]);
  }

  lemma NotLoadable(files: Files)
    requires StorageConfig in files && !Loadable(files[StorageConfig])
    ensures !Viewable(Witness, files)
  {
  }

  lemma RewrittenIsNotLoadable(tools: Tools, config: map<Field, Value>, plan: seq<Change<Document>>, files: Files)
    requires ManagedStorage !in config && plan == DisabledPlan(config, tools.length) && Installed(files, plan)
    requires tools.length(Object(config)) > MAX_FILE || !Finite(Object(config))
    ensures !Viewable(Witness, files)
    ensures StorageConfig in files && files[StorageConfig].data.value == Object(config)
  {
    assert config - {ManagedStorage} == config;
    assert plan[0] in plan && Lookup(files, StorageConfig) == plan[0].content;
    NotLoadable(files);
  }

  /** Rewriting a readable document that comes out longer than the worker reads, or with an
      infinity in it: this run commits it. The journal is one recovery reads, and by
      `UnviewableForever` no recovery ever completes and no other job is ever applied. */
  lemma UnviewableIsReachable(tools: Tools, config: map<Field, Value>, size: nat) returns (run: seq<State>)
    requires ManagedStorage !in config && size <= MAX_FILE
    requires tools.length(Object(config)) > MAX_FILE || !Finite(Object(config))
    ensures IsRun(run)
    ensures var s := run[|run| - 1];
            && Unviewable(s, JOB_ID) && Readable(s.disk.journals[JOB_ID])
            && s.lock == Free && s.initial == Stored(config, size)
            && StorageConfig in s.disk.files && s.disk.files[StorageConfig].data.value == Object(config)
  {
    var plan := DisabledPlan(config, tools.length);
    StoredPlanned(tools, config, size, plan);
    StoredJournal(plan, config, size, tools);
    BothWritten(Stored(config, size), plan);
    RewrittenIsNotLoadable(tools, config, plan, PutAll(Stored(config, size), plan));
    run := JournalledRun(tools, Stored(config, size), plan);
    run := ForwardTwice(run);
    run := CommitUnviewable(run);
  }

  /** Numbers enough to exceed the limit when indented, and few enough to be read compactly:
      150 000, for one. */
  predicate Enough(key: Field, n: nat) {
    && n > 0 && key != ManagedStorage
    && 7 * n + 13 + JsonLength.KeyLength(key) > MAX_FILE >= 2 * n + 4 + JsonLength.KeyLength(key)
  }

  lemma SomeAreEnough()
    ensures Enough(Name, 150_000)
  {
  }

  /** The tools of the real worker, with any normalisation of origins. */
  ghost function RealTools(origin: string -> Option<string>): Tools {
    Tools((v: Value) => JsonLength.EncodedLength(v), origin)
  }

  /** A list of zeros, written without spaces, is such a document. */
  lemma OversizedIsReachable(origin: string -> Option<string>, key: Field, n: nat) returns (run: seq<State>)
    requires Enough(key, n)
    ensures IsRun(run)
    ensures var s, config := run[|run| - 1], JsonLength.Filler(key, n);
            && Unviewable(s, JOB_ID) && Readable(s.disk.journals[JOB_ID])
            && s.initial == Stored(config, JsonLength.CompactLength(Object(config)))
  {
    var config := JsonLength.Filler(key, n);
    JsonLength.FillerLength(key, n);
    JsonLength.FillerCompact(key, n);
    run := UnviewableIsReachable(RealTools(origin), config, JsonLength.CompactLength(Object(config)));
  }

  /** So is one with a single number such as 1e999. */
  lemma InfinityIsReachable(tools: Tools) returns (run: seq<State>)
    ensures IsRun(run)
    ensures var s := run[|run| - 1];
            && Unviewable(s, JOB_ID) && Readable(s.disk.journals[JOB_ID])
            && s.initial == Stored(map[Name := Overflow(false)], 14)
  {
    var config := map[Name := Overflow(false)];
    assert !Finite(config[Name]) && Name in config;
    run := UnviewableIsReachable(tools, config, 14);
  }
}
