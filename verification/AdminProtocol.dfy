/** The administration queue as a step system over a durable disk. Each event is one
    durable write (or one lock operation); a worker may stop between any two of them, and
    the web process's events interleave with the worker's. The last fields of `State` are
    history: they record what has happened and no event's guard depends on them except
    through identifier freshness. */
module AdminProtocol {
  import opened Prelude
  import opened Json
  import opened Schema
  import opened AdminConfig
  import Runs

  type Id = string

  datatype Phase = Prepared | Committed
  datatype Final = Succeeded | Failed

  /** The journal of one transaction: its phase, the files it replaces and the length of its text. */
  datatype Journal = Journal(phase: Phase, previous: seq<Change<Document>>, size: nat)

  datatype Job = Job(version: int, id: Id, role: Role, createdAt: int, configuration: Value)

  datatype Disk = Disk(
    files: Files,
    published: Option<Files>,  // the files `state.json` was last computed from
    status: map<Id, Final>,
    journals: map<Id, Journal>,
    queue: map<Id, Job>)

  datatype Owner = Free | ServerHolds | WorkerHolds

  /** A committed transaction. */
  datatype Entry = Entry(id: Id, plan: seq<Change<Document>>)

  /** What the worker does not look into: the bytes `encoded` writes for a document, and the
      normalisation of origins. */
  datatype Tools = Tools(length: Value -> nat, origin: string -> Option<string>)

  datatype State = State(
    role: Role,
    tools: Tools,
    disk: Disk,
    lock: Owner,
    seen: set<Id>,  // queue entries the web process has inspected under the lock
    // history
    initial: Files,
    log: seq<Entry>,
    plan: seq<Change<Document>>,  // the changes of the transaction in the journal
    noops: set<Id>,
    used: set<Id>)

  datatype Event =
    // the web process
    | Enter | Inspect(id: Id) | Publish(id: Id, job: Job) | Leave
    // the worker
    | Take | Drop | Dequeue(id: Id)
    | Prepare(id: Id, value: map<Field, Value>, signed: Option<Signed>, mega: bool, plan: seq<Change<Document>>)
    | Forward(id: Id, index: nat) | Commit(id: Id) | Backward(id: Id, index: nat)
    | Refresh | RecordSuccess(id: Id) | RecordRollback(id: Id) | RemoveJournal(id: Id)
    | RecordNoOp(id: Id) | RecordRejection(id: Id) | Prune(id: Id)

  predicate ServerEvent(e: Event) {
    e.Enter? || e.Inspect? || e.Publish? || e.Leave?
  }

  /** The recovery code refuses journals holding permission bits above 0o777. */
  predicate Recoverable<D>(previous: seq<Change<D>>) {
    forall i | 0 <= i < |previous| && previous[i].content.Some? :: previous[i].content.value.mode <= 0x1FF
  }

  const MAX_JOURNAL := 8 * 1048576

  /** A journal recovery reads; it raises on any other before it writes anything. */
  predicate Readable(j: Journal) {
    Recoverable(j.previous) && j.size <= MAX_JOURNAL
  }

  // ----- The length of a journal's text -----

  function Digits(n: nat): nat {
    if n < 10 then 1 else Digits(n / 10) + 1
  }

  /** The length of a record's text: names, punctuation and indentation, and four characters of
      content for every three bytes begun. */
  function RecordLength<D>(c: Change<D>): nat {
    match c.content
    case None => 51 + |PathName(c.path)|
    case Some(f) => 95 + 4 * ((f.size + 2) / 3) + Digits(f.gid) + Digits(f.mode) + |PathName(c.path)| + Digits(f.uid)
  }

  function RecordsLength<D>(previous: seq<Change<D>>): nat {
    if previous == [] then 0 else
    RecordLength(previous[0]) + (if |previous| == 1 then 0 else 2 + RecordsLength(previous[1..]))
  }

  function JournalLength<D>(id: Id, phase: Phase, previous: seq<Change<D>>): nat {
    52 + |id| + (if phase == Prepared then 8 else 9) + RecordsLength(previous)
  }

  /** A plan the worker may journal: what the request asks for of the present files. */
  predicate Plannable(role: Role, tools: Tools, files: Files, value: map<Field, Value>, signed: Option<Signed>,
                      mega: bool, plan: seq<Change<Document>>)
  {
    && Covers(plan, role)
    && if role == Api then Normalised(value) && ApiChanges(files, value, signed, tools.length) == Some(plan)
       else Choices(value) && StorageChanges(files, value, mega, tools.origin, tools.length) == Some(plan)
  }

  /** What is known of a validated witness configuration. */
  predicate Choices(value: map<Field, Value>) {
    {Provider, AllowedOwners} <= value.Keys && ProviderChoice(value[Provider])
  }

  /** Every file the plan replaces is one the worker reads. */
  predicate Journable(files: Files, plan: seq<Change<Document>>) {
    forall c | c in plan && c.path in files :: files[c.path].size <= MAX_FILE
  }

  predicate InPhase(s: State, id: Id, phase: Phase) {
    id in s.disk.journals && s.disk.journals[id].phase == phase
  }

  predicate Enabled(s: State, e: Event) {
    var d := s.disk;
    match e
    case Enter => s.lock == Free
    case Inspect(id) => s.lock == ServerHolds && id in d.queue && id in d.status
    case Publish(id, job) =>
      && s.lock == ServerHolds && s.seen == d.queue.Keys && id !in s.used
      && job.version == 1 && job.id == id && job.role == s.role
    case Leave => s.lock == ServerHolds
    case Take => s.lock == Free
    case Drop => s.lock == WorkerHolds
    case Dequeue(id) => s.lock == WorkerHolds && id in d.status
    case Prepare(id, value, signed, mega, plan) =>
      && d.journals == map[] && id in d.queue && id !in d.status && Viewable(s.role, d.files)
      && Plannable(s.role, s.tools, d.files, value, signed, mega, plan) && Journable(d.files, plan)
    case Forward(id, index) => InPhase(s, id, Prepared) && id !in d.status && index < |s.plan|
    case Commit(id) => InPhase(s, id, Prepared) && id !in d.status && Installed(d.files, s.plan)
    case Backward(id, index) =>
      InPhase(s, id, Prepared) && index < |d.journals[id].previous| && Readable(d.journals[id])
    case Refresh => Viewable(s.role, d.files)
    case RecordSuccess(id) => InPhase(s, id, Committed) && d.published == Some(d.files)
    case RecordRollback(id) =>
      && InPhase(s, id, Prepared) && Readable(d.journals[id])
      && Installed(d.files, d.journals[id].previous) && d.published == Some(d.files)
    case RemoveJournal(id) => id in d.journals && id in d.status
    case RecordNoOp(id) =>
      d.journals == map[] && id in d.queue && id !in d.status && d.published == Some(d.files)
    case RecordRejection(id) => id !in d.journals && id in d.queue && id !in d.status
    case Prune(id) => id in d.status && id !in d.queue && id !in d.journals
  }

  function Effect(s: State, e: Event): State
    requires Enabled(s, e)
  {
    var d := s.disk;
    match e
    case Enter => s.(lock := ServerHolds, seen := {})
    case Inspect(id) => s.(seen := s.seen + {id})
    case Publish(id, job) => s.(disk := d.(queue := d.queue[id := job]), used := s.used + {id})
    case Leave => s.(lock := Free)
    case Take => s.(lock := WorkerHolds)
    case Drop => s.(lock := Free)
    case Dequeue(id) => s.(disk := d.(queue := d.queue - {id}))
    case Prepare(id, value, signed, mega, plan) =>
      var previous := Snapshot(d.files, plan);
      s.(disk := d.(journals := map[id := Journal(Prepared, previous, JournalLength(id, Prepared, previous))]),
         plan := plan)
    case Forward(id, index) => s.(disk := d.(files := Put(d.files, s.plan[index])))
    case Commit(id) =>
      // `committed` is one letter longer than `prepared`
      s.(disk := d.(journals := d.journals[id := Journal(Committed, d.journals[id].previous, d.journals[id].size + 1)]),
         log := s.log + [Entry(id, s.plan)])
    case Backward(id, index) => s.(disk := d.(files := Put(d.files, d.journals[id].previous[index])))
    case Refresh => s.(disk := d.(published := Some(d.files)))
    case RecordSuccess(id) => s.(disk := d.(status := d.status[id := Succeeded]))
    case RecordRollback(id) => s.(disk := d.(status := d.status[id := Failed]))
    case RemoveJournal(id) => s.(disk := d.(journals := d.journals - {id}))
    case RecordNoOp(id) => s.(disk := d.(status := d.status[id := Succeeded]), noops := s.noops + {id})
    case RecordRejection(id) => s.(disk := d.(status := d.status[id := Failed]))
    case Prune(id) => s.(disk := d.(status := d.status - {id}))
  }

  ghost predicate Step(s: State, e: Event, t: State) {
    Enabled(s, e) && t == Effect(s, e)
  }

  ghost predicate Init(s: State) {
    && s.disk.status == map[] && s.disk.journals == map[] && s.disk.queue == map[]
    && s.disk.files == s.initial && s.lock == Free && s.seen == {}
    && (s.disk.published.Some? ==> Viewable(s.role, s.disk.published.value))
    && s.log == [] && s.plan == [] && s.noops == {} && s.used == {}
  }

  ghost predicate Next(s: State, t: State) {
    exists e :: Step(s, e, t)
  }

  /** A run of the whole system, of any length and with any interleaving. */
  ghost predicate IsRun(run: seq<State>) {
    Runs.IsRun(Init, Next, run)
  }

  // ----- The reference: committed transactions applied one after the other -----

  function Replay(files: Files, log: seq<Entry>): Files {
    if log == [] then files
    else PutAll(Replay(files, log[..|log| - 1]), log[|log| - 1].plan)
  }

  function Serial(s: State): Files {
    Replay(s.initial, s.log)
  }

  predicate Logged(log: seq<Entry>, id: Id) {
    exists k | 0 <= k < |log| :: log[k].id == id
  }

  // ----- Invariant -----

  ghost predicate JournalOk(s: State, id: Id)
    requires id in s.disk.journals
  {
    var d, j := s.disk, s.disk.journals[id];
    && d.journals == map[id := j]
    && id in s.used
    && (id !in d.status ==> id in d.queue)
    && (id in d.status ==> d.published == Some(d.files))
    && match j.phase
       case Prepared =>
         && !Logged(s.log, id)
         && Covers(s.plan, s.role)
         && j.previous == Snapshot(Serial(s), s.plan)
         && AgreeOutside(d.files, Serial(s), PathsOf(s.plan))
         && (s.role == Api ==> RevisionOf(PutAll(Serial(s), s.plan)) == RevisionOf(Serial(s)) + 1)
         && (id in d.status ==> d.status[id] == Failed && d.files == Serial(s))
       case Committed =>
         && Logged(s.log, id)
         && d.files == Serial(s)
  }

  ghost predicate FilesOk(s: State) {
    && (s.disk.journals == map[] ==> s.disk.files == Serial(s))
    && (forall id | id in s.disk.journals :: JournalOk(s, id))
  }

  ghost predicate LogOk(s: State) {
    && (forall i, j | 0 <= i < j < |s.log| :: s.log[i].id != s.log[j].id)
    && (forall k | 0 <= k < |s.log| ::
          && s.log[k].id in s.used
          && s.log[k].id !in s.noops
          && (s.log[k].id in s.disk.status ==> s.disk.status[s.log[k].id] == Succeeded)
          && (s.log[k].id in s.disk.queue ==> s.log[k].id in s.disk.status || s.log[k].id in s.disk.journals))
    && (s.role == Api ==> RevisionOf(Serial(s)) == RevisionOf(s.initial) + |s.log|)
  }

  ghost predicate StatusOk(s: State) {
    forall id | id in s.disk.status ::
      && id in s.used
      && (s.disk.status[id] == Succeeded ==> Logged(s.log, id) || id in s.noops)
      && (s.disk.status[id] == Failed ==> id !in s.noops)
  }

  ghost predicate QueueOk(s: State) {
    && s.disk.queue.Keys <= s.used
    && s.noops <= s.used
    && (forall id | id in s.noops && id in s.disk.queue :: id in s.disk.status)
    && (forall i, j | i in s.disk.queue && j in s.disk.queue && i !in s.disk.status && j !in s.disk.status :: i == j)
    && (s.lock == ServerHolds ==> s.seen <= s.disk.queue.Keys && s.seen <= s.disk.status.Keys)
  }

  ghost predicate Core(s: State) {
    FilesOk(s) && LogOk(s) && StatusOk(s) && QueueOk(s)
  }

  /** Only files `state` returns for are ever published or journalled, and a journal's length is
      that of its text. */
  ghost predicate ViewOk(s: State) {
    && (s.disk.published.Some? ==> Viewable(s.role, s.disk.published.value))
    && (forall id | id in s.disk.journals ::
          && (s.disk.journals[id].phase == Prepared ==> Viewable(s.role, Serial(s)))
          && s.disk.journals[id].size == JournalLength(id, s.disk.journals[id].phase, s.disk.journals[id].previous))
  }

  ghost predicate Inv(s: State) {
    Core(s) && ViewOk(s)
  }

  // ----- Every event keeps the invariant -----

  lemma ReplaySnoc(files: Files, log: seq<Entry>, e: Entry)
    ensures Replay(files, log + [e]) == PutAll(Replay(files, log), e.plan)
  {
    assert (log + [e])[..|log|] == log;
  }

  /** Writing the journalled records back restores the serial files, from wherever the
      interrupted transaction left them. */
  lemma RollbackRestores(s: State, id: Id)
    requires id in s.disk.journals && JournalOk(s, id) && InPhase(s, id, Prepared)
    requires Installed(s.disk.files, s.disk.journals[id].previous)
    ensures s.disk.files == Serial(s)
  {
    var previous := s.disk.journals[id].previous;
    forall p: Path ensures Lookup(s.disk.files, p) == Lookup(Serial(s), p) {
      if p in PathsOf(s.plan) {
        var i :| 0 <= i < |s.plan| && s.plan[i].path == p;
        assert previous[i] in previous;
      }
    }
    SameFiles(s.disk.files, Serial(s));
  }

  /** The state after the commit of `id`. */
  function AfterCommit(s: State, id: Id): State
    requires Enabled(s, Commit(id))
  {
    Effect(s, Commit(id))
  }

  lemma CommitSerial(s: State, id: Id)
    requires FilesOk(s) && Enabled(s, Commit(id))
    ensures Serial(AfterCommit(s, id)) == PutAll(Serial(s), s.plan) == s.disk.files
    ensures s.role == Api ==> RevisionOf(s.disk.files) == RevisionOf(Serial(s)) + 1
  {
    assert JournalOk(s, id);
    ReplaySnoc(s.initial, s.log, Entry(id, s.plan));
    InstalledIsPutAll(s.disk.files, Serial(s), s.plan);
  }

  /** A single committed journal whose files are the serial ones. */
  lemma CommittedFiles(t: State, id: Id)
    requires InPhase(t, id, Committed) && t.disk.journals.Keys == {id}
    requires id in t.used && id in t.disk.queue && id !in t.disk.status
    requires Logged(t.log, id) && t.disk.files == Serial(t)
    ensures FilesOk(t)
  {
    assert t.disk.journals == map[id := t.disk.journals[id]];
  }

  lemma CommitFiles(s: State, id: Id)
    requires FilesOk(s) && Enabled(s, Commit(id))
    ensures FilesOk(AfterCommit(s, id))
  {
    CommitSerial(s, id);
    var t := AfterCommit(s, id);
    assert JournalOk(s, id);
    assert t.disk.journals.Keys == {id};
    assert t.log[|s.log|].id == id;
    CommittedFiles(t, id);
  }

  /** One more entry, of a job that is new to the log and has no outcome yet. */
  lemma LogSnoc(s: State, t: State, entry: Entry)
    requires LogOk(s) && t.log == s.log + [entry] && t.role == s.role && t.initial == s.initial
    requires t.used == s.used && t.noops == s.noops && t.disk.status == s.disk.status && t.disk.queue == s.disk.queue
    requires s.disk.journals.Keys <= t.disk.journals.Keys && entry.id in t.disk.journals
    requires !Logged(s.log, entry.id) && entry.id in s.used && entry.id !in s.noops && entry.id !in s.disk.status
    requires s.role == Api ==> RevisionOf(Serial(t)) == RevisionOf(Serial(s)) + 1
    ensures LogOk(t)
  {
    var n := |s.log|;
    assert t.log[n] == entry && forall k | 0 <= k < n :: t.log[k] == s.log[k];
  }

  lemma CommitLog(s: State, id: Id)
    requires FilesOk(s) && LogOk(s) && StatusOk(s) && QueueOk(s) && Enabled(s, Commit(id))
    ensures LogOk(AfterCommit(s, id))
  {
    CommitSerial(s, id);
    assert JournalOk(s, id);
    LogSnoc(s, AfterCommit(s, id), Entry(id, s.plan));
  }

  lemma CommitKeeps(s: State, id: Id)
    requires Core(s) && Enabled(s, Commit(id))
    ensures Core(AfterCommit(s, id))
  {
    CommitFiles(s, id);
    CommitLog(s, id);
    forall i | Logged(s.log, i) ensures Logged(AfterCommit(s, id).log, i) {
      var k :| 0 <= k < |s.log| && s.log[k].id == i;
      assert AfterCommit(s, id).log[k].id == i;
    }
  }

  lemma ForwardKeeps(s: State, e: Event)
    requires Core(s) && Enabled(s, e) && e.Forward?
    ensures Core(Effect(s, e)) && Serial(Effect(s, e)) == Serial(s)
  {
    var t := Effect(s, e);
    assert JournalOk(s, e.id);
    assert s.plan[e.index].path in PathsOf(s.plan);
    assert JournalOk(t, e.id);
  }

  lemma BackwardKeeps(s: State, e: Event)
    requires Core(s) && Enabled(s, e) && e.Backward?
    ensures Core(Effect(s, e)) && Serial(Effect(s, e)) == Serial(s)
  {
    var t := Effect(s, e);
    assert JournalOk(s, e.id);
    var record := s.disk.journals[e.id].previous[e.index];
    assert record == Change(s.plan[e.index].path, Lookup(Serial(s), record.path));
    assert record.path in PathsOf(s.plan);
    if e.id in s.disk.status {
      assert t.disk.files == s.disk.files;
    }
    assert JournalOk(t, e.id);
  }

  lemma PlanRevises(s: State, e: Event)
    requires Enabled(s, e) && e.Prepare? && s.role == Api
    ensures RevisionOf(PutAll(s.disk.files, e.plan)) == RevisionOf(s.disk.files) + 1
  {
    PutAllInstalls(s.disk.files, e.plan);
    ApiChangesReport(s.disk.files, e.value, e.signed, s.tools.length, PutAll(s.disk.files, e.plan));
  }

  lemma PrepareKeeps(s: State, e: Event)
    requires Core(s) && Enabled(s, e) && e.Prepare?
    ensures Core(Effect(s, e)) && Serial(Effect(s, e)) == Serial(s)
  {
    if s.role == Api {
      PlanRevises(s, e);
    }
    assert JournalOk(Effect(s, e), e.id);
  }

  /** The state with that outcome recorded. */
  function Recorded(s: State, id: Id, final: Final): State {
    s.(disk := s.disk.(status := s.disk.status[id := final]))
  }

  lemma RecordedFiles(s: State, id: Id, final: Final)
    requires id in s.disk.journals && JournalOk(s, id) && s.disk.published == Some(s.disk.files)
    requires InPhase(s, id, Prepared) ==> final == Failed && s.disk.files == Serial(s)
    ensures FilesOk(Recorded(s, id, final))
  {
    assert JournalOk(Recorded(s, id, final), id);
  }

  lemma RecordedStatus(s: State, id: Id, final: Final)
    requires LogOk(s) && StatusOk(s) && QueueOk(s) && id in s.used
    requires final == Succeeded ==> Logged(s.log, id)
    requires final == Failed ==> !Logged(s.log, id) && id !in s.noops
    ensures var t := Recorded(s, id, final); LogOk(t) && StatusOk(t) && QueueOk(t)
  {
  }

  lemma RecordSuccessKeeps(s: State, id: Id)
    requires Core(s) && Enabled(s, RecordSuccess(id))
    ensures var t := Effect(s, RecordSuccess(id)); Core(t) && Serial(t) == Serial(s)
  {
    assert JournalOk(s, id);
    RecordedFiles(s, id, Succeeded);
    RecordedStatus(s, id, Succeeded);
  }

  lemma RecordRollbackKeeps(s: State, id: Id)
    requires Core(s) && Enabled(s, RecordRollback(id))
    ensures var t := Effect(s, RecordRollback(id)); Core(t) && Serial(t) == Serial(s)
  {
    assert JournalOk(s, id);
    RollbackRestores(s, id);
    RecordedFiles(s, id, Failed);
    RecordedStatus(s, id, Failed);
  }

  lemma RemoveJournalKeeps(s: State, id: Id)
    requires Core(s) && Enabled(s, RemoveJournal(id))
    ensures var t := Effect(s, RemoveJournal(id)); Core(t) && Serial(t) == Serial(s)
  {
    assert JournalOk(s, id);
  }

  lemma JournalEventKeeps(s: State, e: Event)
    requires Core(s) && Enabled(s, e)
    requires e.RecordSuccess? || e.RecordRollback? || e.RemoveJournal?
    ensures Core(Effect(s, e)) && Serial(Effect(s, e)) == Serial(s)
  {
    match e
    case RecordSuccess(id) => RecordSuccessKeeps(s, id);
    case RecordRollback(id) => RecordRollbackKeeps(s, id);
    case RemoveJournal(id) => RemoveJournalKeeps(s, id);
  }

  /** Events that leave files, journals and log alone. */
  ghost predicate SameTransaction(s: State, t: State) {
    && t.role == s.role && t.initial == s.initial && t.log == s.log && t.plan == s.plan
    && t.disk.files == s.disk.files && t.disk.journals == s.disk.journals
    && (t.disk.published == s.disk.published || t.disk.published == Some(s.disk.files))
    && s.used <= t.used
    && forall id | id in s.disk.journals ::
         && (id in t.disk.status <==> id in s.disk.status)
         && (id in t.disk.status ==> t.disk.status[id] == s.disk.status[id])
         && (id in s.disk.queue && id !in s.disk.status ==> id in t.disk.queue)
  }

  lemma SameTransactionKeeps(s: State, t: State)
    requires FilesOk(s) && SameTransaction(s, t)
    ensures FilesOk(t) && Serial(t) == Serial(s)
  {
    forall id | id in t.disk.journals ensures JournalOk(t, id) {
      assert JournalOk(s, id);
    }
  }

  lemma ServerEventKeeps(s: State, e: Event)
    requires Core(s) && Enabled(s, e) && ServerEvent(e)
    ensures Core(Effect(s, e)) && Serial(Effect(s, e)) == Serial(s)
  {
    SameTransactionKeeps(s, Effect(s, e));
  }

  lemma LockEventKeeps(s: State, e: Event)
    requires Core(s) && Enabled(s, e) && (e.Take? || e.Drop? || e.Dequeue? || e.Refresh?)
    ensures Core(Effect(s, e)) && Serial(Effect(s, e)) == Serial(s)
  {
    SameTransactionKeeps(s, Effect(s, e));
  }

  lemma RecordNoOpKeeps(s: State, id: Id)
    requires Core(s) && Enabled(s, RecordNoOp(id))
    ensures var t := Effect(s, RecordNoOp(id)); Core(t) && Serial(t) == Serial(s)
  {
    SameTransactionKeeps(s, Effect(s, RecordNoOp(id)));
  }

  lemma RecordRejectionKeeps(s: State, id: Id)
    requires Core(s) && Enabled(s, RecordRejection(id))
    ensures var t := Effect(s, RecordRejection(id)); Core(t) && Serial(t) == Serial(s)
  {
    SameTransactionKeeps(s, Effect(s, RecordRejection(id)));
  }

  lemma PruneKeeps(s: State, id: Id)
    requires Core(s) && Enabled(s, Prune(id))
    ensures var t := Effect(s, Prune(id)); Core(t) && Serial(t) == Serial(s)
  {
    SameTransactionKeeps(s, Effect(s, Prune(id)));
  }

  lemma StatusEventKeeps(s: State, e: Event)
    requires Core(s) && Enabled(s, e) && (e.RecordNoOp? || e.RecordRejection? || e.Prune?)
    ensures Core(Effect(s, e)) && Serial(Effect(s, e)) == Serial(s)
  {
    match e
    case RecordNoOp(id) => RecordNoOpKeeps(s, id);
    case RecordRejection(id) => RecordRejectionKeeps(s, id);
    case Prune(id) => PruneKeeps(s, id);
  }

  lemma PrepareView(s: State, e: Event)
    requires Inv(s) && Enabled(s, e) && e.Prepare?
    ensures ViewOk(Effect(s, e))
  {
  }

  lemma CommitView(s: State, id: Id)
    requires Inv(s) && Enabled(s, Commit(id))
    ensures ViewOk(AfterCommit(s, id))
  {
    assert JournalOk(s, id);
  }

  lemma OtherView(s: State, e: Event)
    requires ViewOk(s) && Enabled(s, e) && !e.Prepare? && !e.Commit?
    ensures ViewOk(Effect(s, e))
  {
    var t := Effect(s, e);
    assert Serial(t) == Serial(s) && t.role == s.role;
    assert forall id | id in t.disk.journals :: id in s.disk.journals && t.disk.journals[id] == s.disk.journals[id];
    assert t.disk.published == s.disk.published || (e.Refresh? && t.disk.published == Some(s.disk.files));
  }

  /** No event breaks the invariant. */
  lemma StepKeeps(s: State, e: Event)
    requires Inv(s) && Enabled(s, e)
    ensures Inv(Effect(s, e))
  {
    CoreKeeps(s, e);
    if e.Prepare? {
      PrepareView(s, e);
    } else if e.Commit? {
      CommitView(s, e.id);
    } else {
      OtherView(s, e);
    }
  }

  lemma CoreKeeps(s: State, e: Event)
    requires Core(s) && Enabled(s, e)
    ensures Core(Effect(s, e))
  {
    if e.Commit? {
      CommitKeeps(s, e.id);
    } else if e.Forward? {
      ForwardKeeps(s, e);
    } else if e.Backward? {
      BackwardKeeps(s, e);
    } else if e.Prepare? {
      PrepareKeeps(s, e);
    } else if e.RecordSuccess? || e.RecordRollback? || e.RemoveJournal? {
      JournalEventKeeps(s, e);
    } else if e.RecordNoOp? || e.RecordRejection? || e.Prune? {
      StatusEventKeeps(s, e);
    } else if ServerEvent(e) {
      ServerEventKeeps(s, e);
    } else {
      LockEventKeeps(s, e);
    }
  }

  lemma InitKeeps(s: State)
    requires Init(s)
    ensures Inv(s)
  {
  }

  lemma NextKeeps(s: State, t: State)
    requires Inv(s) && Next(s, t)
    ensures Inv(t)
  {
    var e :| Step(s, e, t);
    StepKeeps(s, e);
  }

  /** Every state of every run satisfies the invariant. */
  lemma RunKeeps(run: seq<State>, i: nat)
    requires IsRun(run) && i < |run|
    ensures Inv(run[i])
  {
    forall s | Init(s) ensures Inv(s) {
      InitKeeps(s);
    }
    forall s, t | Inv(s) && Next(s, t) ensures Inv(t) {
      NextKeeps(s, t);
    }
    Runs.Always(Init, Next, Inv, run, i);
  }
}
