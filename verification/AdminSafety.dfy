/** What every run of the administration queue guarantees, whatever stops the worker and
    however the web process interleaves with it. */
module AdminSafety {
  import opened Prelude
  import opened Json
  import opened Schema
  import opened AdminConfig
  import opened AdminProtocol
  import Runs

  // ----- Atomicity -----

  /** Rolling the journalled records back, from any partly written tree, gives the serial files. */
  lemma RollbackTarget(s: State, id: Id)
    requires Inv(s) && InPhase(s, id, Prepared)
    ensures PutAll(s.disk.files, s.disk.journals[id].previous) == Serial(s)
  {
    assert JournalOk(s, id);
    var previous := s.disk.journals[id].previous;
    PutAllInstalls(s.disk.files, previous);
    assert PathsOf(previous) == PathsOf(s.plan);
    var rolled := PutAll(s.disk.files, previous);
    forall p: Path ensures Lookup(rolled, p) == Lookup(Serial(s), p) {
      if p in PathsOf(s.plan) {
        var i :| 0 <= i < |s.plan| && s.plan[i].path == p;
        assert previous[i] in previous;
      }
    }
    SameFiles(rolled, Serial(s));
  }

  /** In every state of every run: without a journal, or with a committed one, the files are
      those of the committed transactions applied one after the other; with a prepared one,
      its records restore them. `failed` is only ever recorded of a job that did not commit
      and `succeeded` of one that committed or had nothing to do. */
  lemma Atomicity(run: seq<State>, i: nat)
    requires IsRun(run) && i < |run|
    ensures var s := run[i];
            && (s.disk.journals == map[] ==> s.disk.files == Serial(s))
            && (forall id | InPhase(s, id, Committed) :: s.disk.files == Serial(s))
            && (forall id | InPhase(s, id, Prepared) ::
                  PutAll(s.disk.files, s.disk.journals[id].previous) == Serial(s))
            && (forall id | id in s.disk.status ::
                  s.disk.status[id] == Succeeded <==> Logged(s.log, id) || id in s.noops)
  {
    RunKeeps(run, i);
    var s := run[i];
    forall id | InPhase(s, id, Prepared) ensures PutAll(s.disk.files, s.disk.journals[id].previous) == Serial(s) {
      RollbackTarget(s, id);
    }
    forall id | InPhase(s, id, Committed) ensures s.disk.files == Serial(s) {
      assert JournalOk(s, id);
    }
  }

  lemma {:induction false} ReplayConcat(files: Files, a: seq<Entry>, b: seq<Entry>)
    ensures Replay(files, a + b) == Replay(Replay(files, a), b)
  {
    if b == [] {
      assert a + b == a;
    } else {
      var n := |b| - 1;
      ReplayConcat(files, a, b[..n]);
      assert (a + b)[..|a + b| - 1] == a + b[..n];
    }
  }

  /** The log only grows, and the initial files are fixed. */
  ghost predicate LogGrows(s: State, t: State) {
    s.initial == t.initial && s.role == t.role && s.log <= t.log
  }

  lemma StepLogGrows(s: State, e: Event)
    requires Enabled(s, e)
    ensures LogGrows(s, Effect(s, e))
  {
  }

  lemma LogPrefix(run: seq<State>, i: nat, j: nat)
    requires IsRun(run) && i <= j < |run|
    ensures LogGrows(run[i], run[j])
  {
    forall k | 0 <= k < |run| ensures Inv(run[k]) {
      RunKeeps(run, k);
    }
    forall s, t | Inv(s) && Next(s, t) ensures LogGrows(s, t) {
      var e :| Step(s, e, t);
      StepLogGrows(s, e);
    }
    Runs.Throughout(Init, Next, Inv, LogGrows, run, i, j);
  }

  /** Between two moments without a journal, the configuration files changed by exactly the
      transactions committed in between: a job that failed left every file, owner and mode
      as it was, and a job that committed installed all of its files. */
  lemma ChangesAreCommits(run: seq<State>, i: nat, j: nat)
    requires IsRun(run) && i <= j < |run|
    requires run[i].disk.journals == map[] && run[j].disk.journals == map[]
    ensures run[i].log <= run[j].log
    ensures run[j].disk.files == Replay(run[i].disk.files, run[j].log[|run[i].log|..])
  {
    LogPrefix(run, i, j);
    RunKeeps(run, i);
    RunKeeps(run, j);
    var a, b := run[i].log, run[j].log[|run[i].log|..];
    assert run[j].log == a + b;
    ReplayConcat(run[i].initial, a, b);
  }

  // ----- Commit is final -----

  /** Once a transaction is committed, it stays committed: no later state lacks it and none
      reports the job as failed. */
  lemma CommitIsFinal(run: seq<State>, i: nat, j: nat, id: Id)
    requires IsRun(run) && i <= j < |run| && (InPhase(run[i], id, Committed) || Logged(run[i].log, id))
    ensures Logged(run[j].log, id) && !InPhase(run[j], id, Prepared)
    ensures id in run[j].disk.status ==> run[j].disk.status[id] == Succeeded
  {
    RunKeeps(run, i);
    RunKeeps(run, j);
    LogPrefix(run, i, j);
    if InPhase(run[i], id, Committed) {
      assert JournalOk(run[i], id);
    }
    var k :| 0 <= k < |run[i].log| && run[i].log[k].id == id;
    assert run[j].log[k].id == id;
    if InPhase(run[j], id, Prepared) {
      assert JournalOk(run[j], id);
    }
  }

  // ----- One transaction at a time, each job at most once -----

  lemma StepWritesFiles(s: State, e: Event)
    requires FilesOk(s) && Enabled(s, e)
    ensures Effect(s, e).disk.files != s.disk.files ==> (e.Forward? || e.Backward?) && s.disk.journals.Keys == {e.id}
  {
    if e.Forward? || e.Backward? {
      assert JournalOk(s, e.id);
      assert s.disk.journals.Keys == {e.id};
    } else {
      assert Effect(s, e).disk.files == s.disk.files;
    }
  }

  /** There is never more than one journal, and files change only on behalf of its job. */
  lemma OneJournal(run: seq<State>, i: nat, e: Event)
    requires IsRun(run) && i < |run| && Enabled(run[i], e)
    ensures |run[i].disk.journals| <= 1
    ensures Effect(run[i], e).disk.files != run[i].disk.files ==>
              (e.Forward? || e.Backward?) && run[i].disk.journals.Keys == {e.id}
  {
    RunKeeps(run, i);
    var journals := run[i].disk.journals;
    if id :| id in journals {
      assert JournalOk(run[i], id);
      assert journals == map[id := journals[id]];
    }
    StepWritesFiles(run[i], e);
  }

  /** Each job commits at most once, and the manifest revision counts the commits. */
  lemma AtMostOnce(run: seq<State>, i: nat)
    requires IsRun(run) && i < |run|
    ensures forall a, b | 0 <= a < b < |run[i].log| :: run[i].log[a].id != run[i].log[b].id
    ensures forall k | 0 <= k < |run[i].log| :: run[i].log[k].id !in run[i].noops
    ensures run[i].role == Api && run[i].disk.journals == map[] ==>
              RevisionOf(run[i].disk.files) == RevisionOf(run[0].disk.files) + |run[i].log|
  {
    RunKeeps(run, i);
    LogPrefix(run, 0, i);
  }

  // ----- The queue -----

  /** At most one queued job is unfinished, over every interleaving. */
  lemma OneUnfinishedJob(run: seq<State>, i: nat, a: Id, b: Id)
    requires IsRun(run) && i < |run|
    requires a in run[i].disk.queue && a !in run[i].disk.status
    requires b in run[i].disk.queue && b !in run[i].disk.status
    ensures a == b
  {
    RunKeeps(run, i);
  }

  ghost predicate StaysFinished(s: State, t: State) {
    && s.used <= t.used
    && (forall id | id in s.used && id in t.disk.queue :: id in s.disk.queue)
    && (forall id | id in s.used && id in s.disk.status && id in t.disk.queue :: id in t.disk.status)
  }

  lemma StepStaysFinished(s: State, e: Event)
    requires QueueOk(s) && Enabled(s, e)
    ensures StaysFinished(s, Effect(s, e))
  {
    if e.Publish? {
    } else if e.Dequeue? {
    } else if e.Prune? {
    } else {
      assert Effect(s, e).disk.queue == s.disk.queue;
      assert s.disk.status.Keys <= Effect(s, e).disk.status.Keys;
    }
  }

  /** A finished job that is still queued is never reopened, whatever is pruned. */
  lemma NeverReopened(run: seq<State>, i: nat, j: nat, id: Id)
    requires IsRun(run) && i <= j < |run|
    requires id in run[i].disk.status && id in run[j].disk.queue
    ensures id in run[j].disk.status
  {
    forall k | 0 <= k < |run| ensures Inv(run[k]) {
      RunKeeps(run, k);
    }
    forall s, t | Inv(s) && Next(s, t) ensures StaysFinished(s, t) {
      var e :| Step(s, e, t);
      StepStaysFinished(s, e);
    }
    Runs.Throughout(Init, Next, Inv, StaysFinished, run, i, j);
  }

  // ----- Recovery converges -----

  /** What one uninterrupted recovery of the journal of `id` leaves. */
  function Recovered(d: Disk, id: Id): Disk
    requires id in d.journals
  {
    var j := d.journals[id];
    var files := if j.phase == Prepared then PutAll(d.files, j.previous) else d.files;
    d.(files := files, published := Some(files), journals := d.journals - {id},
       status := d.status[id := if j.phase == Prepared then Failed else Succeeded])
  }

  /** The writes recovery of `id` makes, in any order its guards allow. */
  predicate RecoveryEvent(e: Event, id: Id) {
    match e
    case Backward(i, _) => i == id
    case RecordSuccess(i) => i == id
    case RecordRollback(i) => i == id
    case RemoveJournal(i) => i == id
    case Refresh => true
    case _ => false
  }

  /** The steps that may follow once the worker has died: those of recovery, which reads the
      journal before it writes anything, and those of the web process. */
  predicate Recovers(s: State, e: Event, id: Id) {
    ServerEvent(e) || (RecoveryEvent(e, id) && id in s.disk.journals && Readable(s.disk.journals[id]))
  }

  /** Any number of recoveries, each interrupted anywhere, with the web process in between. */
  predicate RecoveryRun(s: State, events: seq<Event>, id: Id)
    decreases |events|
  {
    events == []
    || (Enabled(s, events[0]) && Recovers(s, events[0], id) && RecoveryRun(Effect(s, events[0]), events[1..], id))
  }

  function After(s: State, events: seq<Event>, id: Id): State
    requires RecoveryRun(s, events, id)
    decreases |events|
  {
    if events == [] then s else After(Effect(s, events[0]), events[1..], id)
  }

  /** What recovery of a prepared journal works towards: the serial files and `failed`. */
  lemma RecoveredPrepared(s: State, id: Id)
    requires Inv(s) && InPhase(s, id, Prepared)
    ensures Recovered(s.disk, id)
            == s.disk.(files := Serial(s), published := Some(Serial(s)), journals := s.disk.journals - {id},
                       status := s.disk.status[id := Failed])
  {
    RollbackTarget(s, id);
  }

  lemma BackwardStep(s: State, id: Id, k: nat)
    requires Inv(s) && Enabled(s, Backward(id, k))
    ensures var t := Effect(s, Backward(id, k));
            id in t.disk.journals && Recovered(t.disk, id) == Recovered(s.disk, id)
  {
    var e := Backward(id, k);
    BackwardKeeps(s, e);
    RecoveredPrepared(s, id);
    RecoveredPrepared(Effect(s, e), id);
  }

  lemma RemovalStep(s: State, id: Id)
    requires Inv(s) && Enabled(s, RemoveJournal(id))
    ensures Effect(s, RemoveJournal(id)).disk == Recovered(s.disk, id)
  {
    assert JournalOk(s, id);
    if InPhase(s, id, Prepared) {
      RecoveredPrepared(s, id);
    }
  }

  lemma RefreshStep(s: State, id: Id)
    requires id in s.disk.journals && Enabled(s, Refresh)
    ensures Recovered(Effect(s, Refresh).disk, id) == Recovered(s.disk, id)
  {
  }

  lemma OutcomeStep(s: State, id: Id)
    requires id in s.disk.journals
    ensures Enabled(s, RecordSuccess(id)) ==>
              Recovered(Effect(s, RecordSuccess(id)).disk, id) == Recovered(s.disk, id)
    ensures Enabled(s, RecordRollback(id)) ==>
              Recovered(Effect(s, RecordRollback(id)).disk, id) == Recovered(s.disk, id)
  {
  }

  /** Each write of a recovery keeps the outcome of an uninterrupted one; the last reaches it. */
  lemma RecoveryStep(s: State, e: Event, id: Id)
    requires Inv(s) && id in s.disk.journals && Enabled(s, e) && RecoveryEvent(e, id)
    ensures var t := Effect(s, e);
            if e.RemoveJournal? then t.disk == Recovered(s.disk, id)
            else id in t.disk.journals && Recovered(t.disk, id) == Recovered(s.disk, id)
  {
    if e.Backward? {
      BackwardStep(s, id, e.index);
    } else if e.RemoveJournal? {
      RemovalStep(s, id);
    } else if e.Refresh? {
      RefreshStep(s, id);
    } else {
      OutcomeStep(s, id);
    }
  }

  lemma ServerChangesQueue(s: State, e: Event)
    requires ServerEvent(e) && Enabled(s, e)
    ensures Effect(s, e).disk == s.disk.(queue := Effect(s, e).disk.queue)
  {
  }

  /** With the journal gone only the web process goes on. */
  lemma {:induction false} AfterRemoval(s: State, events: seq<Event>, id: Id)
    requires RecoveryRun(s, events, id) && id !in s.disk.journals
    ensures var t := After(s, events, id); t.disk == s.disk.(queue := t.disk.queue)
    decreases |events|
  {
    if events != [] {
      ServerChangesQueue(s, events[0]);
      AfterRemoval(Effect(s, events[0]), events[1..], id);
    }
  }

  /** Neither process changes what recovery leads to, but for the queue. */
  lemma SameOutcome(s: State, e: Event, id: Id)
    requires Inv(s) && id in s.disk.journals && Enabled(s, e) && Recovers(s, e, id)
    ensures var t := Effect(s, e);
            if id in t.disk.journals then Recovered(t.disk, id) == Recovered(s.disk, id).(queue := t.disk.queue)
            else t.disk == Recovered(s.disk, id).(queue := t.disk.queue)
  {
    if ServerEvent(e) {
      ServerChangesQueue(s, e);
    } else {
      RecoveryStep(s, e, id);
    }
  }

  /** However often recovery is interrupted and whatever the web process does meanwhile, once
      the journal is gone the disk is, but for the queue, the one a single uninterrupted
      recovery would have left. */
  lemma {:induction false} RecoveryConverges(s: State, events: seq<Event>, id: Id)
    requires Inv(s) && id in s.disk.journals && RecoveryRun(s, events, id)
    requires id !in After(s, events, id).disk.journals
    ensures var t := After(s, events, id); t.disk == Recovered(s.disk, id).(queue := t.disk.queue)
    decreases |events|
  {
    var e, rest := events[0], events[1..];
    var next := Effect(s, e);
    StepKeeps(s, e);
    SameOutcome(s, e, id);
    assert After(s, events, id) == After(next, rest, id);
    if id in next.disk.journals {
      RecoveryConverges(next, rest, id);
    } else {
      AfterRemoval(next, rest, id);
    }
  }

  // ----- When recovery is possible -----

  /** Recovery reads the journal, and `state` returns for the files it leaves: for a prepared job
      those are the files before it, for which `state` has returned. */
  predicate Resolvable(s: State, id: Id)
    requires id in s.disk.journals
  {
    Readable(s.disk.journals[id]) && (InPhase(s, id, Committed) ==> Viewable(s.role, s.disk.files))
  }

  /** A committed job without an outcome over files `state` raises on. */
  predicate Unviewable(s: State, id: Id) {
    InPhase(s, id, Committed) && !Viewable(s.role, s.disk.files)
  }

  lemma UnviewableHasNoOutcome(s: State, id: Id)
    requires Inv(s) && Unviewable(s, id)
    ensures id !in s.disk.status && s.disk.published != Some(s.disk.files)
  {
    assert JournalOk(s, id);
  }

  lemma UnresolvableStep(s: State, e: Event, id: Id)
    requires Inv(s) && id in s.disk.journals && !Resolvable(s, id) && Enabled(s, e) && Recovers(s, e, id)
    ensures var t := Effect(s, e); id in t.disk.journals && !Resolvable(t, id)
  {
    if ServerEvent(e) {
      ServerChangesQueue(s, e);
    } else {
      UnviewableHasNoOutcome(s, id);
    }
  }

  lemma {:induction false} JournalStays(s: State, events: seq<Event>, id: Id)
    requires Inv(s) && RecoveryRun(s, events, id) && id in s.disk.journals && !Resolvable(s, id)
    ensures id in After(s, events, id).disk.journals
    decreases |events|
  {
    if events != [] {
      StepKeeps(s, events[0]);
      UnresolvableStep(s, events[0], id);
      JournalStays(Effect(s, events[0]), events[1..], id);
    }
  }

  lemma RecoveryCons(s: State, e: Event, rest: seq<Event>, id: Id)
    requires Enabled(s, e) && Recovers(s, e, id) && RecoveryRun(Effect(s, e), rest, id)
    ensures RecoveryRun(s, [e] + rest, id) && After(s, [e] + rest, id) == After(Effect(s, e), rest, id)
  {
    assert ([e] + rest)[1..] == rest;
  }

  /** The end of every recovery: state refreshed, outcome recorded, journal removed. */
  lemma ConcludeWith(s: State, id: Id, outcome: Event) returns (events: seq<Event>)
    requires id in s.disk.journals && Readable(s.disk.journals[id]) && Viewable(s.role, s.disk.files)
    requires if InPhase(s, id, Prepared)
             then outcome == RecordRollback(id) && Installed(s.disk.files, s.disk.journals[id].previous)
             else outcome == RecordSuccess(id)
    ensures RecoveryRun(s, events, id) && id !in After(s, events, id).disk.journals
  {
    var refreshed := Effect(s, Refresh);
    var recorded := Effect(refreshed, outcome);
    var removed := Effect(recorded, RemoveJournal(id));
    assert RecoveryRun(removed, [], id);
    RecoveryCons(recorded, RemoveJournal(id), [], id);
    RecoveryCons(refreshed, outcome, [RemoveJournal(id)] + [], id);
    RecoveryCons(s, Refresh, [outcome] + ([RemoveJournal(id)] + []), id);
    events := [Refresh] + ([outcome] + ([RemoveJournal(id)] + []));
  }

  lemma OneMoreInstalled(files: Files, changes: seq<Change<Document>>, k: nat)
    requires forall i, j | 0 <= i < j < |changes| :: changes[i].path != changes[j].path
    requires k < |changes| && Installed(files, changes[..k])
    ensures Installed(Put(files, changes[k]), changes[..k + 1])
  {
    assert changes[..k + 1] == changes[..k] + [changes[k]];
    forall c | c in changes[..k] ensures c.path != changes[k].path {
      var i :| 0 <= i < k && changes[..k][i] == c;
      assert changes[i] == c;
    }
  }

  /** A prepared journal with its first `k` records restored can be rolled back, to files for
      which `state` returns. */
  lemma {:induction false} RollBackFrom(s: State, id: Id, k: nat, target: Files) returns (events: seq<Event>)
    requires InPhase(s, id, Prepared) && Readable(s.disk.journals[id])
    requires var previous := s.disk.journals[id].previous;
             && (forall i, j | 0 <= i < j < |previous| :: previous[i].path != previous[j].path)
             && k <= |previous| && Installed(s.disk.files, previous[..k]) && PutAll(s.disk.files, previous) == target
    requires Viewable(s.role, target)
    ensures RecoveryRun(s, events, id) && id !in After(s, events, id).disk.journals
    decreases |s.disk.journals[id].previous| - k
  {
    var previous := s.disk.journals[id].previous;
    if k == |previous| {
      assert previous[..k] == previous;
      InstalledIsPutAll(s.disk.files, s.disk.files, previous);
      events := ConcludeWith(s, id, RecordRollback(id));
    } else {
      OneMoreInstalled(s.disk.files, previous, k);
      PutAllAbsorbs(s.disk.files, previous, k);
      var rest := RollBackFrom(Effect(s, Backward(id, k)), id, k + 1, target);
      RecoveryCons(s, Backward(id, k), rest, id);
      events := [Backward(id, k)] + rest;
    }
  }

  lemma RollBack(s: State, id: Id) returns (events: seq<Event>)
    requires Inv(s) && InPhase(s, id, Prepared) && Readable(s.disk.journals[id])
    ensures RecoveryRun(s, events, id) && id !in After(s, events, id).disk.journals
  {
    assert JournalOk(s, id);
    RollbackTarget(s, id);
    events := RollBackFrom(s, id, 0, Serial(s));
  }

  /** An interrupted job can be resolved if and only if recovery reads its journal and, once it
      is committed, `state` returns for the files it wrote. */
  lemma RecoveryIffResolvable(s: State, id: Id)
    requires Inv(s) && id in s.disk.journals
    ensures (exists events :: RecoveryRun(s, events, id) && id !in After(s, events, id).disk.journals)
            <==> Resolvable(s, id)
  {
    if Resolvable(s, id) {
      var events;
      if InPhase(s, id, Prepared) {
        events := RollBack(s, id);
      } else {
        events := ConcludeWith(s, id, RecordSuccess(id));
      }
      assert RecoveryRun(s, events, id) && id !in After(s, events, id).disk.journals;
    } else {
      forall events | RecoveryRun(s, events, id) ensures id in After(s, events, id).disk.journals {
        JournalStays(s, events, id);
      }
    }
  }

  /** `state` returns for what a plan left exactly when its documents can be loaded: none
      is over 1 MiB as written, and none holds an infinity. */
  lemma CommittedIsViewable(role: Role, tools: Tools, files: Files, value: map<Field, Value>, signed: Option<Signed>,
                            mega: bool, plan: seq<Change<Document>>)
    requires Plannable(role, tools, files, value, signed, mega, plan)
    ensures Viewable(role, PutAll(files, plan)) <==> Fits(role, plan)
  {
    PutAllInstalls(files, plan);
    if role == Api {
      ApiChangesReport(files, value, signed, tools.length, PutAll(files, plan));
    } else {
      StorageChangesReport(files, value, mega, tools.origin, tools.length, PutAll(files, plan));
    }
  }

  // ----- Jobs that are never resolved -----

  /** Only the interrupted `apply` itself replaces files or commits; nothing resumes it. */
  predicate Resumes(e: Event) {
    e.Forward? || e.Commit?
  }

  /** A prepared job without an outcome whose journal recovery does not read. */
  predicate Stuck(s: State, id: Id) {
    InPhase(s, id, Prepared) && !Readable(s.disk.journals[id]) && id !in s.disk.status
  }

  /** The job is as stuck as it was, over the same files and journal. */
  ghost predicate NoProgress(s: State, t: State, id: Id) {
    && Stuck(t, id) && t.disk.files == s.disk.files && t.disk.journals == s.disk.journals
    && t.initial == s.initial && t.log == s.log && t.plan == s.plan
  }

  lemma StuckStep(s: State, e: Event, id: Id)
    requires FilesOk(s) && Stuck(s, id) && Enabled(s, e) && !Resumes(e)
    ensures NoProgress(s, Effect(s, e), id)
  {
    assert JournalOk(s, id);
  }

  /** Any step of any process but the resumption of the interrupted job. */
  ghost predicate Drifts(s: State, t: State) {
    exists e :: !Resumes(e) && Step(s, e, t)
  }

  lemma StuckDrift(s: State, t: State, id: Id)
    requires Inv(s) && Stuck(s, id) && Drifts(s, t)
    ensures Inv(t) && NoProgress(s, t, id)
  {
    var e :| !Resumes(e) && Step(s, e, t);
    StepKeeps(s, e);
    StuckStep(s, e, id);
  }

  /** A journal recovery does not read is never resolved: whatever else any process does, the
      files stay as the interruption left them and the job stays without an outcome. */
  lemma {:induction false} StuckForever(states: seq<State>, id: Id, k: nat)
    requires k < |states| && forall i, j | 0 <= i && j == i + 1 < |states| :: Drifts(states[i], states[j])
    requires Inv(states[0]) && Stuck(states[0], id)
    ensures Inv(states[k]) && NoProgress(states[0], states[k], id)
  {
    if k > 0 {
      StuckForever(states, id, k - 1);
      assert Drifts(states[k - 1], states[k]);
      StuckDrift(states[k - 1], states[k], id);
    }
  }

  /** The committed job is as unresolved as it was, over the same files and journal. */
  ghost predicate StillUnviewable(s: State, t: State, id: Id) {
    && Unviewable(t, id) && t.disk.files == s.disk.files && t.disk.journals == s.disk.journals
    && t.role == s.role && t.log == s.log && id !in t.disk.status
  }

  lemma UnviewableStep(s: State, e: Event, id: Id)
    requires Inv(s) && Unviewable(s, id) && Enabled(s, e)
    ensures StillUnviewable(s, Effect(s, e), id)
  {
    UnviewableHasNoOutcome(s, id);
    assert JournalOk(s, id);
  }

  lemma UnviewableNext(s: State, t: State, id: Id)
    requires Inv(s) && Unviewable(s, id) && Next(s, t)
    ensures Inv(t) && StillUnviewable(s, t, id)
  {
    var e :| Step(s, e, t);
    StepKeeps(s, e);
    UnviewableStep(s, e, id);
  }

  /** A committed job over files `state` raises on never gets an outcome and blocks every other
      job for good: no step of any process changes files, journal or its missing status. */
  lemma {:induction false} UnviewableForever(states: seq<State>, id: Id, k: nat)
    requires k < |states| && forall i, j | 0 <= i && j == i + 1 < |states| :: Next(states[i], states[j])
    requires Inv(states[0]) && Unviewable(states[0], id)
    ensures Inv(states[k]) && (k > 0 ==> StillUnviewable(states[0], states[k], id))
  {
    if k > 0 {
      UnviewableForever(states, id, k - 1);
      assert Next(states[k - 1], states[k]);
      UnviewableNext(states[k - 1], states[k], id);
    }
  }
}
