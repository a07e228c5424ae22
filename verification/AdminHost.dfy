/** The two programs themselves, written over the protocol's events. Every durable write of
    the worker may fail before or after taking effect, or be the last thing a crashing
    worker does; between any two writes the web process may take any of its own steps, and
    the other way round. `Valid` says that all of it is a run of the protocol, so what is
    proved of runs holds of the programs. */
module AdminHost {
  import opened Prelude
  import opened Json
  import opened Schema
  import opened AdminConfig
  import opened AdminProtocol
  import opened AdminSafety

  /** How a call ends: normally, with an exception, with lock contention
      (`BlockingIOError`), or not at all because the process died. */
  datatype Outcome = Done | Raised | Blocked | Crashed

  /** Nothing was taken off the queue or altered in it. */
  ghost predicate Extends(a: map<Id, Job>, b: map<Id, Job>) {
    forall id | id in a :: id in b && b[id] == a[id]
  }

  /** The web process took some steps. */
  ghost predicate ByServer(s: State, t: State) {
    && t.disk == s.disk.(queue := t.disk.queue)
    && t.role == s.role && t.tools == s.tools && t.log == s.log && t.plan == s.plan
    && t.noops == s.noops && t.initial == s.initial
    && s.used <= t.used
    && Extends(s.disk.queue, t.disk.queue)
    && (forall id | id in t.disk.queue && id in s.used :: id in s.disk.queue)
    && (s.lock == WorkerHolds <==> t.lock == WorkerHolds)
    && (s.lock == WorkerHolds ==> t.disk.queue == s.disk.queue)
  }

  lemma ServerStepIsByServer(s: State, e: Event)
    requires Inv(s) && ServerEvent(e) && Enabled(s, e)
    ensures ByServer(s, Effect(s, e))
  {
  }

  /** The worker's guards survive whatever the web process does. */
  lemma GuardIsStable(s: State, t: State, e: Event)
    requires ByServer(s, t) && Inv(s) && Enabled(s, e) && !ServerEvent(e) && !e.Take?
    ensures Enabled(t, e)
  {
  }

  /** The event took effect, and the web process took some steps. */
  ghost predicate Wrote(s: State, e: Event, t: State) {
    Enabled(s, e) && ByServer(Effect(s, e), t)
  }

  /** Equal but for the queue and what the web process keeps under its lock. */
  ghost predicate Matches(t: State, s: State) {
    && s.disk == t.disk.(queue := s.disk.queue)
    && Extends(t.disk.queue, s.disk.queue)
    && s.role == t.role && s.tools == t.tools && s.log == t.log && s.plan == t.plan
    && (s.lock == WorkerHolds <==> t.lock == WorkerHolds)
  }

  /** Nothing but the status, journal and queue entry of `id` was changed by the worker, and
      the queue entry went only after the status was recorded. */
  ghost predicate Progress(s: State, t: State, id: Id) {
    && t.role == s.role && t.tools == s.tools
    && s.used <= t.used
    && (forall x | x in s.disk.queue ::
          (x in t.disk.queue && t.disk.queue[x] == s.disk.queue[x])
          || (x == id && id in t.disk.status))
    && (forall x | x in t.disk.queue && x in s.used :: x in s.disk.queue)
    && s.disk.status.Keys <= t.disk.status.Keys <= s.disk.status.Keys + {id}
    && t.disk.journals.Keys <= s.disk.journals.Keys + {id}
  }

  /** Writes made while processing the job `id`. */
  predicate Concerns(e: Event, id: Id) {
    match e
    case Refresh => true
    case Dequeue(i) => i == id
    case Prepare(i, _, _, _, _) => i == id
    case Forward(i, _) => i == id
    case Commit(i) => i == id
    case Backward(i, _) => i == id
    case RecordSuccess(i) => i == id
    case RecordRollback(i) => i == id
    case RemoveJournal(i) => i == id
    case RecordNoOp(i) => i == id
    case RecordRejection(i) => i == id
    case _ => false
  }

  /** Web process steps commute with the worker's writes. */
  lemma Commutes(s: State, m: State, e: Event)
    requires ByServer(s, m) && Enabled(s, e) && Enabled(m, e) && !ServerEvent(e) && !e.Take? && !e.Drop?
    ensures Wrote(s, e, Effect(m, e))
  {
  }

  lemma StillWrites(s: State, m: State, e: Event)
    requires ByServer(s, m) && Inv(s) && Enabled(s, e) && !ServerEvent(e) && !e.Take? && !e.Drop?
    ensures Enabled(m, e) && Wrote(s, e, Effect(m, e))
  {
    GuardIsStable(s, m, e);
    Commutes(s, m, e);
  }

  lemma StillWritesInRun(run: seq<State>, m: State, e: Event)
    requires IsRun(run) && ByServer(run[|run| - 1], m) && Enabled(run[|run| - 1], e)
    requires !ServerEvent(e) && !e.Take? && !e.Drop?
    ensures Enabled(m, e) && Wrote(run[|run| - 1], e, Effect(m, e))
  {
    RunKeeps(run, |run| - 1);
    StillWrites(run[|run| - 1], m, e);
  }

  lemma ServerStepInRun(run: seq<State>, e: Event)
    requires IsRun(run) && ServerEvent(e) && Enabled(run[|run| - 1], e)
    ensures ByServer(run[|run| - 1], Effect(run[|run| - 1], e))
  {
    RunKeeps(run, |run| - 1);
    ServerStepIsByServer(run[|run| - 1], e);
  }

  lemma ByServerTransitive(s: State, t: State, u: State)
    requires ByServer(s, t) && ByServer(t, u)
    ensures ByServer(s, u)
  {
  }

  lemma WroteIsProgress(s: State, e: Event, t: State, id: Id)
    requires Wrote(s, e, t) && Concerns(e, id)
    ensures Progress(s, t, id)
  {
  }

  lemma ByServerIsProgress(s: State, t: State, id: Id)
    requires ByServer(s, t)
    ensures Progress(s, t, id)
  {
  }

  lemma ProgressTransitive(s: State, t: State, u: State, id: Id)
    requires Progress(s, t, id) && Progress(t, u, id)
    ensures Progress(s, u, id)
  {
  }

  lemma ProgressReflexive(s: State, id: Id)
    ensures Progress(s, s, id)
  {
  }

  lemma ValidatedShape(role: Role, request: Value, origin: string -> Option<string>)
    requires Validate(role, request, origin).Some?
    ensures var v := Validate(role, request, origin).value;
            && v.Object?
            && (role == Api ==> Normalised(v.fields))
            && (role == Witness ==> Choices(v.fields))
  {
    if role == Api {
      ValidatedIsNormalised(request);
    }
  }

  /** What `state` reports after a request: all six fields of an API configuration; for the
      witness the provider and, unless it is disabled, its owners. */
  predicate InForce(role: Role, value: map<Field, Value>, files: Files)
    requires role == Witness ==> Choices(value)
  {
    if role == Api then NothingToDo(files, value)
    else WitnessState(files)
         == Some(WitnessView(value[Provider], if value[Provider] == Null then List([]) else value[AllowedOwners]))
  }

  lemma PlanInForce(role: Role, tools: Tools, files: Files, value: map<Field, Value>, signed: Option<Signed>,
                    mega: bool, plan: seq<Change<Document>>)
    requires Plannable(role, tools, files, value, signed, mega, plan) && Viewable(role, PutAll(files, plan))
    ensures InForce(role, value, PutAll(files, plan))
  {
    PutAllInstalls(files, plan);
    if role == Api {
      ApiChangesReport(files, value, signed, tools.length, PutAll(files, plan));
    } else {
      StorageChangesReport(files, value, mega, tools.origin, tools.length, PutAll(files, plan));
    }
  }

  /** What the surroundings give the worker for one job: its clock, the outcome of signing, and
      whether the MEGA adapter is installed. */
  datatype Call = Call(now: int, signed: Option<Signed>, mega: bool)

  /** The changes a validated request asks for. */
  function Wanted(s: State, value: map<Field, Value>, call: Call): Option<seq<Change<Document>>>
    requires if s.role == Api then Normalised(value) else Choices(value)
  {
    if s.role == Api then ApiChanges(s.disk.files, value, call.signed, s.tools.length)
    else StorageChanges(s.disk.files, value, call.mega, s.tools.origin, s.tools.length)
  }

  /** What is to become of a job: it is decided already, it is refused, what it asks for is in
      force, its plan is carried out, or its plan is carried out and `state` does not return
      for the files it leaves. */
  datatype Fate =
    | Decided
    | Refused
    | Redundant
    | Effective(plan: seq<Change<Document>>)
    | Stranded(plan: seq<Change<Document>>)

  function FateOfValue(s: State, value: map<Field, Value>, call: Call): Fate
    requires if s.role == Api then Normalised(value) else Choices(value)
  {
    var plan := Wanted(s, value, call);
    if !Viewable(s.role, s.disk.files) then Refused
    else if s.role == Api && NothingToDo(s.disk.files, value) then Redundant
    else if plan.None? || !Journable(s.disk.files, plan.value) then Refused
    else if Fits(s.role, plan.value) then Effective(plan.value)
    else Stranded(plan.value)
  }

  /** The queued request is of this version, identifier and role and at most an hour old. */
  ghost predicate Fresh(s: State, id: Id, call: Call) {
    id in s.disk.queue
    && var job := s.disk.queue[id];
       job.version == 1 && job.id == id && job.role == s.role && 0 <= call.now - job.createdAt <= 3600
  }

  /** The validated configuration of a queued request. */
  function Asked(s: State, id: Id): (value: Option<map<Field, Value>>)
    requires id in s.disk.queue
    ensures value.Some? ==> if s.role == Api then Normalised(value.value) else Choices(value.value)
  {
    var valid :- Validate(s.role, s.disk.queue[id].configuration, s.tools.origin);
    ValidatedShape(s.role, s.disk.queue[id].configuration, s.tools.origin);
    Some(valid.fields)
  }

  ghost function FateOf(s: State, id: Id, call: Call): Fate {
    if id in s.disk.status then Decided
    else if !Fresh(s, id, call) then Refused
    else
      match Asked(s, id)
      case None => Refused
      case Some(value) => FateOfValue(s, value, call)
  }

  /** Files, journals, statuses and history are the same. */
  ghost predicate Untouched(a: State, b: State) {
    && b.disk.files == a.disk.files && b.disk.journals == a.disk.journals && b.disk.status == a.disk.status
    && b.log == a.log
  }

  /** The plan is committed and in the files. */
  ghost predicate CarriedOut(a: State, b: State, id: Id, plan: seq<Change<Document>>) {
    b.disk.files == PutAll(a.disk.files, plan) && b.log == a.log + [Entry(id, plan)]
  }

  /** What the guarded job body does where nothing fails. */
  ghost predicate Tried(a: State, b: State, id: Id, fate: Fate, o: Outcome) {
    match fate
    case Decided => o == Done && Untouched(a, b)
    case Refused => o == Raised && Untouched(a, b)
    case Redundant =>
      o == Done && b.disk.files == a.disk.files && b.log == a.log && b.disk.status == a.disk.status[id := Succeeded]
    case Effective(plan) =>
      o == Done && CarriedOut(a, b, id, plan) && b.disk.status == a.disk.status[id := Succeeded]
    case Stranded(plan) =>
      o == Raised && CarriedOut(a, b, id, plan) && b.disk.status == a.disk.status && InPhase(b, id, Committed)
  }

  /** What the whole iteration does where nothing fails. */
  ghost predicate Processed(a: State, b: State, id: Id, fate: Fate, o: Outcome) {
    match fate
    case Decided => o == Done && Untouched(a, b)
    case Refused =>
      o == Done && b.disk.files == a.disk.files && b.log == a.log && b.disk.status == a.disk.status[id := Failed]
    case Redundant =>
      o == Done && b.disk.files == a.disk.files && b.log == a.log && b.disk.status == a.disk.status[id := Succeeded]
    case Effective(plan) =>
      o == Done && CarriedOut(a, b, id, plan) && b.disk.status == a.disk.status[id := Succeeded]
    case Stranded(plan) =>
      o == Raised && CarriedOut(a, b, id, plan) && b.disk.status == a.disk.status && InPhase(b, id, Committed)
  }

  /** A job's fate depends on files, statuses and its own request. */
  lemma UntouchedFate(a: State, m: State, id: Id, call: Call)
    requires Untouched(a, m) && m.role == a.role && m.tools == a.tools
    requires id in a.disk.status || (id in a.disk.queue && id in m.disk.queue && m.disk.queue[id] == a.disk.queue[id])
    ensures FateOf(m, id, call) == FateOf(a, id, call)
  {
  }

  /** The web process does not change a job's fate. */
  lemma SameFate(a: State, b: State, id: Id, call: Call)
    requires Matches(a, b) && (id in a.disk.queue || id in a.disk.status)
    ensures FateOf(b, id, call) == FateOf(a, id, call)
  {
    UntouchedFate(a, b, id, call);
  }

  lemma StillProcessed(a: State, m: State, b: State, id: Id, fate: Fate, o: Outcome)
    requires Processed(a, m, id, fate, o) && b.disk == m.disk.(queue := b.disk.queue) && b.log == m.log
    ensures Processed(a, b, id, fate, o)
  {
  }

  /** A fresh request of this host that is valid and has nothing or something feasible to do is
      recorded as succeeded, and what it asks for is what `state` reports. */
  lemma FreshRequestSucceeds(a: State, b: State, id: Id, call: Call, o: Outcome)
    requires Processed(a, b, id, FateOf(a, id, call), o)
    requires id in a.disk.queue && id !in a.disk.status && Viewable(a.role, a.disk.files)
    requires a.disk.queue[id].version == 1 && a.disk.queue[id].id == id && a.disk.queue[id].role == a.role
    requires a.disk.queue[id].createdAt <= call.now <= a.disk.queue[id].createdAt + 3600
    requires Asked(a, id).Some?
    requires var value := Asked(a, id).value;
             || (a.role == Api && NothingToDo(a.disk.files, value))
             || (Wanted(a, value, call).Some? && Journable(a.disk.files, Wanted(a, value, call).value)
                 && Fits(a.role, Wanted(a, value, call).value))
    ensures o == Done && id in b.disk.status && b.disk.status[id] == Succeeded
    ensures InForce(a.role, Asked(a, id).value, b.disk.files)
  {
    var value := Asked(a, id).value;
    if FateOfValue(a, value, call).Effective? {
      WantedInForce(a, value, call);
    }
  }

  lemma WantedInForce(a: State, value: map<Field, Value>, call: Call)
    requires if a.role == Api then Normalised(value) else Choices(value)
    requires Wanted(a, value, call).Some? && Fits(a.role, Wanted(a, value, call).value)
    ensures InForce(a.role, value, PutAll(a.disk.files, Wanted(a, value, call).value))
  {
    var plan := Wanted(a, value, call).value;
    if a.role == Api {
      ApiChangesCover(a.disk.files, value, call.signed, a.tools.length);
    } else {
      StorageChangesCover(a.disk.files, value, call.mega, a.tools.origin, a.tools.length);
    }
    PlanViewable(a.role, a.tools, a.disk.files, value, call.signed, call.mega, plan);
    PlanInForce(a.role, a.tools, a.disk.files, value, call.signed, call.mega, plan);
  }

  /** A request that is too old or from the future, of another version, identifier or role, or
      not valid is recorded as failed, and no file changes. */
  lemma OtherRequestsFail(a: State, b: State, id: Id, call: Call, o: Outcome)
    requires Processed(a, b, id, FateOf(a, id, call), o)
    requires id in a.disk.queue && id !in a.disk.status
    requires || a.disk.queue[id].version != 1 || a.disk.queue[id].id != id || a.disk.queue[id].role != a.role
             || call.now < a.disk.queue[id].createdAt || call.now > a.disk.queue[id].createdAt + 3600
             || Validate(a.role, a.disk.queue[id].configuration, a.tools.origin).None?
    ensures o == Done && b.disk.files == a.disk.files && b.log == a.log
    ensures b.disk.status == a.disk.status[id := Failed]
  {
  }

  /** What the loop over the listed jobs does where nothing fails; at most one of them is
      undecided when it begins. */
  ghost predicate Ran(a: State, b: State, jobs: set<Id>, calls: Id -> Call, o: Outcome) {
    && (forall id | id in jobs && id !in a.disk.status :: Processed(a, b, id, FateOf(a, id, calls(id)), o))
    && ((forall id | id in jobs :: id in a.disk.status) ==> o == Done && Untouched(a, b))
  }

  /** Exactly the statuses that are not aged are kept. */
  ghost predicate Pruned(a: State, b: State, aged: Id -> bool) {
    && b.disk.files == a.disk.files && b.log == a.log
    && (forall id | id in b.disk.status :: id in a.disk.status && b.disk.status[id] == a.disk.status[id])
    && (forall id | id in a.disk.status :: id in b.disk.status <==> !aged(id))
  }

  /** From the listing on, where nothing fails: too many jobs stop the run, and otherwise the
      listed jobs are processed and, unless one of them is stranded, the statuses pruned. */
  ghost predicate Worked(listed: State, ended: State, s: State, calls: Id -> Call, aged: Id -> bool, o: Outcome) {
    if |listed.disk.queue.Keys| > 1024 then o == Raised && s == listed
    else
      && Ran(listed, ended, listed.disk.queue.Keys, calls, o)
      && if o == Done then Pruned(ended, s, aged) else s == ended
  }

  /** Every queued job is still queued as it was, or has a status. */
  ghost predicate Retained(a: State, b: State) {
    forall id | id in a.disk.queue ::
      (id in b.disk.queue && b.disk.queue[id] == a.disk.queue[id]) || id in b.disk.status
  }

  /** The disk is `d` but for the queue. */
  ghost predicate Remains(a: State, b: State, d: Disk) {
    && b.disk == d.(queue := b.disk.queue) && b.log == a.log && b.role == a.role && b.tools == a.tools
    && Retained(a, b)
    && a.used <= b.used && forall x | x in b.disk.queue && x in a.used :: x in a.disk.queue
  }

  /** The disk is `d` with the state published, but for the queue. */
  ghost predicate Listed(a: State, b: State, d: Disk) {
    Remains(a, b, d.(published := Some(d.files)))
  }

  /** The disk once its journal, if there is one, is resolved. */
  ghost function AfterRecovery(d: Disk): Disk {
    if d.journals == map[] then d else
    var id :| id in d.journals;
    Recovered(d, id)
  }

  lemma OnlyRecovery(d: Disk, id: Id)
    requires d.journals.Keys == {id}
    ensures AfterRecovery(d) == Recovered(d, id)
  {
    assert id in d.journals;
    assert forall i :: i in d.journals ==> i == id;
  }

  /** The published state, then the listed queue. */
  lemma ListedOnDisk(a: State, m: State, b: State, id: Id)
    requires Matches(a.(disk := a.disk.(published := Some(a.disk.files))), m) && Progress(a, m, id)
    requires Matches(m, b) && Progress(m, b, id)
    ensures Listed(a, b, a.disk)
  {
  }

  /** A state in which the queue is listed: at most one job is undecided. */
  ghost predicate IsListing(s: State) {
    && s.disk.queue.Keys <= s.used && s.disk.status.Keys <= s.used
    && forall i, j | i in s.disk.queue && j in s.disk.queue && i !in s.disk.status && j !in s.disk.status :: i == j
  }

  lemma ListingOfRun(run: seq<State>)
    requires IsRun(run)
    ensures IsListing(run[|run| - 1])
  {
    RunKeeps(run, |run| - 1);
  }

  /** Where no identifier has been used since, nothing has been queued since. */
  lemma NothingNew(a: State, listed: State, d: Disk)
    requires Listed(a, listed, d) && IsListing(listed) && listed.used == a.used
    ensures listed.disk.queue.Keys <= a.disk.queue.Keys
  {
  }

  /** The listing after a recovery. */
  lemma ListedAfter(a: State, m: State, listed: State, d: Disk)
    requires Remains(a, m, d) && Listed(m, listed, m.disk)
    ensures Listed(a, listed, d)
  {
  }

  /** The jobs in `left` are still to be processed. */
  ghost predicate Underway(a: State, s: State, left: set<Id>) {
    && s.role == a.role && s.tools == a.tools && a.used <= s.used && s.disk.status.Keys <= a.used
    && left <= a.disk.queue.Keys
    && (forall x | x in s.disk.queue && x in a.used :: x in left)
    && (forall x | x in left :: (x in s.disk.queue && s.disk.queue[x] == a.disk.queue[x]) || x in s.disk.status)
    && a.disk.status.Keys <= s.disk.status.Keys
    && (forall x | x in left && x in s.disk.status :: x in a.disk.status)
  }

  lemma UnderwayAt(a: State, s: State, left: set<Id>, id: Id)
    requires Underway(a, s, left) && id in left
    ensures id in s.disk.queue || id in s.disk.status
  {
  }

  lemma UnderwayStep(a: State, m: State, s: State, left: set<Id>, id: Id)
    requires IsListing(a) && Underway(a, m, left) && id in left
    requires Progress(m, s, id) && id in s.disk.status && id !in s.disk.queue
    ensures Underway(a, s, left - {id})
  {
  }

  /** One more job. */
  lemma RanMore(a: State, m: State, b: State, done: set<Id>, left: set<Id>, id: Id, calls: Id -> Call, o: Outcome)
    requires IsListing(a) && Underway(a, m, left) && id in left && id !in done && done <= a.disk.queue.Keys
    requires Ran(a, m, done, calls, Done) && Processed(m, b, id, FateOf(m, id, calls(id)), o)
    ensures Ran(a, b, done + {id}, calls, o)
  {
    if id in a.disk.status {
      assert FateOf(m, id, calls(id)) == Decided;
      forall x | x in done + {id} && x !in a.disk.status ensures Processed(a, b, x, FateOf(a, x, calls(x)), o) {
        assert Processed(a, m, x, FateOf(a, x, calls(x)), Done);
      }
    } else {
      assert forall x | x in done :: x in a.disk.status;
      UntouchedFate(a, m, id, calls(id));
    }
  }

  /** A run that stops has processed the undecided job. */
  lemma RanStops(a: State, b: State, done: set<Id>, jobs: set<Id>, calls: Id -> Call, o: Outcome)
    requires IsListing(a) && done <= jobs == a.disk.queue.Keys && o != Done && Ran(a, b, done, calls, o)
    ensures Ran(a, b, jobs, calls, o)
  {
    var id :| id in done && id !in a.disk.status;
    assert forall x | x in jobs && x !in a.disk.status :: x == id;
  }

  lemma RanStep(a: State, m: State, b: State, jobs: set<Id>, left: set<Id>, id: Id, calls: Id -> Call, o: Outcome)
    requires IsListing(a) && Underway(a, m, left) && id in left && left <= jobs == a.disk.queue.Keys
    requires Ran(a, m, jobs - left, calls, Done) && Processed(m, b, id, FateOf(m, id, calls(id)), o)
    ensures Ran(a, b, if o == Done then jobs - (left - {id}) else jobs, calls, o)
  {
    RanMore(a, m, b, jobs - left, left, id, calls, o);
    if o == Done {
      assert jobs - left + {id} == jobs - (left - {id});
    } else {
      RanStops(a, b, jobs - left + {id}, jobs, calls, o);
    }
  }

  /** Whether `state` returns for the files a plan leaves shows in the plan. */
  lemma PlanViewable(role: Role, tools: Tools, files: Files, value: map<Field, Value>, signed: Option<Signed>,
                     mega: bool, plan: seq<Change<Document>>)
    requires Plannable(role, tools, files, value, signed, mega, plan)
    ensures Viewable(role, PutAll(files, plan)) <==> Fits(role, plan)
  {
    PutAllInstalls(files, plan);
    if role == Api {
      ApiChangesReport(files, value, signed, tools.length, PutAll(files, plan));
    } else {
      StorageChangesReport(files, value, mega, tools.origin, tools.length, PutAll(files, plan));
    }
  }

  /** Some journal is not one recovery can resolve. */
  ghost predicate Jammed(s: State) {
    exists id | id in s.disk.journals :: !Resolvable(s, id)
  }

  /** The worker took some steps while the web process held the lock. */
  ghost predicate ByWorker(s: State, t: State) {
    && t.role == s.role && t.lock == s.lock && t.seen == s.seen && t.used == s.used && t.disk.queue == s.disk.queue
    && forall id | id in s.disk.queue && id in s.disk.status :: id in t.disk.status
  }

  lemma WorkerStepIsByWorker(s: State, e: Event)
    requires s.lock == ServerHolds && !ServerEvent(e) && Enabled(s, e)
    ensures ByWorker(s, Effect(s, e))
  {
  }

  class Host {
    const reliable: bool  // no write fails and the worker does not die
    const alone: bool  // the other process takes no step
    var s: State
    ghost var run: seq<State>

    ghost predicate Valid()
      reads this
    {
      IsRun(run) && run[|run| - 1] == s
    }

    /** The worker may run. */
    ghost predicate Running()
      reads this
    {
      Valid() && (alone ==> s.lock != ServerHolds)
    }

    constructor (role: Role, tools: Tools, files: Files, reliable: bool, alone: bool)
      ensures Running() && s.disk.files == files && s.role == role
    {
      this.reliable, this.alone := reliable, alone;
      s := State(role, tools, Disk(files, None, map[], map[], map[]), Free, {}, files, [], [], {}, {});
      run := [State(role, tools, Disk(files, None, map[], map[], map[]), Free, {}, files, [], [], {}, {})];
    }

    lemma Reachable()
      requires Valid()
      ensures Inv(s)
    {
      RunKeeps(run, |run| - 1);
    }

    lemma OnlyJournal(id: Id)
      requires Valid() && id in s.disk.journals
      ensures s.disk.journals.Keys == {id}
    {
      Reachable();
      assert JournalOk(s, id);
    }

    /** The files before a prepared job are ones `state` returned for. */
    lemma RolledBackIsViewable(id: Id)
      requires Valid() && InPhase(s, id, Prepared) && Installed(s.disk.files, s.disk.journals[id].previous)
      ensures Viewable(s.role, s.disk.files)
    {
      Reachable();
      assert JournalOk(s, id);
      RollbackRestores(s, id);
    }

    lemma PublishedIsViewable()
      requires Valid() && s.disk.published == Some(s.disk.files)
      ensures Viewable(s.role, s.disk.files)
    {
      Reachable();
    }

    lemma PlanIsDistinct(id: Id)
      requires Valid() && InPhase(s, id, Prepared)
      ensures forall i, j | 0 <= i < j < |s.plan| :: s.plan[i].path != s.plan[j].path
    {
      Reachable();
      assert JournalOk(s, id);
    }

    lemma RecordsAreDistinct(id: Id)
      requires Valid() && InPhase(s, id, Prepared)
      ensures var previous := s.disk.journals[id].previous;
              forall i, j | 0 <= i < j < |previous| :: previous[i].path != previous[j].path
    {
      Reachable();
      assert JournalOk(s, id);
    }

    method Perform(e: Event)
      requires Valid() && Enabled(s, e)
      modifies this
      ensures Valid() && s == Effect(old(s), e)
    {
      ghost var before := s;
      s := Effect(s, e);
      assert Step(before, e, s);
      assert Next(before, s);
      run := run + [s];
    }

    /** Any steps of the web process. */
    method ServerActs()
      requires Valid()
      modifies this
      ensures Valid() && ByServer(old(s), s) && (alone ==> s == old(s))
    {
      var n: int := *;
      if alone {
        n := 0;
      }
      while n > 0
        invariant Valid() && ByServer(old(s), s) && (alone ==> s == old(s) && n == 0)
      {
        var e: Event := *;
        if ServerEvent(e) && Enabled(s, e) {
          ServerStepInRun(run, e);
          ByServerTransitive(old(s), s, Effect(s, e));
          Perform(e);
        }
        n := n - 1;
      }
    }

    // ----- The worker's primitives -----

    /** One durable write. It may fail before or after taking effect, and the worker may die
        with it; a dying worker's lock is released. */
    method Durable(e: Event) returns (o: Outcome)
      requires Running() && Enabled(s, e) && !ServerEvent(e) && !e.Take? && !e.Drop?
      modifies this
      ensures Running() && o != Blocked
      ensures reliable ==> o == Done
      ensures alone ==> s.used == old(s.used)
      ensures o == Done ==> Wrote(old(s), e, s)
      ensures o == Raised ==> ByServer(old(s), s) || Wrote(old(s), e, s)
      ensures o == Crashed ==> s.lock != WorkerHolds
    {
      ghost var before := run;
      ServerActs();
      StillWritesInRun(before, s, e);
      ghost var wrote;
      o, wrote := Strike(e);
    }

    /** The write itself: it takes effect or not, and ends in one of three ways. */
    method Strike(e: Event) returns (o: Outcome, ghost wrote: bool)
      requires Running() && Enabled(s, e) && !ServerEvent(e) && !e.Take? && !e.Drop?
      modifies this
      ensures Running() && o != Blocked && s.used == old(s.used)
      ensures o == Done ==> wrote
      ensures reliable ==> o == Done
      ensures o != Crashed ==> s == if wrote then Effect(old(s), e) else old(s)
      ensures o == Crashed ==> s.lock != WorkerHolds
    {
      var effective: bool, fate: int := *, *;
      if reliable {
        effective, fate := true, 0;
      }
      wrote := effective;
      if effective {
        Perform(e);
      }
      if fate == 0 && effective {
        o := Done;
      } else if fate == 1 {
        o := Crashed;
        if s.lock == WorkerHolds {
          Perform(Drop);
        }
      } else {
        o := Raised;
      }
    }

    /** A durable write on behalf of job `id`, whose processing began at `from`. */
    method Write(e: Event, ghost from: State, ghost id: Id) returns (o: Outcome)
      requires Running() && Enabled(s, e) && Concerns(e, id) && Progress(from, s, id)
      modifies this
      ensures Running() && o != Blocked && (reliable ==> o == Done)
      ensures alone ==> s.used == old(s.used)
      ensures o == Done ==> Matches(Effect(old(s), e), s) && (e.Dequeue? ==> id !in s.disk.queue)
      ensures o == Raised ==> Matches(old(s), s) || Matches(Effect(old(s), e), s)
      ensures o == Crashed ==> s.lock != WorkerHolds
      ensures o != Crashed ==> Progress(from, s, id)
    {
      o := Durable(e);
      if o != Crashed {
        if Wrote(old(s), e, s) {
          WroteIsProgress(old(s), e, s, id);
        } else {
          ByServerIsProgress(old(s), s, id);
        }
        ProgressTransitive(from, old(s), s, id);
      }
    }

    /** A restart, or anything else that may fail without touching the disk. */
    method Attempt(ghost from: State, ghost id: Id) returns (o: Outcome)
      requires Running() && Progress(from, s, id)
      modifies this
      ensures Running() && o != Blocked && (reliable ==> o == Done) && Matches(old(s), s) && Progress(from, s, id)
      ensures alone ==> s.used == old(s.used)
    {
      ServerActs();
      ByServerIsProgress(old(s), s, id);
      ProgressTransitive(from, old(s), s, id);
      var fate: int := *;
      o := if reliable || fate == 0 then Done else if fate == 1 then Crashed else Raised;
    }

    /** `queue_lock`: does not wait. */
    method Acquire(ghost from: State, ghost id: Id) returns (o: Outcome)
      requires Running() && s.lock != WorkerHolds && Progress(from, s, id)
      modifies this
      ensures Running() && (o == Done <==> s.lock == WorkerHolds)
      ensures Matches(old(s), if o == Done then s.(lock := Free) else s)
      ensures Progress(from, s, id)
      ensures reliable ==> o == Done || o == Blocked
      ensures reliable && alone ==> o == Done
      ensures alone ==> s.used == old(s.used)
    {
      o := Attempt(from, id);
      if o == Done {
        if s.lock == Free {
          Perform(Take);
        } else {
          o := Blocked;
        }
      }
    }

    method Release(ghost from: State, ghost id: Id)
      requires Running() && s.lock == WorkerHolds && Progress(from, s, id)
      modifies this
      ensures Running() && s == old(s).(lock := Free) && Progress(from, s, id)
    {
      Perform(Drop);
    }

    // ----- recover -----

    /** Restores the files of a prepared transaction, or completes a committed one. Only a
        normal return has removed the journal with everything done. */
    method Recover(id: Id, ghost from: State) returns (o: Outcome, committed: bool)
      requires Running() && s.lock != WorkerHolds && Progress(from, s, id)
      modifies this
      ensures Running() && s.lock != WorkerHolds && o != Blocked
      ensures o != Crashed ==> Progress(from, s, id)
      ensures alone ==> s.used == old(s.used)
      ensures id !in old(s.disk.journals) || !Resolvable(old(s), id) ==> o == Raised && s == old(s)
      ensures reliable && id in old(s.disk.journals) && Resolvable(old(s), id) ==> o == Done
      ensures o == Done ==>
                && id in old(s.disk.journals)
                && committed == (old(s.disk.journals)[id].phase == Committed)
                && s.disk == Recovered(old(s.disk), id).(queue := s.disk.queue)
                && s.log == old(s.log)
    {
      committed := false;
      if id !in s.disk.journals || !Readable(s.disk.journals[id]) {
        o := Raised;
        return;
      }
      committed := s.disk.journals[id].phase == Committed;
      if committed {
        o := Confirm(id, from);
      } else {
        o := RollBack(id, from);
      }
      if o == Done {
        o := Write(RemoveJournal(id), from, id);
      }
    }

    /** `refresh`: `state` must return before anything is written. */
    method RefreshState(ghost from: State, ghost id: Id) returns (o: Outcome)
      requires Running() && Progress(from, s, id)
      modifies this
      ensures Running() && o != Blocked
      ensures !Viewable(old(s.role), old(s.disk.files)) ==> o == Raised && s == old(s)
      ensures reliable && Viewable(old(s.role), old(s.disk.files)) ==> o == Done
      ensures o == Done ==> Matches(old(s).(disk := old(s.disk).(published := Some(old(s.disk.files)))), s)
      ensures o == Raised ==> s.disk == old(s.disk).(queue := s.disk.queue, published := s.disk.published)
      ensures o == Raised ==> s.log == old(s.log) && s.plan == old(s.plan)
                              && (s.lock == WorkerHolds <==> old(s.lock) == WorkerHolds)
      ensures o == Crashed ==> s.lock != WorkerHolds
      ensures o != Crashed ==> Progress(from, s, id)
      ensures alone ==> s.used == old(s.used)
    {
      if !Viewable(s.role, s.disk.files) {
        return Raised;
      }
      o := Write(Refresh, from, id);
    }

    /** The outcome of a committed transaction, recorded. */
    method Confirm(id: Id, ghost from: State) returns (o: Outcome)
      requires Running() && s.lock != WorkerHolds && Progress(from, s, id) && InPhase(s, id, Committed)
      modifies this
      ensures Running() && s.lock != WorkerHolds && o != Blocked
      ensures !Viewable(old(s.role), old(s.disk.files)) ==> o == Raised && s == old(s)
      ensures reliable && Viewable(old(s.role), old(s.disk.files)) ==> o == Done
      ensures o != Crashed ==> Progress(from, s, id)
      ensures alone ==> s.used == old(s.used)
      ensures o == Raised ==> s.disk.files == old(s.disk.files)
      ensures o == Done ==>
                && s.disk == old(s.disk).(published := Some(old(s.disk.files)), queue := s.disk.queue,
                                          status := old(s.disk.status)[id := Succeeded])
                && s.log == old(s.log)
    {
      o := RefreshState(from, id);
      if o == Done {
        o := Write(RecordSuccess(id), from, id);
      }
    }

    /** The files after a complete rollback, whatever was interrupted before it. */
    method RollBack(id: Id, ghost from: State) returns (o: Outcome)
      requires Running() && s.lock != WorkerHolds && Progress(from, s, id)
      requires InPhase(s, id, Prepared) && Readable(s.disk.journals[id])
      modifies this
      ensures Running() && s.lock != WorkerHolds && o != Blocked && (reliable ==> o == Done)
      ensures o != Crashed ==> Progress(from, s, id)
      ensures alone ==> s.used == old(s.used)
      ensures o == Done ==>
                var files := PutAll(old(s.disk.files), old(s.disk.journals)[id].previous);
                && s.disk == old(s.disk).(files := files, published := Some(files), queue := s.disk.queue,
                                          status := old(s.disk.status)[id := Failed])
                && s.log == old(s.log)
    {
      var previous := s.disk.journals[id].previous;
      o := Restore(id, from);
      if o == Done {
        o := Attempt(from, id);
      }
      if o == Done {
        RolledBackIsViewable(id);
        o := RefreshState(from, id);
      }
      if o == Done {
        o := Write(RecordRollback(id), from, id);
      }
    }

    method Restore(id: Id, ghost from: State) returns (o: Outcome)
      requires Running() && s.lock != WorkerHolds && Progress(from, s, id)
      requires InPhase(s, id, Prepared) && Readable(s.disk.journals[id])
      modifies this
      ensures Running() && s.lock != WorkerHolds && o != Blocked && (reliable ==> o == Done)
      ensures o != Crashed ==> Progress(from, s, id)
      ensures alone ==> s.used == old(s.used)
      ensures o == Done ==>
                && s.disk == old(s.disk).(queue := s.disk.queue,
                                          files := PutAll(old(s.disk.files), old(s.disk.journals)[id].previous))
                && Installed(s.disk.files, old(s.disk.journals)[id].previous)
                && s.log == old(s.log)
    {
      var previous := s.disk.journals[id].previous;
      var k := 0;
      o := Done;
      while k < |previous|
        invariant 0 <= k <= |previous| && o == Done
        invariant Running() && s.lock != WorkerHolds && Progress(from, s, id) && s.log == old(s.log)
        invariant alone ==> s.used == old(s.used)
        invariant s.disk == old(s.disk).(files := PutAll(old(s.disk.files), previous[..k]), queue := s.disk.queue)
      {
        o := Write(Backward(id, k), from, id);
        if o != Done {
          return;
        }
        PutAllStep(old(s.disk.files), previous, k);
        k := k + 1;
      }
      assert previous[..k] == previous;
      RecordsAreDistinct(id);
      PutAllInstalls(old(s.disk.files), previous);
    }

    // ----- apply -----

    /** The part of `apply` that runs under its exception handler. */
    method Install(id: Id, ghost from: State) returns (o: Outcome)
      requires Running() && s.lock != WorkerHolds && Progress(from, s, id)
      requires InPhase(s, id, Prepared) && id !in s.disk.status
      modifies this
      ensures Running() && s.lock != WorkerHolds && o != Blocked
      ensures o != Crashed ==> Progress(from, s, id)
      ensures o == Raised && InPhase(s, id, Committed) ==> s.disk.files == PutAll(old(s.disk.files), old(s.plan))
      ensures o == Done ==> s.disk.published == Some(s.disk.files)
      ensures o == Done ==>
                && s.disk.files == PutAll(old(s.disk.files), old(s.plan))
                && s.log == old(s.log) + [Entry(id, old(s.plan))]
                && s.disk.journals == old(s.disk.journals) - {id}
                && s.disk.status == old(s.disk.status)[id := Succeeded]
      ensures reliable && Viewable(old(s.role), PutAll(old(s.disk.files), old(s.plan))) ==> o == Done
      ensures reliable && !Viewable(old(s.role), PutAll(old(s.disk.files), old(s.plan))) ==>
                Tried(old(s), s, id, Stranded(old(s.plan)), o)
    {
      o := ReplaceFiles(id, from);
      if o == Done {
        o := Attempt(from, id);
      }
      if o == Done {
        o := CommitAndClose(id, from);
      }
    }

    method CommitAndClose(id: Id, ghost from: State) returns (o: Outcome)
      requires Running() && s.lock != WorkerHolds && Progress(from, s, id)
      requires InPhase(s, id, Prepared) && id !in s.disk.status && Installed(s.disk.files, s.plan)
      modifies this
      ensures Running() && s.lock != WorkerHolds && o != Blocked
      ensures o != Crashed ==> Progress(from, s, id)
      ensures o == Raised ==> s.disk.files == old(s.disk.files)
      ensures o == Done ==> s.disk.published == Some(s.disk.files)
      ensures o == Done ==>
                && s.disk.files == old(s.disk.files)
                && s.log == old(s.log) + [Entry(id, old(s.plan))]
                && s.disk.journals == old(s.disk.journals) - {id}
                && s.disk.status == old(s.disk.status)[id := Succeeded]
      ensures reliable && Viewable(old(s.role), old(s.disk.files)) ==> o == Done
      ensures reliable && !Viewable(old(s.role), old(s.disk.files)) ==>
                && o == Raised && InPhase(s, id, Committed) && s.disk.status == old(s.disk.status)
                && s.log == old(s.log) + [Entry(id, old(s.plan))]
    {
      o := MarkCommitted(id, from);
      if o == Done {
        o := Close(id, from);
      }
    }

    method MarkCommitted(id: Id, ghost from: State) returns (o: Outcome)
      requires Running() && s.lock != WorkerHolds && Progress(from, s, id)
      requires InPhase(s, id, Prepared) && id !in s.disk.status && Installed(s.disk.files, s.plan)
      modifies this
      ensures Running() && s.lock != WorkerHolds && o != Blocked && (reliable ==> o == Done)
      ensures o != Crashed ==> Progress(from, s, id) && s.disk.files == old(s.disk.files)
      ensures o == Done ==>
                && InPhase(s, id, Committed) && s.disk.journals.Keys == old(s.disk.journals.Keys)
                && s.log == old(s.log) + [Entry(id, old(s.plan))] && s.disk.status == old(s.disk.status)
                && s.disk.journals - {id} == old(s.disk.journals) - {id}
    {
      o := Write(Commit(id), from, id);
    }

    method Close(id: Id, ghost from: State) returns (o: Outcome)
      requires Running() && s.lock != WorkerHolds && Progress(from, s, id) && InPhase(s, id, Committed)
      modifies this
      ensures Running() && s.lock != WorkerHolds && o != Blocked
      ensures !Viewable(old(s.role), old(s.disk.files)) ==> o == Raised && s == old(s)
      ensures reliable && Viewable(old(s.role), old(s.disk.files)) ==> o == Done
      ensures o != Crashed ==> Progress(from, s, id)
      ensures o == Raised ==> s.disk.files == old(s.disk.files)
      ensures o == Done ==> s.disk.published == Some(s.disk.files)
      ensures o == Done ==>
                && s.disk == Recovered(old(s.disk), id).(queue := s.disk.queue)
                && s.log == old(s.log)
    {
      o := Confirm(id, from);
      if o == Done {
        o := Write(RemoveJournal(id), from, id);
      }
    }

    method ReplaceFiles(id: Id, ghost from: State) returns (o: Outcome)
      requires Running() && s.lock != WorkerHolds && Progress(from, s, id)
      requires InPhase(s, id, Prepared) && id !in s.disk.status
      modifies this
      ensures Running() && s.lock != WorkerHolds && o != Blocked && (reliable ==> o == Done)
      ensures o != Crashed ==> Progress(from, s, id)
      ensures o == Raised ==> InPhase(s, id, Prepared)
      ensures o == Done ==>
                && s.disk == old(s.disk).(queue := s.disk.queue, files := PutAll(old(s.disk.files), s.plan))
                && Installed(s.disk.files, s.plan)
                && s.log == old(s.log) && s.plan == old(s.plan)
    {
      var plan := s.plan;
      var k := 0;
      o := Done;
      while k < |plan|
        invariant 0 <= k <= |plan| && o == Done
        invariant Running() && s.lock != WorkerHolds && Progress(from, s, id)
        invariant s.log == old(s.log) && s.plan == plan
        invariant s.disk == old(s.disk).(files := PutAll(old(s.disk.files), plan[..k]), queue := s.disk.queue)
      {
        o := Write(Forward(id, k), from, id);
        if o != Done {
          return;
        }
        PutAllStep(old(s.disk.files), plan, k);
        k := k + 1;
      }
      assert plan[..k] == plan;
      PlanIsDistinct(id);
      PutAllInstalls(old(s.disk.files), plan);
    }

    /** The changes a validated request asks for. */
    method Changes(value: map<Field, Value>, call: Call) returns (plan: Option<seq<Change<Document>>>)
      requires if s.role == Api then Normalised(value) else Choices(value)
      ensures plan == Wanted(s, value, call)
      ensures plan.Some? ==> Plannable(s.role, s.tools, s.disk.files, value, call.signed, call.mega, plan.value)
    {
      if s.role == Api {
        plan := ApiChanges(s.disk.files, value, call.signed, s.tools.length);
        ApiChangesCover(s.disk.files, value, call.signed, s.tools.length);
      } else {
        plan := StorageChanges(s.disk.files, value, call.mega, s.tools.origin, s.tools.length);
        StorageChangesCover(s.disk.files, value, call.mega, s.tools.origin, s.tools.length);
      }
    }

    method ConfirmUnchanged(id: Id, ghost from: State) returns (o: Outcome)
      requires Running() && s.lock != WorkerHolds && Progress(from, s, id)
      requires s.disk.journals == map[] && id in s.disk.queue && id !in s.disk.status
      modifies this
      ensures Running() && s.lock != WorkerHolds && o != Blocked
      ensures reliable && Viewable(old(s.role), old(s.disk.files)) ==> o == Done
      ensures o != Crashed ==> Progress(from, s, id)
      ensures o == Done ==>
                && s.disk == old(s.disk).(published := Some(old(s.disk.files)), queue := s.disk.queue,
                                          status := old(s.disk.status)[id := Succeeded])
                && s.log == old(s.log)
    {
      o := RefreshState(from, id);
      if o == Done {
        o := Write(RecordNoOp(id), from, id);
      }
    }

    /** Applies one validated request. A normal return means the configuration is in force and
        recorded as succeeded; an exception leaves no journal but possibly its own. */
    method Apply(id: Id, value: map<Field, Value>, call: Call, ghost from: State) returns (o: Outcome)
      requires Running() && s.lock != WorkerHolds && Progress(from, s, id)
      requires s.disk.journals == map[] && from.disk.journals == map[] && id in s.disk.queue && id !in s.disk.status
      requires if s.role == Api then Normalised(value) else Choices(value)
      modifies this
      ensures Running() && s.lock != WorkerHolds && o != Blocked
      ensures o != Crashed ==> Progress(from, s, id)
      ensures o == Done ==> s.disk.journals == map[] && id in s.disk.status && s.disk.status[id] == Succeeded
      ensures o == Done ==> s.role == old(s.role) && InForce(s.role, value, s.disk.files)
      ensures o == Done && s.role == Api && NothingToDo(old(s.disk.files), value) ==>
                s.disk.files == old(s.disk.files) && s.log == old(s.log)
      ensures FateOfValue(old(s), value, call).Refused? ==> o == Raised && s == old(s)
      ensures reliable ==> Tried(old(s), s, id, FateOfValue(old(s), value, call), o)
    {
      if !Viewable(s.role, s.disk.files) {
        return Raised;
      }
      if s.role == Api && NothingToDo(s.disk.files, value) {
        o := ConfirmUnchanged(id, from);
        return;
      }
      var plan := Changes(value, call);
      if plan.None? || !Journable(s.disk.files, plan.value) {
        return Raised;
      }
      o := ApplyPlan(id, value, call.signed, call.mega, plan.value, from);
      if o == Done {
        PublishedIsViewable();
        PlanInForce(old(s.role), old(s.tools), old(s.disk.files), value, call.signed, call.mega, plan.value);
      }
    }

    /** Journals the plan and carries it out. */
    method ApplyPlan(id: Id, value: map<Field, Value>, signed: Option<Signed>, mega: bool, plan: seq<Change<Document>>,
                     ghost from: State)
      returns (o: Outcome)
      requires Running() && s.lock != WorkerHolds && Progress(from, s, id)
      requires s.disk.journals == map[] && from.disk.journals == map[] && id in s.disk.queue && id !in s.disk.status
      requires Viewable(s.role, s.disk.files) && Journable(s.disk.files, plan)
      requires Plannable(s.role, s.tools, s.disk.files, value, signed, mega, plan)
      modifies this
      ensures Running() && s.lock != WorkerHolds && o != Blocked
      ensures o != Crashed ==> Progress(from, s, id)
      ensures o == Done ==> s.disk.journals == map[] && id in s.disk.status && s.disk.status[id] == Succeeded
      ensures o == Done ==> s.disk.files == PutAll(old(s.disk.files), plan)
      ensures o == Done ==> s.role == old(s.role) && s.disk.published == Some(s.disk.files)
      ensures reliable ==>
                Tried(old(s), s, id, if Fits(old(s.role), plan) then Effective(plan) else Stranded(plan), o)
    {
      PlanViewable(s.role, s.tools, s.disk.files, value, signed, mega, plan);
      o := Write(Prepare(id, value, signed, mega, plan), from, id);
      if o == Done {
        o := InstallOrRecover(id, from);
      }
    }

    method InstallOrRecover(id: Id, ghost from: State) returns (o: Outcome)
      requires Running() && s.lock != WorkerHolds && Progress(from, s, id)
      requires InPhase(s, id, Prepared) && id !in s.disk.status && from.disk.journals == map[]
      modifies this
      ensures Running() && s.lock != WorkerHolds && o != Blocked
      ensures o != Crashed ==> Progress(from, s, id)
      ensures o == Done ==> s.disk.published == Some(s.disk.files)
      ensures o == Done ==> s.disk.journals == map[] && id in s.disk.status && s.disk.status[id] == Succeeded
      ensures o == Done ==> s.disk.files == PutAll(old(s.disk.files), old(s.plan))
      ensures reliable && Viewable(old(s.role), PutAll(old(s.disk.files), old(s.plan))) ==>
                Tried(old(s), s, id, Effective(old(s.plan)), o)
      ensures reliable && !Viewable(old(s.role), PutAll(old(s.disk.files), old(s.plan))) ==>
                Tried(old(s), s, id, Stranded(old(s.plan)), o)
    {
      o := Install(id, from);
      if o == Raised {
        var committed;
        o, committed := Recover(id, from);
        if o == Done && !committed {
          o := Raised;
        }
      }
    }

    // ----- run -----

    /** The body of the `try` statement for one job. A request that is not of this version,
        identifier and role, is older than an hour or in the future, is not valid, or has no
        changes to make is refused with nothing touched. */
    method TryJob(id: Id, call: Call, ghost from: State) returns (o: Outcome)
      requires Running() && s.lock != WorkerHolds && Progress(from, s, id)
      requires s.disk.journals == map[] && from.disk.journals == map[]
      requires id in s.disk.queue || id in s.disk.status
      modifies this
      ensures Running() && s.lock != WorkerHolds
      ensures o != Crashed ==> Progress(from, s, id)
      ensures o == Done ==> s.disk.journals == map[] && id in s.disk.status
      ensures FateOf(old(s), id, call).Refused? ==> o != Done && Untouched(old(s), s)
      ensures reliable && o != Blocked ==> Tried(old(s), s, id, FateOf(old(s), id, call), o)
      ensures reliable && alone ==> o != Blocked
    {
      o := Acquire(from, id);
      if o != Done {
        return;
      }
      if id in s.disk.status {
        o := Write(Dequeue(id), from, id);
        if o != Crashed {
          Release(from, id);
        }
        return;
      }
      var request := s.disk.queue[id];
      Release(from, id);
      SameFate(old(s), s, id, call);
      o := Decide(id, request, call, from);
    }

    /** The checks on a request and what follows them. */
    method Decide(id: Id, request: Job, call: Call, ghost from: State) returns (o: Outcome)
      requires Running() && s.lock != WorkerHolds && Progress(from, s, id)
      requires s.disk.journals == map[] && from.disk.journals == map[]
      requires id in s.disk.queue && s.disk.queue[id] == request && id !in s.disk.status
      modifies this
      ensures Running() && s.lock != WorkerHolds && o != Blocked
      ensures o != Crashed ==> Progress(from, s, id)
      ensures o == Done ==> s.disk.journals == map[] && id in s.disk.status
      ensures FateOf(old(s), id, call).Refused? ==> o != Done && Untouched(old(s), s)
      ensures reliable ==> Tried(old(s), s, id, FateOf(old(s), id, call), o)
    {
      if request.version != 1 || request.id != id || request.role != s.role || call.now < request.createdAt
         || call.now - request.createdAt > 3600 {
        return Raised;
      }
      var value := Validate(s.role, request.configuration, s.tools.origin);
      if value.None? {
        return Raised;
      }
      ValidatedShape(s.role, request.configuration, s.tools.origin);
      o := Apply(id, value.value.fields, call, from);
    }

    /** The `try` statement with its exception handlers. */
    method Guarded(id: Id, call: Call, ghost from: State) returns (o: Outcome)
      requires Running() && s.lock != WorkerHolds && s == from && s.disk.journals == map[]
      requires id in s.disk.queue || id in s.disk.status
      modifies this
      ensures Running() && s.lock != WorkerHolds
      ensures o != Crashed ==> Progress(from, s, id)
      ensures o == Done ==> s.disk.journals == map[] && id in s.disk.status
      ensures reliable && o != Blocked ==> Processed(old(s), s, id, FateOf(old(s), id, call), o)
      ensures reliable && alone ==> o != Blocked
    {
      o := TryJob(id, call, from);
      if o == Raised && id !in s.disk.journals {
        if id in s.disk.status {
          o := Done;
        } else {
          o := Write(RecordRejection(id), from, id);
        }
      }
    }

    /** One iteration over the listed jobs, with its exception handler and its `finally`. */
    method ProcessJob(id: Id, call: Call, ghost from: State) returns (o: Outcome)
      requires Running() && s.lock != WorkerHolds && s == from && s.disk.journals == map[]
      requires id in s.disk.queue || id in s.disk.status
      modifies this
      ensures Running() && s.lock != WorkerHolds
      ensures o != Crashed ==> Progress(from, s, id)
      ensures o == Done ==> s.disk.journals == map[] && id in s.disk.status && id !in s.disk.queue
      ensures reliable && o != Blocked ==> Processed(old(s), s, id, FateOf(old(s), id, call), o)
      ensures reliable && alone ==> o != Blocked
    {
      o := Guarded(id, call, from);
      if o == Crashed {
        return;
      }
      ghost var guarded := s;
      var finish := Finally(id, from);
      if reliable && o != Blocked && finish == Done {
        StillProcessed(old(s), guarded, s, id, FateOf(old(s), id, call), o);
      }
      if finish != Done {
        o := finish;
      }
    }

    method Finally(id: Id, ghost from: State) returns (o: Outcome)
      requires Running() && s.lock != WorkerHolds && Progress(from, s, id)
      modifies this
      ensures Running() && s.lock != WorkerHolds
      ensures o != Crashed ==> Progress(from, s, id)
      ensures o != Crashed ==> s.disk == old(s.disk).(queue := s.disk.queue) && s.log == old(s.log)
      ensures reliable ==> o == Done || o == Blocked
      ensures reliable && alone ==> o == Done
      ensures o == Done && id in s.disk.status ==> id !in s.disk.queue
    {
      o := Acquire(from, id);
      if o != Done {
        return;
      }
      if id in s.disk.status {
        o := Write(Dequeue(id), from, id);
      }
      if o != Crashed {
        Release(from, id);
      }
    }

    /** One worker run. A normal return means that no journal is left and that every job
        queued before it began has been decided and taken off the queue. Where no write fails,
        the run ends as `Worked` says, unless the web process holds the lock at some point. */
    method Run(calls: Id -> Call, aged: Id -> bool)
      returns (o: Outcome, ghost listed: State, ghost ended: State)
      requires Running() && s.lock != WorkerHolds
      modifies this
      ensures Running() && s.lock != WorkerHolds
      ensures o == Done ==> s.disk.journals == map[] && s.disk.queue.Keys !! old(s.used)
      ensures Jammed(old(s)) ==> o == Raised && s == old(s)
      ensures reliable && alone ==> o != Blocked
      ensures reliable && !Jammed(old(s)) && !Viewable(old(s.role), AfterRecovery(old(s.disk)).files) ==>
                o == Raised && s.disk == AfterRecovery(old(s.disk)).(queue := s.disk.queue) && s.log == old(s.log)
      ensures reliable && !Jammed(old(s)) && Viewable(old(s.role), AfterRecovery(old(s.disk)).files) && o != Blocked ==>
                && Listed(old(s), listed, AfterRecovery(old(s.disk)))
                && (alone ==> listed.disk.queue.Keys <= old(s.disk.queue.Keys))
                && Worked(listed, ended, s, calls, aged, o)
    {
      listed, ended := s, s;
      ghost var before := s;
      o := RecoverAll();
      if o == Done {
        ghost var resumed := s;
        o, listed, ended := ProcessQueue(calls, aged);
        if reliable && o != Blocked && Viewable(resumed.role, resumed.disk.files) {
          ListedAfter(before, resumed, listed, AfterRecovery(before.disk));
          if alone {
            NothingNew(before, listed, AfterRecovery(before.disk));
          }
        }
      }
    }

    /** Resolves the journals; one it does not read stops this and every later run. */
    method RecoverAll() returns (o: Outcome)
      requires Running() && s.lock != WorkerHolds
      modifies this
      ensures Running() && s.lock != WorkerHolds
      ensures o == Done ==> s.disk.journals == map[] && old(s.used) <= s.used
      ensures alone ==> s.used == old(s.used)
      ensures Jammed(old(s)) ==> o == Raised && s == old(s)
      ensures reliable && !Jammed(old(s)) ==> o == Done
      ensures o == Done ==> Remains(old(s), s, AfterRecovery(old(s.disk)))
    {
      o := Done;
      while s.disk.journals != map[]
        invariant Running() && s.lock != WorkerHolds && o == Done
        invariant old(s.used) <= s.used && (alone ==> s.used == old(s.used))
        invariant s == old(s) || (s.disk.journals == map[] && !Jammed(old(s)))
        invariant s.disk.journals == map[] ==> Remains(old(s), s, AfterRecovery(old(s.disk)))
        decreases s.disk.journals.Keys
      {
        var id :| id in s.disk.journals;
        var committed;
        ProgressReflexive(s, id);
        OnlyJournal(id);
        OnlyRecovery(s.disk, id);
        o, committed := Recover(id, s);
        if o != Done {
          return;
        }
      }
    }

    method ProcessQueue(calls: Id -> Call, aged: Id -> bool)
      returns (o: Outcome, ghost listed: State, ghost ended: State)
      requires Running() && s.lock != WorkerHolds && s.disk.journals == map[]
      modifies this
      ensures Running() && s.lock != WorkerHolds
      ensures o == Done ==> s.disk.journals == map[] && s.disk.queue.Keys !! old(s.used)
      ensures reliable && alone ==> o != Blocked
      ensures !Viewable(old(s.role), old(s.disk.files)) ==> o == Raised && s == old(s)
      ensures reliable && Viewable(old(s.role), old(s.disk.files)) && o != Blocked ==>
                && Listed(old(s), listed, old(s.disk)) && (alone ==> listed.used == old(s.used))
                && IsListing(listed) && Worked(listed, ended, s, calls, aged, o)
    {
      listed, ended := s, s;
      var jobs;
      o, jobs := ListQueue();
      if o != Done {
        return;
      }
      listed := s;
      if |jobs| > 1024 {
        return Raised, listed, s;
      }
      o := ProcessListed(jobs, calls);
      ended := s;
      if o == Done {
        o := PruneStatuses(aged, listed.used);
      }
    }

    /** Publishes the state and lists the queue under its lock. */
    method ListQueue() returns (o: Outcome, jobs: set<Id>)
      requires Running() && s.lock != WorkerHolds && s.disk.journals == map[]
      modifies this
      ensures Running() && s.lock != WorkerHolds
      ensures !Viewable(old(s.role), old(s.disk.files)) ==> o == Raised && s == old(s)
      ensures reliable && Viewable(old(s.role), old(s.disk.files)) ==> o == Done || (o == Blocked && !alone)
      ensures reliable ==> o != Crashed
      ensures alone ==> s.used == old(s.used)
      ensures o == Done ==> Listed(old(s), s, old(s.disk)) && IsListing(s) && jobs == s.disk.queue.Keys
    {
      jobs := {};
      ghost var before := s;
      ProgressReflexive(s, "");
      o := RefreshState(before, "");
      if o != Done {
        return;
      }
      ghost var published := s;
      ProgressReflexive(s, "");
      o := Acquire(published, "");
      if o != Done {
        return;
      }
      jobs := s.disk.queue.Keys;
      Release(published, "");
      ListedOnDisk(before, published, s, "");
      ListingOfRun(run);
    }

    /** The loop over the listed jobs. What is queued afterwards came later. */
    method ProcessListed(jobs: set<Id>, calls: Id -> Call) returns (o: Outcome)
      requires Running() && s.lock != WorkerHolds && s.disk.journals == map[]
      requires IsListing(s) && jobs == s.disk.queue.Keys
      modifies this
      ensures Running() && s.lock != WorkerHolds
      ensures reliable && alone ==> o != Blocked
      ensures reliable && o != Blocked ==> Ran(old(s), s, jobs, calls, o)
      ensures o == Done ==>
                && s.disk.journals == map[] && old(s.used) <= s.used && s.disk.status.Keys <= old(s.used)
                && s.disk.queue.Keys !! old(s.used)
    {
      var left := jobs;
      o := Done;
      while left != {}
        invariant Running() && s.lock != WorkerHolds && s.disk.journals == map[] && o == Done
        invariant left <= jobs && Underway(old(s), s, left)
        invariant reliable ==> Ran(old(s), s, jobs - left, calls, Done)
        decreases |left|
      {
        var id :| id in left;
        ghost var before := s;
        UnderwayAt(old(s), s, left, id);
        o := ProcessJob(id, calls(id), s);
        if reliable && o != Blocked {
          RanStep(old(s), before, s, jobs, left, id, calls, o);
        }
        if o != Done {
          return;
        }
        UnderwayStep(old(s), before, s, left, id);
        left := left - {id};
      }
      assert jobs - left == jobs;
    }

    /** Removes the recorded statuses that are older than a day, and no other. */
    method PruneStatuses(aged: Id -> bool, ghost known: set<Id>) returns (o: Outcome)
      requires Running() && s.lock != WorkerHolds && s.disk.journals == map[]
      requires known <= s.used && s.disk.status.Keys <= known && s.disk.queue.Keys !! known
      modifies this
      ensures Running() && s.lock != WorkerHolds && o != Blocked && (reliable ==> o == Done)
      ensures o == Done ==> s.disk.journals == map[] && s.disk.queue.Keys !! known
      ensures o == Done ==> Pruned(old(s), s, aged)
    {
      var left := s.disk.status.Keys;
      o := Done;
      while left != {}
        invariant Running() && s.lock != WorkerHolds && s.disk.journals == map[] && o == Done
        invariant left <= s.disk.status.Keys <= known <= s.used && s.disk.queue.Keys !! known
        invariant s.disk.files == old(s.disk.files) && s.log == old(s.log)
        invariant forall id | id in s.disk.status :: id in old(s.disk.status)
        invariant forall id | id in s.disk.status :: s.disk.status[id] == old(s.disk.status)[id]
        invariant forall id | id in old(s.disk.status) && id !in left :: id in s.disk.status <==> !aged(id)
        decreases |left|
      {
        var id :| id in left;
        if aged(id) {
          o := Durable(Prune(id));
          if o != Done {
            return;
          }
        }
        left := left - {id};
      }
    }

    // ----- enqueue -----

    /** Any steps of the worker. */
    method WorkerActs()
      requires Valid() && s.lock == ServerHolds
      modifies this
      ensures Valid() && ByWorker(old(s), s)
    {
      var n: int := *;
      while n > 0
        invariant Valid() && ByWorker(old(s), s)
      {
        var e: Event := *;
        if !ServerEvent(e) && Enabled(s, e) {
          WorkerStepIsByWorker(s, e);
          Perform(e);
        }
        n := n - 1;
      }
    }

    /** The web process queues a validated configuration under a fresh identifier, unless the
        lock is taken, an earlier job is unfinished or the directory is full. The write may
        fail before or after it takes effect; otherwise those are the only reasons. */
    method Enqueue(configuration: Value, id: Id, now: int) returns (queued: bool)
      requires Valid() && s.lock != ServerHolds && id !in s.used
      modifies this
      ensures Valid() && s.lock != ServerHolds
      ensures old(s.lock) != Free ==> !queued && s == old(s)
      ensures s.disk.queue == old(s.disk.queue)
              || s.disk.queue == old(s.disk.queue)[id := Job(1, id, old(s.role), now, configuration)]
      ensures queued || s.disk.queue != old(s.disk.queue) ==>
                |old(s.disk.queue.Keys)| <= 1024 && forall x | x in old(s.disk.queue) :: x in s.disk.status
      ensures queued ==> id in s.disk.queue
      ensures reliable && !queued ==> s.disk.queue == old(s.disk.queue)
      ensures reliable && old(s.lock) == Free && |old(s.disk.queue.Keys)| <= 1024
              && (forall x | x in old(s.disk.queue) :: x in old(s.disk.status))
              ==> queued
    {
      queued := false;
      if s.lock != Free {
        return;
      }
      Reachable();
      Perform(Enter);
      var finished := InspectQueue();
      if finished {
        WorkerActs();
        var effective: bool := *;
        if effective || reliable {
          Perform(Publish(id, Job(1, id, s.role, now, configuration)));
          queued := *;
          queued := queued || reliable;
        }
      }
      Perform(Leave);
    }

    /** Under the lock: whether there are at most 1024 queued jobs and every one is finished. */
    method InspectQueue() returns (finished: bool)
      requires Valid() && s.lock == ServerHolds && s.seen == {}
      modifies this
      ensures Valid() && ByWorker(old(s), s.(seen := {}))
      ensures finished ==> s.seen == s.disk.queue.Keys && |s.disk.queue.Keys| <= 1024
                           && forall x | x in s.disk.queue :: x in s.disk.status
      ensures |s.disk.queue.Keys| <= 1024 && (forall x | x in old(s.disk.queue) :: x in old(s.disk.status)) ==> finished
    {
      var left := s.disk.queue.Keys;
      var count := 0;
      while left != {}
        invariant Valid() && ByWorker(old(s), s.(seen := {}))
        invariant count + |left| == |s.disk.queue.Keys| && count <= 1024
        invariant left <= s.disk.queue.Keys && s.seen <= s.disk.queue.Keys
        invariant forall x | x in s.disk.queue :: x in left || (x in s.seen && x in s.disk.status)
        decreases |left|
      {
        WorkerActs();
        var candidate :| candidate in left;
        count := count + 1;
        if count > 1024 || candidate !in s.disk.status {
          return false;
        }
        Perform(Inspect(candidate));
        left := left - {candidate};
      }
      finished := true;
    }
  }
}
