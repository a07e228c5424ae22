# Verified protocols of the Elo deployment services

This project models the protocols that keep an Elo host's configuration, backups and
diagnostics correct while processes crash, writers interleave and clients retry, and proves
what they promise. It is written in Dafny 4.11; `dafny verify dfyconfig.toml` checks all of it.

- **Configuration transactions** (`AdminProtocol`, `AdminSafety`, `AdminFailures`, `AdminHost`,
  `AdminConfig`, `Schema`, `JournalCodec`, `JsonLength`, `Base64`). A web process queues configuration jobs and a worker
  applies them through a journal. `AdminProtocol` is a step system over the durable disk in
  which every write is one event and any run may stop anywhere; `AdminSafety` proves what all
  runs guarantee. `AdminHost` writes both programs as methods over those events. Each write may
  fail before or after taking effect or be the worker's last; the other process may act between
  any two writes; the class invariant says that all of it is a run, so the theorems about runs
  hold of the programs. A host may be `reliable` (no write fails and the worker does not die) and
  `alone` (the other process takes no step); for such hosts the contracts say what does happen:
  which requests end in force, which are recorded as failed, and when a run stops.
- **Online snapshots** (`OnlineSnapshot`, `Attachments`, `Backup`). The source is a timeline and
  every read of the copier happens at an instant of its own, down to the single byte of a file.
  A capture that returns normally is the source at one instant, and a published backup is files,
  databases and attachment objects at one common instant. Where no deadline passes, a source at
  rest is always captured and published whole.
- **Reading archives back** (`ArchivePaths`, `ArchiveCheck`, `Restore`, `BackupCycle`).
  Verification and restoration are each specified by an if-and-only-if over all archives, and
  compared; `BackupCycle` follows a published backup through both.
- **Diagnostics store** (`RateLimits`, `Reports`, `Diagnostics`). Windowed budgets over whole
  runs, deduplication, retention, and paging while the table changes.
- **Lock file reduction** (`CargoLock`) and the **STUN attribute codec** (`TurnCodec`, sections
  5, 14 and 14.5 of RFC 8489).

`Runs` (invariants over runs), `Sums` (totals of maps), `Json` and `Prelude` are shared helpers.

## Findings

- `deploy/hosting/online_snapshot.py` rejects a source that differs between its two inventories,
  not every source that changed in between. `FlippingDefeatsChecks` gives two files that keep
  returning to earlier values and pass every check with a copy that never existed. The guarantee
  holds whenever nothing the copier looks at returns to an earlier value during the capture
  (`NoReturn`; sidecars of databases are free to come and go), and it is stated with that
  assumption.
- Recovery can resolve an interrupted job if and only if it reads the job's journal and, once the
  job is committed, `state` returns for the files it wrote (`RecoveryIffResolvable`). The worker
  checks neither before it writes:
  - A journal is read if and only if no replaced file has permission bits above 0o777 and its
    text is at most 8 MiB long (`JournalRoundTrip`, `ReadableIsAccepted`). `HalfWrittenIsReachable`
    is a run over files of mode 0o4600 that leaves one of two files written; from there no step
    except a resumed `apply`, which nothing resumes, changes a file, records an outcome or removes
    the journal (`StuckForever`). Six files of the greatest readable size are refused too
    (`MaximalFilesRefused`), and marking a journal of exactly 8 MiB as committed makes it
    unreadable (`CommitLengthens`).
  - `state` returns for the written files if and only if each document it loads is at most 1 MiB
    long as written and holds no infinity (`CommittedIsViewable`). Rewriting a readable document
    can break both: a compact list of 150 000 zeros grows past the limit when it is indented
    (`OversizedIsReachable`), and a number such as 1e999 is written back as `Infinity`, which the
    decoder refuses (`InfinityIsReachable`). Such a job is committed, never gets an outcome, and no
    step of any process ever changes that or applies another job (`UnviewableForever`).
  Every worker run stops at such a journal with nothing changed (`AdminHost.Host.Run`).
- Verification accepts symbolic links, which the snapshot copies, and restoration refuses them:
  such an archive passes every check and can never be restored (`VerifiedLinkIsNotRestored`).
  `VerifiedIsRestorable` states exactly which verified archives restore, and
  `RestorableIffNoLinks` the same of packed backups.
- A manifest file that holds the JSON value null counts as no manifest at all: an archive with an
  unlisted attachment object passes where attachments are not required (`NullManifestPasses`).
  `UncheckedObjects` states exactly when every object is listed.
- A backup configured with a path at or below another is published and can never pass
  verification, because `tar` packs what they share twice (`PublishedArchivePasses`).
- The STUN parser accepts a packet whose last attribute declares more bytes than remain, with a
  shortened value (`ClippedIsAccepted`); only the last can be (`ClippedIsLast`).

## Model

| member | source | states |
|---|---|---|
| `AdminSafety.Atomicity` | deploy/admin/apply.py:300-388 | In every state of every run (any crash, any failed write, any interleaving): with no journal, or a committed one, the configuration files are the committed transactions applied one after the other; with a prepared journal, writing its records back gives those files; a recorded status is `succeeded` exactly for jobs that committed or had nothing to do |
| `AdminSafety.ChangesAreCommits` | deploy/admin/apply.py:300-388 | Between any two moments without a journal, files changed by exactly the plans committed in between, in order: a failed job left content, owner, group, mode and absence untouched, a committed one installed all of its files |
| `AdminSafety.RollbackTarget` | deploy/admin/apply.py:378-383 | From any partly written tree, restoring the journalled records gives the pre-job files exactly |
| `AdminSafety.CommitIsFinal` | deploy/admin/apply.py:328-337 | Once `committed` is on disk, in no later state is the job missing from the committed history, its journal back in `prepared`, or its status `failed` |
| `AdminSafety.OneJournal` | deploy/admin/apply.py:317-337 | At most one journal exists in every reachable state, and only its own job's writes change files |
| `AdminSafety.AtMostOnce` | deploy/admin/apply.py:398-427 | No job commits twice or both commits and is a no-op; with no journal, the API manifest revision is its initial value plus the number of commits |
| `AdminSafety.OneUnfinishedJob` | deploy/admin/server.py:124-167 | Over every interleaving of the web process with the worker, at most one queued job has no status |
| `AdminSafety.NeverReopened` | deploy/admin/apply.py:424-433 | A job that has a status and is still queued at any later moment still has a status: pruning never reopens it |
| `AdminSafety.RecoveryStep` | deploy/admin/apply.py:374-388 | Each write of a recovery leaves the outcome of an uninterrupted recovery unchanged, and removing the journal reaches it |
| `AdminSafety.RecoveryConverges` | deploy/admin/apply.py:390-392 | Any number of recoveries interrupted anywhere, with any steps of the web process in between: once the journal is gone, the disk is, but for the queue, the one a single uninterrupted recovery would have left |
| `AdminSafety.RecoveryIffResolvable` | deploy/admin/apply.py:339-388 | From every reachable state with a journal, some run of recovery removes it if and only if recovery reads it (no journalled mode above 0o777, at most 8 MiB of text) and, if it is committed, `state` returns for the present files |
| `AdminSafety.StuckForever` | deploy/admin/apply.py:339-373 | A prepared job whose journal is not read stays without an outcome over unchanged files and journal, whatever any process does short of resuming its `apply` |
| `AdminSafety.CommittedIsViewable` | deploy/admin/apply.py:151-183 | For the files a plan leaves, `state` returns if and only if every document of the plan that it loads is at most 1 MiB long as written and holds no infinity |
| `AdminSafety.UnviewableForever` | deploy/admin/apply.py:374-376 | A committed job over files `state` raises on never gets an outcome, and no step of any process changes files or journal |
| `AdminFailures.HalfWrittenIsReachable` | deploy/admin/apply.py:367-369 | A concrete run over files of mode 0o4600 stops with one of two files written: neither the old configuration nor the new one, and by `StuckForever` for good |
| `AdminFailures.UnviewableIsReachable` | deploy/admin/apply.py:262-298 | Every readable storage document that comes out too long or with an infinity when rewritten is committed by some run whose journal recovery reads, and by `UnviewableForever` stays unresolved |
| `AdminFailures.OversizedIsReachable` | deploy/admin/apply.py:32-42 | A compact list of zeros of the right length is such a document under the real JSON lengths |
| `AdminFailures.InfinityIsReachable` | deploy/admin/apply.py:54-57 | A document with the number 1e999 is such a document |
| `JsonLength.FillerLength` | deploy/admin/apply.py:89-90 | The number of bytes `encoded` writes for a list of zeros: seven a number, against two compactly |
| `AdminProtocol.StepKeeps` | deploy/admin/apply.py:300-433 | Every durable write of either process keeps the invariant on files, journal, log, statuses and queue |
| `AdminProtocol.RunKeeps` | deploy/admin/apply.py:300-433 | Every state of every run satisfies that invariant: in particular only files `state` returns for are published or journalled, and a journal has the length of its text |
| `AdminProtocol.RollbackRestores` | deploy/admin/apply.py:378-386 | When every journalled record is back in place the files are the pre-job files |
| `AdminProtocol.CommitSerial` | deploy/admin/apply.py:321-329 | At the moment of commit the files are the previous files with the whole plan applied, and the API revision is one higher |
| `AdminProtocol.PrepareKeeps` | deploy/admin/apply.py:307-319 | Writing the prepared journal keeps the invariant: its records are the files the plan will replace |
| `AdminProtocol.ForwardKeeps` | deploy/admin/apply.py:321-326 | Replacing any file of the plan keeps the invariant and the pre-job files recoverable |
| `AdminProtocol.CommitKeeps` | deploy/admin/apply.py:328-329 | Marking the journal committed keeps the invariant, appends exactly that job to the history and lengthens the text by one byte |
| `AdminProtocol.BackwardKeeps` | deploy/admin/apply.py:378-383 | Restoring any record, in any order and any number of times, keeps the invariant |
| `AdminProtocol.JournalEventKeeps` | deploy/admin/apply.py:374-387 | Recording the outcome and removing the journal keep the invariant; `failed` is recorded only over restored files |
| `AdminProtocol.StatusEventKeeps` | deploy/admin/apply.py:185-189 | Recording no-ops and rejections and pruning statuses keep the invariant |
| `AdminProtocol.ServerEventKeeps` | deploy/admin/server.py:124-167 | Locking, inspecting and publishing in the web process keep the invariant and touch no configuration file |
| `AdminProtocol.PlanRevises` | deploy/admin/apply.py:242-269 | An installed API plan raises the manifest revision by exactly one |
| `AdminHost.Host.constructor` | deploy/admin/apply.py:93-122 | The initial disk is a run of length one |
| `AdminHost.Host.Durable` | deploy/admin/apply.py:60-91 | One durable write may fail before or after it takes effect or be a crash; the web process may act around it; the whole stays a run of the protocol |
| `AdminHost.Host.Strike` | deploy/admin/apply.py:60-91 | The write itself takes effect or not, and is followed by a normal return, an exception or a crash that releases the lock |
| `AdminHost.Host.Acquire` | deploy/admin/apply.py:126-140 | The worker never waits for the queue lock: it holds it exactly when it reports success; undisturbed and without faults it always gets it |
| `AdminHost.Host.Recover` | deploy/admin/apply.py:339-388 | A journal that is missing or not resolvable is refused with nothing changed; without further faults every other one is resolved; a normal return means the disk is that of an uninterrupted recovery, and the result says whether the transaction was committed |
| `AdminHost.Host.RefreshState` | deploy/admin/apply.py:182-183 | The published state is recomputed, or nothing changes where `state` raises; without faults that is the only reason to fail |
| `AdminHost.Host.RollBack` | deploy/admin/apply.py:377-386 | Rollback ends with all journalled records in place, the published state recomputed and `failed` recorded |
| `AdminHost.Host.Restore` | deploy/admin/apply.py:378-383 | The record loop leaves exactly the journalled files, whatever state it started from |
| `AdminHost.Host.Confirm` | deploy/admin/apply.py:374-376 | A committed journal is resolved by refreshing the state and recording `succeeded`; no file changes, and nothing at all happens where `state` raises |
| `AdminHost.Host.ReplaceFiles` | deploy/admin/apply.py:320-326 | The file loop leaves the old files with every change of the plan in force, and without faults it gets there |
| `AdminHost.Host.Install` | deploy/admin/apply.py:320-332 | The guarded part of `apply`: normal return means files replaced, committed once, succeeded recorded, journal gone; an exception after the commit still leaves the new files; without faults it returns normally if and only if `state` returns for the new files, and is otherwise stranded after the commit |
| `AdminHost.Host.CommitAndClose` | deploy/admin/apply.py:328-332 | After the commit no failure changes a file; without faults the only failure is that `state` raises on the new files |
| `AdminHost.Host.InstallOrRecover` | deploy/admin/apply.py:320-337 | An exception is swallowed exactly when recovery finds the transaction committed; a normal return then means the whole plan is in force; without faults the outcome depends only on whether `state` returns for the new files |
| `AdminHost.Host.Changes` | deploy/admin/apply.py:242-298 | The plan is the one the request asks for, or none; every plan covers exactly the files of its role |
| `AdminHost.Host.ConfirmUnchanged` | deploy/admin/apply.py:302-305 | A request already in force changes no file and no history, and without faults is recorded as succeeded |
| `AdminHost.Host.Apply` | deploy/admin/apply.py:300-337 | Normal return means no journal, status `succeeded` and the request in force as `state` reports it (all six fields of the API; provider and owners of the witness); a request with nothing feasible to do raises with nothing touched; without faults one with nothing to do succeeds with files untouched, and any other is committed exactly once and ends in force or, where `state` does not return for what it wrote, stranded |
| `AdminHost.Host.ApplyPlan` | deploy/admin/apply.py:307-337 | A journalled plan ends with all its files written, `succeeded` recorded and no journal left, or raises; without faults exactly if its documents can be loaded again |
| `AdminHost.Host.TryJob` | deploy/admin/apply.py:400-415 | Normal return of the guarded job body leaves no journal and a decided job; a refused job never returns normally and leaves files, journals, statuses and history untouched; without faults the job meets its fate: decided before, refused, already in force, in force now, or stranded |
| `AdminHost.Host.Decide` | deploy/admin/apply.py:407-415 | The checks on a request (version 1, its own identifier and role, at most an hour old and not from the future), validation and application: what fails them raises with nothing touched |
| `AdminHost.Host.Guarded` | deploy/admin/apply.py:400-423 | With the exception handlers, without faults a refused job is recorded as failed over untouched files and a stranded one raises |
| `AdminHost.FreshRequestSucceeds` | deploy/admin/apply.py:408-415 | A request of version 1 and this identifier and role, at most 3600 seconds old, that is valid and asks for what is in force or for changes that exist and can be loaded again, is recorded as succeeded, and what it asks for is what `state` then reports |
| `AdminHost.OtherRequestsFail` | deploy/admin/apply.py:408-423 | A request of another version, identifier or role, from the future or older than 3600 seconds, or not valid, is recorded as failed, and files and history are as before |
| `AdminHost.PlanViewable` | deploy/admin/apply.py:151-183 | Whether `state` returns for the files a plan leaves can be told from the plan |
| `AdminHost.Host.ProcessJob` | deploy/admin/apply.py:398-427 | One iteration with its handlers: normal return means the job is decided, off the queue, and no journal is left; nothing else in queue, status or journals was lost; without faults the job meets its fate, and undisturbed no lock is found taken |
| `AdminHost.Host.Finally` | deploy/admin/apply.py:424-427 | The `finally` block removes a job from the queue only when it has a status, and changes nothing else; without faults it fails only on a taken lock |
| `AdminHost.Host.RecoverAll` | deploy/admin/apply.py:390-392 | All journals are resolved before any job is looked at, and the disk is then that of one uninterrupted recovery; one that cannot be resolved stops the run with nothing changed, and without faults nothing else does |
| `AdminHost.Host.ProcessListed` | deploy/admin/apply.py:398-427 | After the loop, whatever is queued was queued after the listing; without faults the one undecided job of the listing meets its fate, every other job changes nothing, and only a stranded job stops the loop |
| `AdminHost.Host.ProcessQueue` | deploy/admin/apply.py:393-433 | Without faults, over files `state` returns for: more than 1024 jobs stop the run with nothing changed, and otherwise the listed jobs are processed and the statuses pruned |
| `AdminHost.Host.ListQueue` | deploy/admin/apply.py:393-397 | The state is published and the queue listed under its lock; at most one listed job is undecided |
| `AdminHost.RanStep` | deploy/admin/apply.py:398-427 | One more job processed extends what the loop has done: a decided job keeps it, the undecided one is decided over the files of the listing |
| `AdminHost.Host.PruneStatuses` | deploy/admin/apply.py:429-433 | Exactly the statuses older than a day go, files and history stay, and no look at the queue is needed: no status it can remove belongs to a queued job |
| `AdminHost.Host.Run` | deploy/admin/apply.py:390-433 | A normal worker run leaves no journal and has decided and dequeued every job queued before it began; over a journal that cannot be resolved every run raises and changes nothing; without faults the run ends as the journal, the listing and the fate of the undecided job say, and it raises for no other reason than a journal that cannot be resolved, files `state` raises on, more than 1024 jobs, or a stranded job |
| `AdminHost.Host.Enqueue` | deploy/admin/server.py:124-167 | The queue grows by the job as validated or stays the same, and grows only if it held at most 1024 jobs, all of them finished; without faults the job is queued if and only if, besides, the lock was free; a taken lock changes nothing |
| `AdminHost.Host.InspectQueue` | deploy/admin/server.py:136-144 | Under the lock the queue passes inspection only if it holds at most 1024 jobs and each has an outcome, and it does pass if they had one when inspection began |
| `AdminHost.GuardIsStable` | deploy/admin/apply.py:126-140 | Nothing the web process does can invalidate a write the worker has decided on |
| `AdminHost.Commutes` | deploy/admin/apply.py:126-140 | Web process steps commute with the worker's writes |
| `AdminHost.PlanInForce` | deploy/admin/apply.py:242-298 | A journalled plan, once applied to the files it was computed from, puts its request in force wherever `state` returns |
| `AdminConfig.ResubmissionIsNoOp` | deploy/admin/apply.py:151-168 | After an API request is installed, `state` reports that configuration on all six fields, so that submitting it again has nothing to do, if and only if the written documents can be loaded again; the revision rose by one |
| `AdminConfig.ApiChangesReport` | deploy/admin/apply.py:242-269 | A tree with the API plan in force has the next revision, and reports the requested configuration if and only if its documents can be loaded again |
| `AdminConfig.StorageChangesReport` | deploy/admin/apply.py:169-180 | What a storage plan leaves is reported with the requested provider and owners (none when disabled) if and only if its documents can be loaded again |
| `AdminConfig.ApiChangesCover` | deploy/admin/apply.py:242-269 | An API plan names exactly the six API files, each once |
| `AdminConfig.StorageChangesCover` | deploy/admin/apply.py:271-298 | A storage plan names exactly the two storage files, each once |
| `AdminConfig.BlankCredentials` | deploy/admin/apply.py:271-298 | Leaving every credential blank succeeds only over a saved connection of the same provider, and stores that connection unchanged |
| `AdminConfig.StorageFiles` | deploy/admin/apply.py:271-298 | The two files a witness request writes, field by field: each credential under its own name (the request's if it supplies one, otherwise the saved one of the same provider), provider kind, owners and the reference to the file; for a disabled provider the reference and the file go and nothing else changes |
| `AdminConfig.S3Stored` | deploy/admin/apply.py:277-291 | The S3 connection is stored exactly if all five credentials are present, nothing else is saved beside them and they pass validation, and then it is endpoint, region, bucket, access key and secret key, each from the field of its name |
| `AdminConfig.MegaStored` | deploy/admin/apply.py:277-291 | The same of the MEGA folder link and write authorisation |
| `AdminConfig.StorageChangesExist` | deploy/admin/apply.py:271-298 | A witness request has a plan if and only if the configuration loads and, unless it disables the provider, the saved connection loads, the whole connection is usable and valid and, for MEGA, the adapter is installed |
| `AdminConfig.StoredIsSaved` | deploy/admin/apply.py:276-280 | What a storage plan stores is what the next request finds saved, and a disabled provider leaves nothing saved |
| `AdminConfig.ApiFiles` | deploy/admin/apply.py:242-269 | The six files an API request writes, with names, owners and permissions: creators and retentions in the configuration, name, lifetimes, default, next revision and managed provider in the manifest, every other field as it was; record and link, link, QR code and page |
| `AdminConfig.ApiChangesExist` | deploy/admin/apply.py:242-247 | An API request has a plan if and only if both documents load, the revision is a number, the storage section is an object or absent, a managed provider finds a storage URL, and signing succeeds |
| `AdminConfig.PutAllInstalls` | deploy/admin/apply.py:321-326 | Writing a plan of distinct paths puts every change in force and leaves every other path alone |
| `AdminConfig.InstalledIsPutAll` | deploy/admin/apply.py:321-329 | Files with a plan in force that agree elsewhere with a base are the base with the plan applied |
| `Schema.ValidationFixpoint` | deploy/admin/schema.py:70-113 | Validation is a fixpoint on its own output for both roles, so the worker's second validation returns what was queued |
| `Schema.ApiFixpoint` | deploy/admin/schema.py:70-89 | Normalised API configurations validate to themselves |
| `Schema.WitnessFixpoint` | deploy/admin/schema.py:90-113 | Normalised witness configurations validate to themselves |
| `Schema.WitnessKeeps` | deploy/admin/schema.py:90-113 | An accepted witness request keeps its provider, the members of its owner list and every credential it supplies under its own name (the endpoint in its normal form); nothing else is in the result |
| `Schema.WitnessAccepts` | deploy/admin/schema.py:43-113 | Exactly which witness requests are accepted: fields, identities, lengths and character sets of every credential, both or neither of each pair, none of the other provider |
| `Schema.ApiKeeps` | deploy/admin/schema.py:70-89 | An accepted API request keeps name, default, mode and provider, the members of its creator list, and the members of its lifetimes in the order they are offered in |
| `Schema.ApiAccepts` | deploy/admin/schema.py:70-89 | Exactly which API requests are accepted |
| `Schema.BeforeMeans` | deploy/admin/schema.py:40-40 | Text is ordered by the first character in which it differs, a prefix first |
| `Schema.OwnersFixpoint` | deploy/admin/schema.py:36-40 | Identity lists are permuted, never changed, and validating again changes nothing |
| `Schema.SortedIsSorted` | deploy/admin/schema.py:36-40 | `sorted` gives an ascending permutation and leaves ascending lists alone |
| `Schema.LifetimesFixpoint` | deploy/admin/schema.py:76-89 | Chosen lifetimes are put in canonical order with the same members, once and for all |
| `JournalCodec.JournalRoundTrip` | deploy/admin/apply.py:307-319 | A journal `apply` writes is read back as the same phase and records if and only if no replaced file has mode bits above 0o777 and its text is at most 8 MiB long; any other is refused |
| `JournalCodec.ReadableIsAccepted` | deploy/admin/apply.py:339-373 | The length the protocol gives a journal is that of its text, and the journals it calls readable are those whose text recovery accepts |
| `JournalCodec.CommitLengthens` | deploy/admin/apply.py:328-329 | The text of a committed journal is one byte longer than that of the prepared one |
| `JournalCodec.SetuidIsRefused` | deploy/admin/apply.py:367-369 | A written journal of a file with mode 0o4600 is refused |
| `JournalCodec.MaximalFilesRefused` | deploy/admin/apply.py:340-340 | A written journal of six files of the greatest readable size is refused |
| `JournalCodec.ReadRecords` | deploy/admin/apply.py:354-373 | The record loop accepts and returns exactly what the recursive decoder does: paths of the role, none twice, field ranges, strict base64 |
| `JournalCodec.RecordsRoundTrip` | deploy/admin/apply.py:308-316 | A list of written records decodes to itself exactly when all modes fit |
| `JournalCodec.AcceptedJournal` | deploy/admin/apply.py:339-373 | Whatever recovery accepts is named after its job, prepared or committed, and holds every file of the role once, each of at most 1 MiB with 32-bit owners and permission bits up to 0o777 |
| `Base64.RoundTrip` | deploy/admin/apply.py:370-370 | Strict decoding of an encoding gives back the bytes (section 4 of RFC 4648) |
| `Base64.EncodedLength` | deploy/admin/apply.py:313-314 | An encoding has four characters per started group of three bytes |
| `Base64.DecodeAccepts` | deploy/admin/apply.py:370-370 | The strict decoder takes exactly the texts of whole groups of four in which only the last character, or the last two, are padding |
| `Base64.GroupMeans` | deploy/admin/apply.py:313-314 | A group is its 24-bit number in base 64, most significant first, with padding for missing bytes |
| `OnlineSnapshot.Capture` | deploy/hosting/online_snapshot.py:80-128 | If capture returns normally while writers interleave arbitrarily, down to single bytes, there is one instant within it at which every copied file, link, directory and database is the source and every path left out is absent or a sidecar of a copied database (or of such a sidecar), provided nothing the copier looks at returns to an earlier value meanwhile; where no deadline passes, a source at rest without special files is always captured, with a copy of exactly the present paths that are not sidecars, and a final failure means that something special, a growing file or a vanished database was seen |
| `OnlineSnapshot.OneInstant` | deploy/hosting/online_snapshot.py:80-128 | The same for any evidence passing the checks: two agreeing inventories, digests of the copies, unchanged database versions |
| `OnlineSnapshot.Inventory` | deploy/hosting/online_snapshot.py:50-77 | Every entry is what the reads of that path showed at instants within the inventory, and an unlisted path was absent when listed; sidecars of databases are dropped; where no deadline passes, a source at rest is always inventoried |
| `OnlineSnapshot.CopyTree` | deploy/hosting/online_snapshot.py:87-122 | Every observer is open before the first copy, and each copy has its entry's digest, link target or database rows; where no deadline passes, a source at rest is always copied |
| `OnlineSnapshot.ReadEntry` | deploy/hosting/online_snapshot.py:54-71 | One path: metadata and content may come from different instants, and a replaced file is noticed; where no deadline passes, a path at rest that is not special is always read, and only a special or growing one is refused for good |
| `OnlineSnapshot.ReadFile` | deploy/hosting/online_snapshot.py:61-67 | A file read in pieces of any size yields bytes each of which stood at its place at some instant of the reading, up to an end that was seen; where no deadline passes, only a growing file is given up on |
| `OnlineSnapshot.ReadListed` | deploy/hosting/online_snapshot.py:50-77 | The loop of the inventory: every listed path is read within it |
| `OnlineSnapshot.InventoryAtRest` | deploy/hosting/online_snapshot.py:50-77 | An inventory of a source at rest holds every path there is, with mode, link target, digest and identity |
| `OnlineSnapshot.CopiesAtRest` | deploy/hosting/online_snapshot.py:80-128 | The copies of a source at rest are exactly the present paths that do not stand beside a database with `-wal`, `-shm` or `-journal`, each copied as it is |
| `OnlineSnapshot.CopyEntry` | deploy/hosting/online_snapshot.py:101-122 | Each copy is made from its entry; an entry at rest is always copied, and only a growing file fails for good |
| `OnlineSnapshot.CopyAll` | deploy/hosting/online_snapshot.py:98-122 | The same of all entries |
| `OnlineSnapshot.Observe` | deploy/hosting/online_snapshot.py:90-97 | An observer for every database entry and no other, each timed when opened; it fails only on a path that is gone |
| `OnlineSnapshot.Unchanged` | deploy/hosting/online_snapshot.py:125-127 | Success means that every observer saw its first version again; a source at rest passes |
| `OnlineSnapshot.ContentAtInstant` | deploy/hosting/online_snapshot.py:123-124 | A file read with the same content twice, each byte at its own instant, had that content at every instant in between |
| `OnlineSnapshot.EntryAtInstant` | deploy/hosting/online_snapshot.py:123-124 | A path the copier looks at that shows the same entry in both inventories had it at every instant in between |
| `OnlineSnapshot.RowsAtInstant` | deploy/hosting/online_snapshot.py:125-127 | An unchanged version means the copied rows are the database at every instant from opening to check |
| `OnlineSnapshot.MissingAtInstant` | deploy/hosting/online_snapshot.py:72-77 | A path left out was absent at the instant, or is a sidecar of a copied database or of such a sidecar |
| `OnlineSnapshot.UntrackedIsBeside` | deploy/hosting/online_snapshot.py:72-77 | A path exempt from the assumption on writers is never copied and is a sidecar of a kept database in every inventory |
| `OnlineSnapshot.FlippingDefeatsChecks` | deploy/hosting/online_snapshot.py:80-128 | Without the no-return assumption the guarantee is false: two files flipping between two values pass every check with a copy that was never the source |
| `Attachments.CheckManifest` | deploy/hosting/attachment_snapshot.py:74-93 | The inventory is accepted exactly when it is well formed and its total is within the budget, and the total is the sum of all sizes |
| `Attachments.Download` | deploy/hosting/attachment_snapshot.py:106-121 | Reading in pieces of any size succeeds exactly when the response has its declared size |
| `Attachments.CaptureObjects` | deploy/hosting/attachment_snapshot.py:95-123 | A successful capture holds exactly the listed objects, each with its listed size and digest, and the manifest in force at one instant; with enough disk space, a service at rest that holds what its valid inventory within the budget says is always captured, and a final failure means that an invalid inventory or a mismatching object was seen |
| `Attachments.CaptureSpace` | deploy/hosting/attachment_snapshot.py:101-121 | The objects of one Space are fetched once each; a final failure means a served object of another size or digest than listed |
| `Attachments.ValidManifestMeans` | deploy/hosting/attachment_snapshot.py:74-93 | A valid inventory is of version 1, with Spaces and revisions of 64 hexadecimal digits and well-formed objects of different names |
| `Attachments.SameObjects` | deploy/hosting/attachment_snapshot.py:95-123 | An inventory determines its objects |
| `Attachments.ProducerConsumerAgree` | deploy/hosting/pull_backup.py:156-178 | The map rebuilt from the manifest equals what the archive's objects measure exactly when the archive holds the captured files: missing, extra or altered objects fail |
| `Attachments.Rebuild` | deploy/hosting/pull_backup.py:156-176 | The rebuilt map exists exactly for well-formed manifests and lists exactly their objects under their paths |
| `Attachments.RecordIsUnique` | deploy/hosting/pull_backup.py:159-176 | A manifest determines its map |
| `Attachments.ObjectPathInjective` | deploy/hosting/pull_backup.py:169-171 | The archive path of an object determines Space and object |
| `Backup.Attempt` | deploy/hosting/backup.py:99-110 | A successful attempt is files, databases and attachment objects at one common instant, because the attachment inventory is read before the file capture and found unchanged after it; its objects are those of a well-formed inventory; without other faults a world at rest is always captured whole, and a final failure has a cause no attempt can help |
| `Backup.CaptureAttachments` | deploy/hosting/backup.py:100-103 | Attachments are captured exactly if they are configured, from a valid inventory in force at one instant |
| `Backup.ConfirmAttachments` | deploy/hosting/backup.py:104-105 | A configured inventory is found in force again; at rest it always is |
| `Backup.AttemptWhole` | deploy/hosting/backup.py:99-105 | An attempt on a world at rest holds all copies, the inventory and all its objects |
| `Backup.VerifyUnchanged` | deploy/hosting/attachment_snapshot.py:125-128 | Success means the inventory in force at the end is the one captured; an unchanged valid one succeeds, and an invalid one fails for good |
| `Backup.AttachmentsAtInstant` | deploy/hosting/attachment_snapshot.py:125-128 | An inventory found unchanged around an instant, with its objects, was what the service held at that instant |
| `Backup.Destination.Snapshot` | deploy/hosting/backup.py:80-132 | A name is published only with such a consistent archive; every other outcome publishes nothing, and leaves a partial file only if the process is killed; a taken name is not tried at all; without other faults every captured archive is published, giving up takes three attempts or a cause no attempt can help, and a world at rest is always published whole |
| `Backup.Destination.Publish` | deploy/hosting/backup.py:111-131 | Either the rename happens with the complete archive or no archive changes; the partial file stays only if the process is killed before the rename; without faults the archive is published |
| `ArchivePaths.NormalisedIsProper` | deploy/hosting/pull_backup.py:84-89 | An accepted name has only proper components, so it stays below its directory, and normalising it again changes nothing |
| `ArchivePaths.ArchivePathMeans` | deploy/hosting/pull_backup.py:84-89 | A name is accepted if and only if it is relative, has a component, none is `..` and it takes at most 4096 bytes |
| `ArchivePaths.ComponentsMean` | deploy/hosting/pull_backup.py:85-85 | Components are what stands between slashes, without empty ones and dots |
| `ArchivePaths.ExpectedRootsMean` | deploy/hosting/pull_backup.py:94-98 | The expected names are the configured paths without their leading slashes; a configuration without paths, or with one that is not absolute or not acceptable, is refused |
| `ArchivePaths.RootsAreUnambiguous` | deploy/hosting/restore_backup.py:36-38 | No root lies inside another if and only if every name falls under at most one root, whatever the iteration order |
| `ArchiveCheck.VerifyArchive` | deploy/hosting/pull_backup.py:92-178 | Verification passes exactly the authentic archives within the limits, with distinct names, all sources of a valid non-empty configuration and attachment objects exactly those of the manifest |
| `ArchiveCheck.ScanAll` | deploy/hosting/pull_backup.py:107-145 | The member loop succeeds exactly on bounded archives of distinct, complete, supported members |
| `ArchiveCheck.ScannableMeans` | deploy/hosting/pull_backup.py:75-145 | Which archives the loop takes, in numbers: 100 000 members of different names, 8 MiB of names, 8 GiB of files, complete files, directories and links of bounded size, a manifest of at most 8 MiB |
| `ArchiveCheck.TallyMeans` | deploy/hosting/pull_backup.py:107-145 | The gathered names, sources, objects and manifest are exactly those of the members of the right kind |
| `ArchiveCheck.TallyContents` | deploy/hosting/pull_backup.py:107-145 | With distinct names, each object and the manifest carry the content of their one member |
| `ArchiveCheck.CapturedArchivePasses` | deploy/hosting/pull_backup.py:156-178 | For a captured manifest the attachment check passes exactly when the archive holds the captured objects |
| `ArchiveCheck.VerifiedIsRestorable` | deploy/hosting/restore_backup.py:55-88 | A verified archive is accepted for restoration exactly when every member is a file or directory below a root and no file stands where a directory is needed |
| `ArchiveCheck.VerifiedRootsAreFound` | deploy/hosting/restore_backup.py:95-96 | For such an archive the sources verification looks for are the roots restoration finds |
| `ArchiveCheck.VerifiedLinkIsNotRestored` | deploy/hosting/restore_backup.py:68-69 | A concrete archive with a symbolic link passes verification and is accepted for restoration under no roots |
| `ArchiveCheck.NullManifestPasses` | deploy/hosting/pull_backup.py:154-156 | A concrete archive with an unlisted attachment object and a manifest file holding null passes where attachments are not required |
| `ArchiveCheck.UncheckedObjects` | deploy/hosting/pull_backup.py:154-178 | Every object of a passing archive is listed by its manifest with its size and digest if and only if attachments are required, the manifest is not null, or there is no object |
| `BackupCycle.PublishedArchivePasses` | deploy/hosting/backup.py:111-123 | Whatever order `tar` writes a staged backup in, within the limits it passes verification if and only if no configured path lies at or below another |
| `BackupCycle.ObjectsAreArchived` | deploy/hosting/backup.py:111-114 | The attachment objects verification gathers from it are exactly the captured ones |
| `BackupCycle.RestorableIffNoLinks` | deploy/hosting/restore_backup.py:68-69 | Below its roots, a staged backup can be restored if and only if it holds no symbolic link |
| `BackupCycle.RestoresExactly` | deploy/hosting/restore_backup.py:55-101 | The restored tree holds every staged object as it was packed, and every file in it is one of them |
| `BackupCycle.CopiesAreRestored` | deploy/hosting/restore_backup.py:55-101 | Every copy of the snapshot stands in the restored directory under its path |
| `Restore.Unpack` | deploy/hosting/restore_backup.py:55-88 | The member loop succeeds exactly on accepted archives, and the tree then holds exactly the members' bytes and their directories; roots found and bytes counted are those of the members |
| `Restore.AcceptedMeans` | deploy/hosting/restore_backup.py:55-88 | Which archives are accepted: at most 100 000 members and 8 GiB of complete files and directories below a root, no two of the same path and no file above another member |
| `Restore.PlaceMember` | deploy/hosting/restore_backup.py:59-88 | One member is placed exactly when the archive so far remains acceptable with it |
| `Restore.ReadMember` | deploy/hosting/restore_backup.py:80-86 | Reading in pieces of any size gives exactly the declared bytes, or fails where the stream is shorter |
| `Restore.AddItem` | deploy/hosting/restore_backup.py:70-78 | A path and its missing ancestors appear, nothing else changes; refusal means a file or an existing entry is in the way |
| `Restore.MakeFolders` | deploy/hosting/restore_backup.py:71-73 | All ancestors exist afterwards and no existing entry changes; refusal means an ancestor is a file |
| `Restore.InTheWay` | deploy/hosting/restore_backup.py:70-78 | Whatever blocks a member belongs to another member it cannot coexist with |
| `Restore.Parent.RestoreArchive` | deploy/hosting/restore_backup.py:23-101 | The destination appears if and only if its parent is private, it was free, the archive is a regular file of at most 2 GiB, the configured roots are valid and do not overlap, the archive is accepted and authentic and every root is present; then it holds exactly the members, otherwise nothing changes |
| `RateLimits.BudgetsHold` | deploy/diagnostics/collector.py:114-149 | On every run with a nondecreasing clock, in every minute: at most 600 requests, 60 per network, 120 new reports, 20 per installation and 20 per network; totals equal the sums of the per-network maps |
| `RateLimits.RequestsAdmitted` | deploy/diagnostics/collector.py:121-130 | A request is admitted exactly while its minute has seen fewer than 600 requests and fewer than 60 of its network |
| `RateLimits.ReportsAdmitted` | deploy/diagnostics/collector.py:142-146 | A new report is admitted exactly while its minute has seen fewer than 120, and fewer than 20 of its installation and of its network |
| `RateLimits.NewMinuteAdmits` | deploy/diagnostics/collector.py:114-119 | In a minute that has only begun everything is admitted |
| `RateLimits.StepKeeps` | deploy/diagnostics/collector.py:114-149 | Every reset and every admission keeps counters equal to what was admitted in the minute |
| `Diagnostics.Store.constructor` | deploy/diagnostics/collector.py:92-106 | A store opened on an earlier table starts with fresh counters and a pruned table |
| `Diagnostics.Store.ResetLimits` | deploy/diagnostics/collector.py:114-119 | Counters are cleared exactly when the minute changes |
| `Diagnostics.Store.AllowRequest` | deploy/diagnostics/collector.py:121-130 | A request is admitted exactly within both budgets; a rejected one leaves counters and maps as the reset left them |
| `Diagnostics.Store.PruneTable` | deploy/diagnostics/collector.py:108-112 | The rows are pruned by age and then by count, and no report is admitted or charged |
| `Diagnostics.Store.Charge` | deploy/diagnostics/collector.py:142-146 | A new report is charged to installation and network exactly when all three budgets allow it |
| `Diagnostics.Store.Ingest` | deploy/diagnostics/collector.py:132-150 | All answers: a bad report, or one created more than seven days ago or five minutes ahead, changes nothing, a duplicate changes no row and no budget, a refused one adds no map entry, an accepted one is inserted and the table pruned |
| `Diagnostics.Store.Query` | deploy/diagnostics/collector.py:152-166 | A page is the scan of the table newest first, cut at one more than a page, of which a page and a cursor are returned |
| `Reports.Select` | deploy/diagnostics/collector.py:163-164 | The scan newest first that stops at 51 matches returns exactly the first 51 matching rows |
| `Reports.HitMeans` | deploy/diagnostics/collector.py:152-164 | A query selects the rows of the last fourteen days in which every given filter equals the field of its own name, below the cursor |
| `Diagnostics.Store.WithinBudgets` | deploy/diagnostics/collector.py:114-149 | While the clock has gone forwards, everything a store ever admitted is within every budget |
| `Diagnostics.Total` | deploy/diagnostics/collector.py:142-142 | The counter total is the sum over all installations |
| `Reports.PruneKeepsExactly` | deploy/diagnostics/collector.py:108-112 | A row survives pruning exactly when it was received within fourteen days and fewer than `max_rows` such rows are newer |
| `Reports.PruneValid` | deploy/diagnostics/collector.py:108-112 | Pruning keeps sequence order and unique (installation, id) pairs and the row limit |
| `Reports.InsertValid` | deploy/diagnostics/collector.py:140-148 | Inserting a report that is not known keeps order and uniqueness |
| `Reports.NewReportIsStored` | deploy/diagnostics/collector.py:132-150 | An accepted new report is in the table after the pruning that follows it, unless a whole retention period passes in between |
| `Reports.PageSplits` | deploy/diagnostics/collector.py:152-166 | A page is strictly descending, holds only matching rows, and every other matching row lies strictly below its cursor, which is at least a page below the previous one |
| `Reports.PagesDescend` | deploy/diagnostics/collector.py:152-166 | With rows inserted and pruned between pages, everything on a later page lies strictly below everything on an earlier one |
| `Reports.CursorsDescend` | deploy/diagnostics/collector.py:152-166 | Cursors fall by at least fifty each time, so following them ends |
| `Reports.PagingIsComplete` | deploy/diagnostics/collector.py:152-166 | Following `next` until it is null shows every matching row present throughout on exactly one page |
| `CargoLock.LockedServers` | deploy/containers/bundle.py:17-37 | The worklist terminates, refuses exactly the lock files in which a needed dependency does not name one package, and otherwise keeps exactly the least set closed under dependencies that contains the servers, in original order |
| `CargoLock.NameMeans` | deploy/containers/bundle.py:28-33 | A dependency that is only a name means every package of that name |
| `CargoLock.VersionMeans` | deploy/containers/bundle.py:28-33 | A name and a version mean the packages that have both |
| `CargoLock.SourceMeans` | deploy/containers/bundle.py:28-33 | A name, a version and a source in parentheses mean the packages that have all three, an absent source reading as the empty one |
| `CargoLock.Dependencies` | deploy/containers/bundle.py:28-36 | The dependencies of one package are resolved to exactly one package each, or the first unresolvable one is reported |
| `CargoLock.ClosureIsClosed` | deploy/containers/bundle.py:21-36 | The kept set contains every server and every dependency of a kept package |
| `CargoLock.ResolvesInKept` | deploy/containers/bundle.py:28-36 | Dropping packages nobody needs does not change what a needed dependency resolves to |
| `CargoLock.KeptIsNeeded` | deploy/containers/bundle.py:17-37 | Every kept package is still needed in the reduced lock file |
| `CargoLock.ReducedIsFixpoint` | deploy/containers/bundle.py:17-37 | Reducing a reduced lock file gives it back |
| `CargoLock.ReducedVerifies` | deploy/containers/verify_lock.py:9-18 | The reduced lock file passes verification against its original exactly when the original locks every server |
| `CargoLock.VerifyMeans` | deploy/containers/verify_lock.py:9-18 | Verification passes exactly if every package is one of the original by name, version, source and checksum, and the six servers are there |
| `TurnCodec.Response` | deploy/containers/turn_smoke.py:30-40 | The parsing loop terminates on every input and returns what the recursive parser does, including every refusal |
| `TurnCodec.HeaderBytes` | deploy/containers/turn_smoke.py:21-24 | A header is kind, length and the cookie 21 12 A4 42, most significant byte first, and the transaction |
| `TurnCodec.AttributeBytes` | deploy/containers/turn_smoke.py:17-18 | An attribute is kind, size and data, with zeros up to a multiple of four |
| `TurnCodec.RequestBytes` | deploy/containers/turn_smoke.py:21-27 | The bytes of an allocation request, unsigned and signed, and exactly when there is one |
| `TurnCodec.AcceptedPackets` | deploy/containers/turn_smoke.py:31-39 | A packet is accepted if and only if its first 20 bytes are the header of a message with its own length and the expected transaction and its declared sizes chain from there to the end; its values are those at the offsets of the chain |
| `TurnCodec.ClippedIsLast` | deploy/containers/turn_smoke.py:36-39 | Every value has its declared length if and only if the last attribute ends inside the packet |
| `TurnCodec.ClippedIsAccepted` | deploy/containers/turn_smoke.py:37-38 | A packet whose only attribute declares a hundred bytes and has four is accepted with the four |
| `TurnCodec.RoundTrip` | deploy/containers/turn_smoke.py:17-40 | Reading back a header followed by encoded attributes that fit its 16-bit length gives its kind and the attributes without padding |
| `TurnCodec.DistinctKinds` | deploy/containers/turn_smoke.py:36-39 | With distinct kinds the decoded dictionary holds every attribute and nothing else |
| `TurnCodec.AttributesAligned` | deploy/containers/turn_smoke.py:17-18 | Encoded attributes end on a four-byte boundary |
| `TurnCodec.RequestLength` | deploy/containers/turn_smoke.py:21-27 | The declared length is the packet size minus 20, with or without the integrity attribute |
| `TurnCodec.SignedRequestReadBack` | deploy/containers/turn_smoke.py:21-40 | A signed request is read back as its attributes and the digest of everything before the integrity attribute |

## Left out

- HTTP handlers, headers, credentials, proxies and report schemas: parsing and plumbing around the modelled methods. `AdminState.job` appears only through the status it looks up; `source_network` and the report vocabulary appear as given values.
- Docker, systemctl, signing, restarting, encryption and free-disk checks: each is an arbitrary success or failure. Digests are injective, the keyed digest is any 20-byte value, and the decryptor's verdict is a parameter.
- File system details: ownership, symbolic and hard link checks on the managed files, fsync and temporary names. Whether a restore parent is private is a parameter. A replacement or removal is one durable step that may fail before or after taking effect.
- Clocks: readings are parameters; deadlines are arbitrary failures. Which statuses are older than a day is a parameter of a worker run.
- Identifier collisions: a new job identifier is assumed not to have been used before.
- Text formats: JSON text, TOML and the `[[package]]` split are not parsed. Documents are values without fractional numbers (those too large for a float are kept apart) and a lock file is its list of parsed blocks. The text of a journal is written out; its parser is only assumed to read it as the document it was written from.
- `origin` in `deploy/admin/schema.py`: any function that refuses the empty text and whose results are acceptable text and their own normal form.
- `data_version` of SQLite: a commit counter, with content changing only when it does. A database backup is one read of the database at an instant, and the link target and metadata of a path are each one read.
- Directory walks: a listing looks up every path of a finite universe, each at its own instant, in any order.
- Destination trees of a capture are maps from source paths to copies; in place writing to the staging directory is not modelled.
- Table rows of the collector are a sequence; SQL text, indices and the parsing of query strings (including the 18-digit limit on cursors) are not.
- Staging directories: that they are directories (normalised names, nothing below a file) and hold nothing but what was captured, with no source path inside the attachment folder, is assumed where `BackupCycle` starts from one; the database file SQLite writes for some rows is an arbitrary function of them.
- AdminHost.Host.Enqueue: the temporary file and link are one publishing step, since only the link is visible to the other process.
- Backup.Destination.Snapshot: retention, upload and cleaning of interrupted staging directories are not modelled.
- The size of the backlog of finished jobs in the queue directory: no bound is claimed.
- The public fields in the `state` view of an S3 connection, log access, the Rust crates, the installers, the desktop and web interface and the build tools: no protocol of this kind, or only easy properties.
