# Verified models of the build and test infrastructure

The repository's server code is thin; its hard logic is in the tooling that builds
and tests it. That tooling is concurrent, keeps state across processes, and has to
survive being killed at any point. This project models the following parts in Dafny and
proves, for all inputs and all runs, what they are relied on for.

- **Build slots** (`BuildLease`, `BuildLeaseSafety`, `BuildLeaseTheorems`, `BuildLeaseChoice`,
  `BuildLeaseProgress`). Any number of
  runs share a pool of Cargo target directories through worktree, pool and target locks.
  The model is a step relation: each step is one system call or critical statement, every
  process may die between two steps, and children share the descriptors they inherit. A
  lock is held while any process has a descriptor of it, so the holders are read off the
  processes. Metadata, directories, files tagged with their writer, and interrupted
  removals are state.
- **Scheduler and database pools** (`Dispatch`, `DatabasePool`, `DatabaseOutcomes`, `FaultRun`,
  `FaultRefinement`, `FaultWindow`). The scheduler is
  a loop proved against a legality predicate on its log; the pool is a class proved
  against functions on values; `FaultRun` runs both as one transition system, because the
  pool's destructive reset is safe only under the scheduler's bound.
- **Actor batching** (`ActorBatch`, `ActorBatchReports`, `ActorBatchProgress`). The
  leader/follower protocol of `prepare_identity`, with every critical section a step.
- **Impact selector** (`Closure`, `NameStatus`, `LockFile`, `LockMeaning`, `LockImpact`,
  `LockImpactMeaning`). Worklist closure,
  the NUL-separated change reader, lock reference normalisation, and the analysis of a
  change to Cargo.lock that uses all of them.
- **Processes** (`Processes`, `ProcessSignals`). Spawn, release, cancel and close over
  several threads, with a signal handler that can run `cancel` inside any other call of its
  thread.
- **Test ownership** (`Ownership`, `OwnershipPartition`). The check that every discovered test has
  one owner, and the partition and counts that follow from its acceptance.
- **Redaction, ports, certificate health** (`Redaction`, `RedactionMeaning`, `Ports`, `Health`).

`Options`, `Sequences` and `Text` are shared helpers. Filesystem, Docker, SQL and process calls are
atomic actions that may fail; clocks, hashes, port availability and cancellation are
parameters or nondeterministic choices.

Four expected properties do not hold of the code as it is. Each is kept, with a concrete
witness and the exact condition:

- the reverse closure adds a member across an edge that has no dependency kind
  (`LockImpact.KindlessEdgeIsSelected`, `LockImpact.FinalClosure`);
- a handler that cancels inside its own thread's spawn misses that child
  (`Processes.InterruptedSpawnEscapes`, `Processes.CancelSeesEveryChild`);
- the module counts fall short of the discovered tests by exactly those that the runner's
  filter leaves out (`OwnershipPartition.CountsFallShort`, `OwnershipPartition.CountsAddUp`);
- a failed drop on the normal pool does not stop a call that begins before the error is on
  record, nor any call when its failure file cannot be written
  (`FaultWindow.WindowLetsCallThrough`, `FaultWindow.UnpublishedFailureIsForgotten`,
  `FaultWindow.FailedDropBlocksUnless`, `FaultRun.FailedDropQuarantinesIff`). A failed start
  or baseline, too, is remembered only once its failure file is written
  (`DatabasePool.StartFailureSticksIff`, `DatabasePool.BaselineIsPreparedOnce`).

## Model

| member | source | states |
|---|---|---|
| BuildLeaseSafety.KeepStep | hack/build_run.py:210-260 | every step of every process, including death, keeps the whole invariant of locks, metadata and contents |
| BuildLeaseTheorems.RegisteredContentsAreOwn | hack/build_run.py:210-260 | in every reachable state a slot registered to a worktree holds only files written under leases of that worktree |
| BuildLeaseTheorems.TornSlotsAreUnregistered | hack/build_run.py:230-252 | a removal cut short, of an evicted or retired slot, never leaves metadata through which the remains could be reused |
| BuildLeaseTheorems.LeaseSeesOwnFiles | hack/build_run.py:248-255 | a live lease's slot has no interrupted removal and only its own worktree's files |
| BuildLeaseTheorems.LeasesAreExclusive | hack/build_run.py:334-352 | two leases alive through any process that inherited them share neither worktree nor target |
| BuildLeaseTheorems.AcquisitionHoldsOneOrNone | hack/build_run.py:210-260 | an acquisition that returned holds exactly its target lock; one that raised, even after publishing its metadata, holds no target lock and not the pool lock |
| BuildLeaseTheorems.HeldOutsidePoolIsOwnOrUnregistered | hack/build_run.py:242-260 | a slot held outside a pool session has no metadata or the holder's own |
| BuildLeaseTheorems.OwnReadIsNeverStale | hack/build_run.py:225-229 | metadata read before the lock is tried and naming the reader is still true, and the lock is free |
| BuildLeaseTheorems.RankZeroIsNeverStale | hack/build_run.py:234-243 | a rank-0 choice still names the chooser and is held when it is taken |
| BuildLeaseTheorems.OneSlotPerWorktree | hack/build_run.py:218-254 | over every run with one pool size, no worktree is registered to two slots |
| BuildLeaseChoice.LeastRecentlyUsed | hack/build_run.py:234-239 | of the slots locked below the pool size an own one is taken, else an unregistered one, else one whose worktree is gone, and a living worktree loses its slot only if all are such; within its class the slot was used least recently and has the lowest index |
| BuildLeaseChoice.ScanIsComplete | hack/build_run.py:218-236 | every slot of the pool and every slot directory listed was locked, retired or held by somebody when tried, and only surplus slots are retired |
| BuildLeaseChoice.SkippedIsHeld | hack/build_run.py:226-236 | a slot is skipped only if another process holds it, and what is noted of a locked slot is what was read of it |
| BuildLeaseChoice.ReadsMetadata | hack/build_run.py:225-225 | the scan reads what is registered at that moment, before it tries the lock |
| BuildLeaseChoice.OwnSlotIsKept | hack/build_run.py:241-252 | a worktree's own slot stays registered from its choice to the lease and is not removed |
| BuildLeaseChoice.RemovalHoldsOnlyTargets | hack/build_run.py:244-252 | while slots are removed the pool lock is free and only the chosen and retired target locks are held |
| BuildLeaseChoice.RetiredSlotsAreGone | hack/build_run.py:249-258 | a retired slot is unregistered and gone from the disk before its lock is given up |
| BuildLeaseChoice.RemovalIsTorn | hack/build_run.py:167-207 | a removal that has begun counts as torn until it is complete, and then nothing of the slot is left |
| BuildLeaseChoice.LeaseIsReady | hack/build_run.py:253-255 | the slot handed out exists, belongs to the pool and is registered to the worktree |
| BuildLeaseChoice.LeaseIsStamped | hack/build_run.py:156-164 | publishing stamps the slot with the time of the lease and touches no other registration |
| BuildLeaseChoice.LeaseOutlivesRunner | hack/build_run.py:343-352 | both locks of a lease stay taken while a process it started lives, even after the runner died |
| BuildLeaseChoice.DeathLeavesTheDisk | hack/build_run.py:210-260 | a death releases the locks of that process and changes nothing on the disk |
| BuildLeaseChoice.WritesAreTagged | hack/build_run.py:343-347 | what a lease writes lies in its slot under its worktree |
| BuildLeaseChoice.DeletesItsOwn | hack/build_run.py:343-347 | a lease deletes what it likes of its own slot and nothing else |
| BuildLeaseChoice.UnwindingReleases | hack/build_run.py:256-260 | a failing acquisition closes one descriptor after the other and ends when it has none left |
| BuildLeaseChoice.AnythingMayFail | hack/build_run.py:217-260 | a process may die anywhere, an acquisition may raise anywhere in its try, and a removal may be cut short with any part of it done |
| BuildLeaseChoice.LeaseIsFree | hack/build_run.py:343-352 | a lease lets its commands start processes, write and delete as they like |
| BuildLeaseProgress.CrashesNeverWedgeThePool | hack/build_run.py:210-260 | from every reachable state without live processes, however the earlier ones died, a run of any worktree and pool size can acquire its lease |
| Dispatch.FirstRunnable | hack/t2.py:101-102 | the first queued case that is not a blocked instance case, or the end of the queue when all are |
| Dispatch.Fill | hack/t2.py:100-107 | stops with a free worker only when it found the run cancelled or every queued case is blocked, loses no case, and does nothing at all once the run was found cancelled |
| Dispatch.Submit | hack/t2.py:105-107 | hands exactly the case at the given place to a worker and keeps the fault flag true to what runs |
| Dispatch.Collect | hack/t2.py:115-120 | each completed case leaves the running set and is yielded, in any order, until one whose result raises ends the scheduler |
| Dispatch.Abandon | hack/t2.py:97-117 | after a raised result the executor waits for every case that still runs and yields none of them |
| Dispatch.GiveUp | hack/t2.py:108-113 | after cancellation every queued case is yielded without having started |
| Dispatch.Dispatch | hack/t2.py:92-120 | the loop terminates when cases do, every decision in its log was legal and obeyed the cancellation flag and the results, nothing is left running, and unless a result raised every invocation is yielded |
| Dispatch.YieldedOnce | hack/t2.py:108-120 | no invocation is yielded twice, or both yielded and lost to a raised result |
| Dispatch.NeverStartedNeverRan | hack/t2.py:108-112 | a case reported as cancelled before start neither ran before nor runs later |
| Dispatch.OnlyBlockedCasesAreOvertaken | hack/t2.py:101-107 | only an instance case can start after a later-queued one, and then only after one that is not an instance case |
| Dispatch.IdleOnlyWhenBlocked | hack/t2.py:98-114 | without cancellation a worker idles only while an instance case runs and only instance cases are queued |
| Dispatch.CancelStopsSubmission | hack/t2.py:100-107 | once the scheduler has found the run cancelled it starts nothing more |
| Dispatch.FlagIsObeyed | hack/t2.py:100-120 | nothing is started at a moment when the flag is set, and only results that do not raise are yielded |
| Dispatch.CancelledAreGivenUp | hack/t2.py:108-113 | everything queued when the run was found cancelled is yielded as cancelled before start, unless a result raises |
| Dispatch.GivenUpInOrder | hack/t2.py:109-112 | cases are given up in queue order and only under cancellation |
| Dispatch.ConcurrencyBound | hack/t2.py:99-107 | at every moment at most `jobs` cases run and at most one of them is an instance case |
| DatabasePool.PostgresCurrent | hack/t2_database.py:79-113 | starting or resetting keeps every cached name in the current generation; success means ready, clean and without sticky errors, and changes nothing when already ready |
| DatabasePool.TemplateCurrent | hack/t2_database.py:255-302 | preparing a baseline only adds databases and keeps the caches current |
| DatabasePool.CloneCurrent | hack/t2_database.py:165-182 | a clone is a new database of the current generation that no cache refers to |
| DatabasePool.BaseCurrent | hack/t2_database.py:165-182 | preparing what a disposable database is copied from only adds databases |
| DatabasePool.CopiedCurrent | hack/t2_database.py:165-182 | a created database is new, live and private, and a failing creation only uses up its name |
| DatabasePool.MakeCurrent | hack/t2_database.py:304-317 | a disposable database is new and private, and an empty one whose grant fails is dropped or leaves a recorded error |
| DatabasePool.DisposableCurrent | hack/t2_database.py:304-336 | entering a disposable database yields a private name only when no cleanup error is recorded |
| DatabasePool.ProvideCurrent | hack/t2_database.py:126-146 | entering `database` keeps caches current, hands out a name of the current generation, private unless shared, and dirties the pool only for a failing instance case |
| DatabasePool.DropCurrent | hack/t2_database.py:321-336 | dropping a case's own database leaves every cache current |
| DatabasePool.StartFailureSticksIff | hack/t2_database.py:93-110 | a failed start blocks every later call until a reset if and only if its failure file was written, and then changes nothing |
| DatabasePool.BaselineIsPreparedOnce | hack/t2_database.py:255-302 | a prepared baseline is handed out again unchanged, and a failed one is refused without another attempt if and only if its failure was recorded |
| DatabasePool.SharedDatabaseIsOne | hack/t2_database.py:128-135 | cases that reuse a profile get the same database |
| DatabasePool.SeedsAreCommitted | hack/t2_database.py:184-203 | tenants are prepared exactly when they were before or this call committed them, and the call succeeds exactly when all are |
| DatabasePool.SeedingIsIdempotent | hack/t2_database.py:184-192 | preparing the same tenants again needs no transaction and changes nothing |
| DatabaseOutcomes.ResetStartsOver | hack/t2_database.py:81-112 | a reset that succeeds starts a new generation on which nothing is remembered, not even recorded failures |
| DatabaseOutcomes.FailedResetIsStillDue | hack/t2_database.py:81-83 | a reset that fails stays due, and changes nothing but the server |
| DatabaseOutcomes.StartsWhenNeeded | hack/t2_database.py:93-113 | without a due reset recorded errors block, a ready server is used as it is, and otherwise a new generation is started |
| DatabaseOutcomes.TemplateOutcome | hack/t2_database.py:255-302 | a cached baseline is used, one that failed on record is refused, any other is built under a new name |
| DatabaseOutcomes.CloneOutcome | hack/t2_database.py:165-182 | a clone succeeds exactly if its baseline can be had and the copy succeeds |
| DatabaseOutcomes.ReuseOutcome | hack/t2_database.py:128-135 | a reusing case gets the shared database of its profile, cloned the first time |
| DatabaseOutcomes.OwnOutcome | hack/t2_database.py:136-146 | exactly when a case gets its own database, and what failing to get one leaves dirty or on record |
| DatabaseOutcomes.ReuseExit | hack/t2_database.py:134-135 | a case that shares its database leaves the pool as it is, and raises if it raised |
| DatabaseOutcomes.OwnExit | hack/t2_database.py:137-146 | a case passes exactly if it did not raise, its database was dropped and an instance case restored its roles; anything else makes a reset due for an instance case |
| DatabaseOutcomes.SeedFrame | hack/t2_database.py:184-203 | seeding touches the seeds of its own database only |
| DatabasePool.RunPool.EnsurePostgres | hack/t2_database.py:79-113 | the in-place method resets when dirty, then reports sticky errors, then starts, leaves exactly the pool the specification gives, and keeps the caches current |
| DatabasePool.RunPool.EnsureTemplate | hack/t2_database.py:255-302 | the in-place method computes the specified template result, with a sticky error per profile |
| DatabasePool.RunPool.CloneTemplate | hack/t2_database.py:165-182 | the in-place method computes the specified clone |
| DatabasePool.RunPool.OpenDisposable | hack/t2_database.py:304-317 | the in-place method computes the specified entry of a disposable database, including a failing grant |
| DatabasePool.RunPool.DropDatabase | hack/t2_database.py:321-336 | success forgets the database and its seeds, failure records a sticky error |
| DatabasePool.RunPool.OpenDatabase | hack/t2_database.py:126-146 | the in-place method computes the specified entry for each mode |
| DatabasePool.RunPool.EnterDatabase | hack/t2_database.py:126-146 | the whole entry keeps the caches current, yields a live name that is private unless shared, and succeeds on a pool with a recorded cleanup error only through a reset |
| DatabasePool.RunPool.CloseDatabase | hack/t2_database.py:137-146 | the in-place method drops, compares roles for instance cases, and marks the pool dirty on any failure of one |
| DatabasePool.RunPool.SeedTenants | hack/t2_database.py:184-203 | tenants are recorded as prepared only after their transaction committed |
| FaultRun.KeepStep | hack/t2.py:92-120 | every scheduler and case step, entering and leaving split into their statements outside the lock, keeps the joint invariant of log, phases and both pools |
| FaultRefinement.BeginningIsPostgres | hack/t2_database.py:126-127 | a call begins with the specified start of the pool its mode selects |
| FaultRefinement.EnteringIsProvide | hack/t2_database.py:136-139 | the statements of entering, one after the other, do what the specified entry does |
| FaultRefinement.SharingIsProvide | hack/t2_database.py:128-134 | the locked section of a reusing case does what the specified entry does |
| FaultRefinement.WorkingChangesRoles | hack/t2_fixtures.py:459-462 | a case at work may leave any roles, and its seeding is the specified one |
| FaultRefinement.LeavingIsExit | hack/t2_database.py:137-146 | the statements of leaving, one after the other, do what the specified exit does |
| FaultRefinement.EveryAnswerIsPossible | hack/t2_database.py:126-146 | no answer of the environment is excluded at any statement of a case |
| FaultRun.ResetIsExclusive | hack/t2_database.py:79-92 | in every run, when a reset of the fault pool is begun, whether or not it completes, no case is using that pool |
| FaultRun.OnlyBeginResets | hack/t2_database.py:126-146 | past its first postgres() a case neither begins nor completes a reset and lifts no quarantine |
| FaultRun.OnlyResetsDestroy | hack/t2_database.py:79-92 | a `postgres()` call changes the databases only by a reset that it began |
| FaultRun.NormalPoolIsNeverReset | hack/t2_fixtures.py:443-446 | the pool ordinary cases share is never dirty and never reset |
| FaultRun.FaultCaseStartsFromBase | hack/t2_database.py:126-146 | over every sequence of fault cases, each that gets a database starts from the role state its server generation started with |
| FaultRun.CachesAreCurrent | hack/t2_database.py:79-146 | in every reachable state all templates, shared and seeded names of both pools belong to the current generation |
| FaultRun.FailedDropQuarantinesIff | hack/t2_database.py:321-336 | the statement that records a failed drop, after the body or after a failing grant, quarantines the pool if and only if the case is an instance case, the failure file was written, or it was quarantined already; otherwise the next call goes ahead on the same server |
| FaultRefinement.LeavingQuarantinesIff | hack/t2_database.py:140-146 | leaving after a successful drop quarantines the pool if and only if it was so already, or an instance case raised or did not restore its roles |
| FaultRefinement.FailedEntryQuarantinesIff | hack/t2_database.py:136-146 | an instance case that fails to get its database quarantines the fault pool, unless it had not even read its roles |
| FaultRun.FailedDropBlocksUntilReset | hack/t2_database.py:321-336 | once a pool is quarantined no later `database` call gives a case a database, in any continuation, until a reset |
| FaultWindow.FaultWindowIsEmpty | hack/t2_database.py:321-336 | between the failing drop of an instance case and its record, no other instance case can begin |
| FaultWindow.FaultDropBlocksUntilReset | hack/t2_database.py:321-336 | on the fault pool a failing drop blocks every later call until a reset, from the moment it fails |
| FaultWindow.FailedDropBlocksUnless | hack/t2_database.py:321-336 | after a failing drop a later call gives its case a database, in any continuation, only if it began before the failure was on record or a reset came between |
| FaultWindow.CallBeginsIff | hack/t2_database.py:79-113 | a call on a running server passes without a reset if and only if the pool is not quarantined at that moment |
| FaultWindow.WindowLetsCallThrough | hack/t2_database.py:321-336 | a reachable run of two cases in which a call begun between the failing drop and its record gets a database although the failure is published |
| FaultWindow.UnpublishedFailureIsForgotten | hack/t2_database.py:327-333 | a reachable run in which the failure file cannot be written and a later call gets a database |
| ActorBatch.KeepStep | hack/t2_fixtures.py:256-327 | every step of every thread keeps the protocol invariant |
| ActorBatch.ItemsArePartitioned | hack/t2_fixtures.py:260-277 | each admitted item is exactly once in the queue, the single leader's batch, or finished, and a batch is never empty |
| ActorBatch.FailureIsSticky | hack/t2_fixtures.py:260-318 | after a failure, in every continuation, the queue is empty, nobody is admitted and the recorded error stays |
| ActorBatch.OneOriginalFailure | hack/t2_fixtures.py:309-327 | at most one job re-raises the original error and every other failed job reports that same error as a dependency |
| ActorBatchReports.ErrorIsTheCause | hack/t2_fixtures.py:309-318 | the recorded error is the cause of the one failure of the run, and its origin the leader that failed |
| ActorBatchReports.FailedExactly | hack/t2_fixtures.py:312-318 | after a failure a finished item carries the error exactly if it was not finished before |
| ActorBatchReports.FailureTakesTheRest | hack/t2_fixtures.py:312-318 | the failure takes the leader's batch and the whole queue, and spares what is finished |
| ActorBatchReports.FinishReports | hack/t2_fixtures.py:324-327 | a job is told success exactly if its item carries no error, its own error if it led, and else a blocked dependency |
| ActorBatchReports.AdmissionIff | hack/t2_fixtures.py:260-264 | a job arriving after the failure is turned away with the recorded error, any other is queued last |
| ActorBatchReports.TakesTheQueue | hack/t2_fixtures.py:276-277 | a leader takes the whole queue |
| ActorBatchReports.PublishFinishesTheBatch | hack/t2_fixtures.py:319-323 | publishing finishes the batch, and only it, and lets another lead |
| ActorBatchReports.AnythingMayHappen | hack/t2_fixtures.py:256-327 | any job may arrive, any waiting job may give up, and any preparation may fail for any cause |
| ActorBatchProgress.LeaderFinishes | hack/t2_fixtures.py:276-323 | an active leader can carry its batch through to publication while the others wait |
| ActorBatchProgress.LeaderMustFinish | hack/t2_fixtures.py:276-323 | in every run, whatever the other threads do and whether or not preparation fails, a leader has finished all it took within a bounded number of its own steps |
| ActorBatchProgress.WaitingIsJustified | hack/t2_fixtures.py:265-273 | while a job waits, somebody leads and can go on, or its own next look elects it |
| ActorBatchProgress.ItemMustFinish | hack/t2_fixtures.py:265-323 | in every run, whoever leads and however preparation ends, an admitted item is finished within a bounded number of leader steps, by the present leader or the next |
| ActorBatchProgress.SomebodyLeads | hack/t2_fixtures.py:265-273 | in every run, while an item waits and nobody leads, two steps of a waiting job that does not give up suffice for an election |
| ActorBatchProgress.NoItemIsStranded | hack/t2_fixtures.py:265-277 | from every reachable state a waiting job's item can be finished without any further arrival |
| Closure.Expand | hack/ci_impact.py:432-440 | takes in all edges of one node: production targets are selected and queued once, dev targets only collected |
| Closure.ClosureOf | hack/ci_impact.py:428-441 | terminates on cyclic graphs and returns exactly what production paths reach from the keys plus the direct dev targets of that |
| Closure.ClosureDistributes | hack/ci_impact.py:428-441 | the closure of a union of key sets is the union of the closures |
| Closure.ClosedContainsReached | hack/ci_impact.py:428-441 | any set closed under production edges contains everything reached from its members |
| NameStatus.ParseFields | hack/ci_impact.py:94-112 | the cursor loop accepts exactly the field lists that decode into well-formed records and returns their changes |
| NameStatus.ChangeByStatus | hack/ci_impact.py:106-112 | which path is before and which after, for each status letter |
| NameStatus.StatusForms | hack/ci_impact.py:99-100 | a status is A, D or M, or R or C with a percentage of one to three digits |
| NameStatus.RejectedPaths | hack/ci_impact.py:56-63 | empty and absolute paths, and paths with a NUL or a parent component anywhere, are rejected |
| NameStatus.AcceptedPaths | hack/ci_impact.py:56-63 | a relative path of ordinary components is accepted |
| NameStatus.AddUntracked | hack/ci_impact.py:116-119 | every non-empty untracked path is added, and any invalid one rejects |
| NameStatus.ChangedPaths | hack/ci_impact.py:91-122 | the reader accepts a stream if and only if it is a concatenation of well-formed records with valid untracked paths, and returns exactly their changes |
| NameStatus.PrintedStreams | hack/ci_impact.py:91-112 | a stream is the print of well-formed records exactly when its fields end empty and decode to them |
| NameStatus.PrintThenRead | hack/ci_impact.py:91-112 | decoding what was printed gives the printed records back, whatever the paths look like |
| LockFile.RequalifiedResolves | hack/ci_impact.py:491-510 | adding the resolved package's own version or source keeps the resolution, in any order of tables and with added tables that do not fit |
| LockFile.NoOtherFits | hack/ci_impact.py:494-501 | a reference that resolves among distinct tables leaves no room for an added table that fits it |
| LockMeaning.BareNameFits | hack/ci_impact.py:494-495 | a bare name fits every package of that name |
| LockMeaning.VersionFits | hack/ci_impact.py:495-496 | a version qualifier fits that version only |
| LockMeaning.SourceFits | hack/ci_impact.py:495-510 | a source qualifier fits that name, version and source only, where a git source may lack its commit fragment |
| LockMeaning.ResolvesIff | hack/ci_impact.py:495-501 | a reference resolves exactly if one table fits it, and then to that table |
| LockFile.VersionQualifierIff | hack/ci_impact.py:491-501 | the version qualifier keeps the resolution if and only if the version is one word |
| LockFile.FragmentlessQualifierIff | hack/ci_impact.py:504-510 | a git source without its commit fragment keeps the resolution if and only if no other '#' remains |
| LockFile.NormalizeDeps | hack/ci_impact.py:484-484 | resolves all references of a table, or rejects when one is unknown or ambiguous |
| LockFile.LockEntries | hack/ci_impact.py:477-488 | builds the normalised table of a lock file, or rejects it |
| LockFile.TableEntry | hack/ci_impact.py:482-486 | with distinct identities each table's entry is its own normalised value |
| LockMeaning.AllResolve | hack/ci_impact.py:484-484 | a table's dependencies normalise if every reference resolves |
| LockMeaning.DependenciesResolve | hack/ci_impact.py:484-484 | and only then, to what each one resolves to, none added and none lost |
| LockMeaning.LastTableWins | hack/ci_impact.py:482-486 | the entry of an identity is its last table, normalised |
| LockFile.OnlyAddedTablesChange | hack/ci_impact.py:477-510 | when a lock file only gains tables and re-qualifies references, and both files normalise, every changed key is an added one |
| LockMeaning.ChangedIff | hack/ci_impact.py:555-555 | a key counts as changed exactly if it is in one of the two maps only or has two values |
| LockMeaning.AddedTablesChange | hack/ci_impact.py:555-555 | when a file only gains tables, exactly the added ones count as changed |
| LockImpact.HitIsSeeded | hack/ci_impact.py:612-632 | a member has an edge of any kind into something changed exactly when the scan seeds it or test-seeds it |
| LockImpact.SeedsAreClosed | hack/ci_impact.py:403-413 | a production dependent of a seed is already a seed |
| LockImpact.FinalClosure | hack/ci_impact.py:635-635 | the final reverse closure yields exactly the members hit directly, plus those with a kindless edge to a seed |
| LockImpact.ClosureAddsNothingIff | hack/ci_impact.py:635-635 | the reverse closure adds nothing to the members hit directly if and only if every member with a kindless edge to a seed is itself hit |
| LockImpact.ResolvedChange | hack/ci_impact.py:601-609 | whether the production closure of a dependency contains a changed feature set or changed external lock entry |
| LockImpact.ScanKinds | hack/ci_impact.py:612-634 | succeeds iff every kind of the edge has one alias; then it seeds its member iff it has a kind other than dev and test-seeds it iff it has a dev kind |
| LockImpact.ScanMember | hack/ci_impact.py:600-634 | succeeds iff every dependency with a change below it is uniquely named, and gives one member's contribution to both seed sets |
| LockImpact.SelectedIn | hack/ci_impact.py:585-635 | succeeds iff that holds for every member, and then selects exactly the names of members hit directly or across a kindless edge |
| LockImpact.AnalyzeLockChange | hack/ci_impact.py:545-636 | the analysis of a change to Cargo.lock alone returns iff both lock files normalise and all changed dependencies are uniquely named, and then it has selected exactly the current member names that either graph chooses for the delta |
| LockImpactMeaning.SelectionIff | hack/ci_impact.py:545-636 | when every edge has a kind, the names selected are exactly the current ones that belong, in one revision, to a member with an edge to something from which a changed feature set or lock table is reached |
| LockImpactMeaning.ChangedTableSelects | hack/ci_impact.py:600-636 | a current member with an edge to an external package whose lock table was added, removed or altered is selected |
| LockImpactMeaning.HitIffAffected | hack/ci_impact.py:600-634 | being hit means having an edge, of any kind, to something from which a changed node is reached |
| LockImpactMeaning.ReachesIsDependsOn | hack/ci_impact.py:432-440 | production reachability is a walk along edges with a kind other than dev |
| LockImpactMeaning.DependentsIff | hack/ci_impact.py:403-413 | the dependents listed for a member are the members with an edge to it, with whether it has a kind other than dev |
| LockImpactMeaning.LastNodeWins | hack/ci_impact.py:581-581 | the features recorded for an identity are those of the last node listed with it |
| LockImpactMeaning.SameIdentityIff | hack/ci_impact.py:399-402 | members are known by their manifest, all other packages by name, version and source |
| LockImpactMeaning.AliasIff | hack/ci_impact.py:460-474 | an alias is a declared name that reads as the name used, or, if there is none, one that declares the package itself |
| LockImpact.ChosenMeansHit | hack/ci_impact.py:545-636 | when every edge has a kind, chosen means having an edge of any kind into something changed |
| LockImpact.KindlessEdgeIsSelected | hack/ci_impact.py:403-413 | a concrete graph in which the closure of the seeds selects, across an edge without a kind, a member that nothing changed below |
| LockImpact.ForwardIsProductionOnly | hack/ci_impact.py:428-441 | the forward closure of one node is exactly what its production edges reach |
| Processes.KeepStep | hack/t2_execution.py:170-348 | every step of every thread and handler keeps the registry invariant |
| Processes.LeavesOnlyStopped | hack/t2_execution.py:217-227 | in every reachable state a child that left the registry has been stopped |
| Processes.CancelSeesEveryChild | hack/t2_execution.py:315-326 | of what is registered after cancel's snapshot, the snapshot missed exactly the children started in cleanup mode afterwards and the one child whose spawn the cancelling handler interrupted |
| ProcessSignals.CancelSignalsEveryChild | hack/t2_execution.py:315-326 | when a cancellation returns it has signalled every child registered at its snapshot, and those it could not signal are on record |
| ProcessSignals.SnapshotIsTheRegistry | hack/t2_execution.py:317-318 | the snapshot is what was registered at that moment |
| ProcessSignals.OnlySeenAreSignalled | hack/t2_execution.py:319-321 | only children of the snapshot are signalled |
| ProcessSignals.ErrorsAreReal | hack/t2_execution.py:310-326 | a cancel error is on record exactly if a signal to that child failed, a stop error only if a stop did |
| ProcessSignals.SpawnPassesIff | hack/t2_execution.py:180-209 | a spawn gets past the check if and only if the run is not cancelled or the check is waived |
| ProcessSignals.StartedIsRegistered | hack/t2_execution.py:212-215 | a started child is registered at once |
| ProcessSignals.CancelledStays | hack/t2_execution.py:315-316 | the cancellation flag is never taken back |
| ProcessSignals.AnythingMayHappen | hack/t2_execution.py:207-326 | a handler may interrupt any call, and any start, stop or signal may fail |
| Processes.OtherThreadsAreSeen | hack/t2_execution.py:207-227 | a child of another thread outside cleanup mode is in cancel's snapshot or already stopped and released |
| Processes.CloseOutcome | hack/t2_execution.py:328-343 | when close returns, every registered child has a recorded stop error or was started in cleanup mode since close listed the children |
| Processes.CloseLeavesRecordedErrors | hack/t2_execution.py:328-343 | without such spawns a normal return leaves no child and an exceptional one only children with a recorded error |
| ProcessSignals.CloseDescends | hack/t2_execution.py:328-343 | whatever fails, each own step inside the loop of close brings its end nearer, and no other thread can put it off |
| ProcessSignals.CancelDescends | hack/t2_execution.py:319-326 | each signal leaves one child less to signal, and cancel returns to what it interrupted or to its caller |
| Processes.InterruptedSpawnEscapes | hack/t2_execution.py:207-215 | a reachable state in which a handler cancelling inside its own thread's spawn has missed the child |
| Ownership.DiscoveredNames | hack/t2_execution.py:80-94 | succeeds iff some suite of the build is present and all are listed, and returns exactly its ignored tests |
| Ownership.Owners | hack/t2_execution.py:109-111 | reports, in order, one owner name for each module that selects the test and each declared child prefix of it |
| Ownership.AcceptedIff | hack/t2_execution.py:108-119 | acceptance demands exactly one owner per test, one test per declared child, and the expected counts |
| Ownership.RelevantIff | hack/t2_execution.py:103-104 | the modules checked are those of the very build, or of its target when listings are given |
| Ownership.SelectorForms | hack/t2_model.py:95-99 | an empty selector takes everything, one ending in :: a prefix, any other one name |
| Ownership.IncludesIff | hack/t2_model.py:95-99 | a module selects what one of its selectors selects |
| Ownership.BelongsIff | hack/t2_execution.py:86-89 | a build's suites are those of its package and kind, and of its target if it names one |
| Ownership.CheckOwners | hack/t2_execution.py:108-119 | accepts exactly when every test has one owner, every declared prefix one child and every expected count holds |
| Ownership.ValidateOwnership | hack/t2_execution.py:101-119 | accepts exactly when the modules of the build, each scoped to its own listing when listings are given, pass the check |
| Ownership.ParseListing | hack/t2_execution.py:127-149 | rejects exactly incomplete, empty, miscounted or duplicate listings, and otherwise returns exactly one case per matching ignored test the module selects, with the build, binary and executable it came from |
| Ownership.DistinctByLength | hack/t2_execution.py:148-148 | comparing the number of distinct identities with the number of cases detects exactly the duplicates |
| Ownership.IdTellsFeaturesApart | hack/t2_execution.py:48-50 | case identities of one target differ in feature list or name |
| Ownership.FeaturesSplitBack | hack/t2_execution.py:48-50 | the feature list in an identity holds the features in order, separated by commas |
| OwnershipPartition.OneKindOfOwner | hack/t2_execution.py:108-112 | a checked test is selected by one module and is no child, or is one child and selected by none, whichever listing each module has |
| OwnershipPartition.ListingsAreDisjoint | hack/t2_execution.py:127-149 | no checked test is selected by two modules, each in its own listing, so their listings share none |
| OwnershipPartition.ScopedFits | hack/t2_execution.py:103-107 | in both modes what an accepted check scoped is what the modules parse from their own documents |
| OwnershipPartition.TargetListingsAreDisjoint | hack/t2_execution.py:101-119 | with a listing per feature set, acceptance for a module's own build makes its listing disjoint from every other module's of the target |
| OwnershipPartition.SelectedIsNoChild | hack/t2_model.py:95-99 | a checked test is a declared child exactly when no module selects it |
| OwnershipPartition.CoverageIff | hack/t2_execution.py:101-149 | listings and children cover all checked tests if and only if the runner's filter leaves out nothing that a module selects |
| OwnershipPartition.CountsAddUp | hack/t2_execution.py:101-149 | listed cases plus children plus the tests the filter left out equal the number of tests checked, so the first two alone do iff the filter leaves out nothing selected |
| OwnershipPartition.BuildCountsAddUp | hack/t2_execution.py:101-149 | without separate listings, all case counts plus all declared children equal the number discovered iff the filter matches every test that is not a child |
| OwnershipPartition.CountsFallShort | hack/t2_execution.py:140-149 | an accepted listing, parsed without complaint, whose counts fall short by one filtered test |
| Redaction.EscapedAppend | hack/candidate_runtime.py:220-224 | JSON string escaping is a homomorphism over concatenation |
| Redaction.EncodedContains | hack/candidate_runtime.py:220-224 | a substring of the text is, escaped, a substring of its encoding |
| Redaction.CallbackIsEncoded | hack/candidate_runtime.py:222-222 | searching the encoding for a callback parameter is searching the text |
| Redaction.SafeHasNoSecret | hack/candidate_runtime.py:220-224 | accepted evidence contains no non-empty secret and no callback parameter, and its encoding contains no secret |
| RedactionMeaning.PlainEvidenceIff | hack/candidate_runtime.py:220-224 | plain text with plain secrets passes exactly if it contains no callback parameter and no secret |
| Redaction.ReplaceRemoves | hack/t2_processes.py:82-82 | a replacement removes its target and brings in no other text, for texts of which no occurrence can touch a copy of the replacement |
| RedactionMeaning.ReplaceIsRejoin | hack/t2_processes.py:82-82 | replacing cuts the text at the leftmost occurrences that do not overlap and joins the pieces with the replacement |
| RedactionMeaning.EscapeReadsBack | hack/t2_processes.py:82-82 | every character is escaped, in printable ASCII, as something that reads back as it |
| RedactionMeaning.EscapeForms | hack/t2_processes.py:82-82 | two characters for the seven escapes JSON names, printable ASCII as itself, anything else as four-digit groups |
| Redaction.DistinctiveSecretsAreGone | hack/t2_processes.py:80-82 | after all passes, in any order of equally long secrets, every secret that cannot touch a copy of the replacement is gone, plain and escaped |
| Redaction.LongestGoesFirst | hack/t2_processes.py:80-82 | a secret longer than all others is replaced before any of them |
| Redaction.PassReplacesBoth | hack/t2_processes.py:81-82 | a pass replaces the secret as it is and as JSON escapes it, and skips an empty one |
| Redaction.UntouchedIsKept | hack/t2_processes.py:80-82 | text in which no secret occurs passes the replacement loop unchanged |
| Redaction.RedactSecrets | hack/t2_processes.py:80-82 | the loop performs one pass per secret, longest first |
| Redaction.Sanitized | hack/t2_processes.py:77-91 | the result is the withheld text or contains no non-empty secret, whatever the token patterns do, and only unsafe text is withheld |
| Ports.ProbeVisitsEachPairOnce | hack/t2_environment.py:334-337 | the modular probe meets every even pair of 20000..59999 at exactly one offset |
| Ports.ProbeGoesRound | hack/t2_environment.py:334-336 | the probe starts at the pair its seed names and goes on pair by pair, round the end |
| Ports.AllocationKeepsValid | hack/t2_environment.py:333-341 | an allocation keeps all pairs well-formed and pairwise disjoint and gives only bindable ports |
| Ports.Registry.HostPorts | hack/t2_environment.py:308-342 | a registered project keeps its pair or is told it is occupied; another gets the first usable pair of its probe, or fails only when every pair is used or unavailable |
| Ports.Registry.Release | hack/t2_environment.py:319-322 | removes exactly the project's pair |
| Ports.HistoryKeepsValid | hack/t2_environment.py:308-342 | over every history of allocations and releases the registered pairs are well-formed and pairwise disjoint |
| Ports.AllocationIsStable | hack/t2_environment.py:323-332 | a project keeps its pair through any history that does not release it, and a repeat allocation returns it |
| Health.SaturationIsHarmlessIff | apps/server/src/agent_pki.rs:178-192 | for every i64 requirement, saturation changes no level for any expiry and clock if and only if the requirement is below the maximum less 30 days |
| Health.AcceptedLifetimesAreHarmless | apps/server/src/agent_pki.rs:33-41 | for every accepted lifetime the level is the one exact integers give |
| Health.AcceptedLifetimes | apps/server/src/agent_pki.rs:33-41 | the standard lifetime is 365 days, and a development one is accepted from 1 to 3650 |
| Health.ReadyIffLifetimeFits | apps/server/src/agent_pki.rs:148-153 | issuance is ready exactly when expiry minus now is at least the lifetime |
| Health.LevelsAreIntervals | apps/server/src/agent_pki.rs:178-192 | each level is an exact interval of the time left, in whole lifetimes and days |
| Health.LevelOnlyWorsens | apps/server/src/agent_pki.rs:178-192 | the level only worsens as the clock advances |
| Health.Report | apps/server/src/agent_pki.rs:155-176 | the loop emits one report per maximal stretch of equal levels |
| Health.LastReportIsCurrent | apps/server/src/agent_pki.rs:159-167 | the last report is always the current level |
| Health.UnreadableClockIff | apps/server/src/agent_pki.rs:161-164 | the level is clock_unavailable exactly when the clock cannot be read |
| Health.LastReportFollowsClock | apps/server/src/agent_pki.rs:159-167 | the last report says so after an unreadable clock, and gives the level of the moment after a readable one |
| Health.EachLevelIsReportedOnce | apps/server/src/agent_pki.rs:155-176 | an available clock that does not go back makes the loop emit each level at most once, worse after better |

## Left out

- Explicit targets outside the pool, lock-path coalescing of case and Unicode variants, symlink, ownership and identity checks of the build runner: any failure of such a check is the model's `Raise` step, and the directory listing of a scan is a snapshot.
- BuildLeaseTheorems.OneSlotPerWorktree: states the property for a fixed pool size only; with varying sizes, and a command that deletes its own target directory, a worktree's registration can fall outside a later scan.
- Signals and exit codes of `run_child`: a death of any process at any point subsumes them for the lease.
- FaultRun.KeepStep: three pairs of statements are one step each because nothing another case does can fall between them with effect: an instance case reading the role state and its next `postgres()`, writing a failure file and assigning the error, and an instance case assigning its error and marking the pool dirty.
- FaultRun.NormalPoolIsNeverReset: is about the cases of a run; the cleanup after the last case resets both environments outside the pools (hack/t2_fixtures.py:85-95).
- DatabasePool.RunPool.EnsureTemplate: the second `postgres()`, inside the `try`, is taken to find what the first one found; a cleanup error that another thread records in between is also remembered as a failure of that baseline, on a pool that is then blocked anyway.
- Template properties and coordinates, grants, cost records and connection sampling of the database pool: SQL whose failure is a parameter; a database name stands for a fresh UUID.
- ActorBatch.OneOriginalFailure: at most one, not exactly one, because a leader whose own item finished in an earlier batch does not re-raise; an asynchronous exception between election and the `try` is not modelled.
- The contents of an actor batch (credentials, cached principals, the preparation helper).
- NameStatus.ChangedPaths: returns a set; the final sort and the UTF-8 decoding of git's output are not modelled.
- LockFile.LockEntries: the sorted list of resolved references is a multiset, all other fields of a table are one text.
- LockImpact.AnalyzeLockChange: covers changes of Cargo.lock alone; manifest differences, inherited workspace dependencies and the list of reasons are not modelled.
- Impact selection by path patterns, the registry snapshot and control changes: table lookups.
- Processes.KeepStep: a second signal arriving while a handler runs, the explicit extra `stop` in `run`, and the `dependency` check (a further reason to refuse a spawn) are not modelled; only a completed or failed stop is visible, not its signals and timeouts.
- Ownership.ParseListing: returns the cases in document order; the final sort by identity, and malformed documents that are not dictionaries, are not modelled.
- Ownership.ValidateOwnership: module identities are taken to be distinct, as keys of the registry are.
- Redaction.Sanitized: the two token patterns are one arbitrary function on text, so nothing is claimed about which tokens they remove.
- Ports.Registry.HostPorts: the JSON file, its lock and the hash of the project name are not modelled; a port's availability does not change during one call.
- Health.Report: sleeping and cancellation are the end of the sequence of clock readings.
- Docker, Compose, nginx, OpenSSL, step-ca, S3, Keycloak and PostgreSQL driving, the end-to-end scenarios, the gate runner, gateway rendering, and the remaining server modules: plumbing around tools and crates that are not part of this model.
