# A verified model of the job engine and document pipeline

The repository turns transcripts into publications. A database-backed engine runs two kinds of jobs under leases, and a
deterministic pipeline builds, validates and serializes the documents. This project models both in Dafny and proves what
they promise: for every schedule of workers, cancellers, recovery sweeps and crashes, and for every document, text, JSON
value and server behaviour.

## The parts

- **Content jobs** (`ContentJobs`, `ContentJobSource`, `ContentProtocol`, `ContentLeases`, `ContentBudget`,
  `ContentScheduler`, `ContentClock`, `ContentBudgetIff`, `WorkerLoop`). Guarded row writes as methods over shared tables,
  each proved against a transition function and in terms of the columns; a state machine whose steps are those functions;
  and theorems about all its runs: the event log replays to the table, a claim leases its job for the whole duration,
  leases exclude other claims and silence old holders, attempts and status changes are bounded, queued jobs are not passed
  over for long. `ContentClock` says which schedules configured workers
  produce: one clock that does not run back, one lease duration, retry delays. The claim loop of the workers is shown to
  make only schedules of these machines.
- **Publish jobs** (`PublishJobs`, `PublishRepository`, `PublishProtocol`, `PublishBudget`, `PublishClock`,
  `PublishBudgetIff`, `PublishLeases`). The same for the jobs that talk to the remote engine. The row write and its events
  are separate statements here, so an execution may die between them, or an insert may fail and lead to a last failing write.
  Proved: one remote job per publish job, the failure budget, a single recorded submission, lease safety, agreement of the
  two claim queries, no stranded job.
- **Creation** (`IdempotentCreate`, `SourceEligibility`, `JointJobs`, `JointRequests`). Idempotent creation with any number
  of interleaved callers, and both machines over one database: a publish snapshot stays equal to its completed source for
  ever, and the submission key of a job is that of its request.
- **Documents** (`HtmlTree`, `HtmlValidator`, `HtmlSchema`, `HtmlPlaces`, `HtmlAcceptance`, `HtmlSerializer`,
  `HtmlRoundTrip`, `HtmlDocumentParts`, `HtmlPrinting`, `HtmlReading`). The queue loop of the schema equals a recursive
  specification, and that the rules said of every place in the document; the serializer prints what the schema accepts,
  throws exactly for the reasons it has, and its output reads back as the nodes, field by field.
- **Table of contents** (`TocEntries`, `TocTree`, `TocForest`, `TocGeneration`, `TocMarkup`, `TocComposition`). Generation,
  validation by walking parents, forest building through shared mutable nodes, and composition: exactly when it succeeds,
  and that every link resolves then.
- **Retrying** (`RetryPolicy`, `RetryLoop`, `WaitLoop`). The HTTP retry loop and the wait for a remote job against an
  arbitrary server, clock and random source.
  Retry-After is that of section 10.2.3 of RFC 9110.
- **Encodings** (`JsonText`, `Canonical`, `CanonicalTies`, `CanonicalText`, `Fingerprints`, `Transcript`, `TranscriptRuns`,
  `TranscriptCounts`, `TranscriptStarts`, `SourceVersions`). Canonical JSON is injective, spelled as RFC 8259 spells it, and
  exactly how far it ignores key order; transcript normalization has exactly the normal forms as fixed points and identifies
  exactly the texts that read alike run by run; source versions are numbered one per content.

`Basics` holds the shared types.

Functions such as `Claimed`, `TargetOf` or `Controlled` tie the methods to the state machines and specifications. What they
mean is stated without them, in terms of columns, places and characters: `LeasedBeyond`, `Due`, `Leaves` and `EndsAs` in
the contracts of the two job machines, `Acceptable` and `Serializes` for documents, `ShowsAll` for what is read back,
`IsItem` and `IsSection` for composed nodes, `Spells` for JSON text.

## What turned out to be conditional

- **Fencing is by worker id.** Every guarded write asks for the worker id and an unexpired lease, not for a token of the
  claim. A worker process that runs two executions can claim a job again while its own earlier execution, whose lease
  was recovered, is still alive; the earlier one then writes under the new lease, from the counts it read long ago. The
  attempt limit, the bounds on status changes and on passing over queued jobs, the failure budget and the single recorded
  submission therefore hold on all schedules exactly when concurrency is at most one or the limit is one
  (`AttemptLimitIff`, `ChangesBoundedIff`, `PassedOverIff`, `FailureBudgetIff`, `OneSubmissionIff`). It makes no difference
  to any of them if only configured schedules are asked for: for every lease duration, poll interval and delay there is a
  failing one. Both concurrency settings default to one (src/platform/foundation/environment/index.ts:45-78).
- **A stage write of a publish job asks for ownership only** (`PublishLeases.HolderWrites`), so it can still succeed after
  the lease has run out (`LateStageWrite`), until somebody recovers the row.
- **An event insert that fails after its row write** sends the execution to its error handling with the copy it read
  long ago. At concurrency two or more it can then fail the next claim of its own worker, whatever the budget
  (`LateRescueFailsNewClaim`); as that write is never more than a failure, the budget theorems are not touched by it.
- **The remote submission key is made from the request's fingerprint**, although the parameter of its builder is named
  after the publish job's id. Publish jobs created from the same request under different idempotency keys share one remote
  job (`SameRequestSharesRemoteJob`, `TwoJobsOneRemoteJob`); different requests share none unless the hash collides
  (`DifferentRequestsDifferInKey`).
- **Canonical key order depends on the collation.** Members are sorted with `localeCompare`, which may tie different
  strings; tied keys keep their input order, so key order is ignored exactly when there are no ties
  (`KeyOrderIgnoredIff`), and for one value exactly when none of its objects holds tied keys (`OrderIgnoredIffTieFree`).
  Different values never share an encoding in either case.
- **A heading named like a reserved section** (`cover`, `table-of-contents`) is dropped by the validation, and its
  subheadings are then orphans (`GeneratedAcceptedIff`, `ReservedHeadingRefused`). Reserved sections themselves make no
  entries, so what they hold does not matter.
- **Ids are links**: the schema takes any trimmed id, but composing the contents list refuses a target that is not made of
  ASCII letters, digits, `_` and `-` (`ComposeGeneratedToc`).
- **A snapshot with an artifact id of more than 120 code units** is accepted at creation and refused before submission
  (`SnapshotPassesIff`, `LongIdsAcceptedThenRefused`).
- **Normalization keeps a blank before a line end**, and a line end does not count as a blank, so the comment that texts
  equal but for white space share a hash is wider than the code (`BlankBeforeLineEndMatters`). Which texts do share one is
  `SameHashIff`.
- **A Retry-After longer than the configured maximum delay or the remaining budget is not waited out** (`DelayFits`,
  `RetryAfterHonoured`).
- **Heading levels are checked in breadth-first order**, not in document order; the specification says the same.

## Model

| member | source | states |
|---|---|---|
| `ContentJobSource.DatabaseJobSource.AcquireNext` | src/infrastructure/workers/database-job-source.ts:90-172 | claims a row iff one is queued or due for a retry and not leased beyond now, takes an oldest such row, and makes exactly that row processing: one attempt more, the worker's lease until now plus the duration, the first start kept, every other column as it was, one event |
| `ContentJobSource.DatabaseJobSource.RenewLease` | src/infrastructure/workers/database-job-source.ts:174-205 | iff the caller has an unexpired lease on a processing row of its tenant, the lease runs until now plus the duration; every other column, row and the log stay |
| `ContentJobSource.DatabaseJobSource.MarkStage` | src/infrastructure/workers/database-job-source.ts:207-237 | under such a lease sets the stage; lease, attempts and all other columns, rows and the log stay; else nothing changes |
| `ContentJobSource.DatabaseJobSource.MarkCompleted` | src/infrastructure/workers/database-job-source.ts:239-299 | under such a lease stores the result, clears error, next attempt and lease, ends the job and logs it; else nothing changes |
| `ContentJobSource.DatabaseJobSource.ScheduleRetry` | src/infrastructure/workers/database-job-source.ts:301-365 | under such a lease the job waits for the given next attempt with the given error: lease cleared, attempts kept, one event, no other row; else nothing changes |
| `ContentJobSource.DatabaseJobSource.MarkFailed` | src/infrastructure/workers/database-job-source.ts:367-429 | under such a lease the job fails for good with the given error: lease cleared, attempts kept, one event, no other row; else nothing changes |
| `ContentJobSource.DatabaseJobSource.RecoverStaleJob` | src/infrastructure/workers/database-job-source.ts:456-550 | iff the row is processing under a lease that has run out: failed as exhausted iff its attempts reach the maximum, else retrying at the given time for the expired lease; lease cleared, attempts kept, one event, no other row |
| `ContentJobSource.DatabaseJobSource.Cancel` | src/infrastructure/repositories/drizzle-content-job-repository.ts:525-630 | cancels iff the job is in its tenant and queued or retrying; keeps attempts and lease columns, clears the result, logs one event, touches no other row; error answers leave both tables unchanged |
| `ContentJobSource.JobExecutor.ScheduleRetryOrFail` | src/application/workers/job-executor.ts:297-349 | without a lease nothing changes; else the job fails as exhausted iff the attempts of its claim reach the executor's or the policy's maximum, and otherwise retries after the jittered backoff of the attempt to come; a worker's cancellation is reported as such |
| `ContentJobSource.RunStaleRecovery` | src/application/workers/stale-job-recovery.ts:17-76 | the loop runs the sweep over the listed rows; the returned number is the number of events it logged |
| `ContentJobSource.SweepRecoversListed` | src/application/workers/stale-job-recovery.ts:26-46 | a listed row that is still processing under an expired lease becomes failed or retrying by its attempts; one that is not stays as it is |
| `ContentJobSource.SweepKeepsOthers` | src/application/workers/stale-job-recovery.ts:26-46 | a sweep changes no row it does not list |
| `ContentJobSource.SweepCountsStale` | src/application/workers/stale-job-recovery.ts:26-46 | one event per listed row that was still stale |
| `ContentProtocol.StepKeepsReplay` | src/infrastructure/workers/database-job-source.ts:90-550 | every step keeps the log a chain of allowed transitions whose last status is the row and whose acquisitions are the attempt count |
| `ContentProtocol.RunKeepsSound` | src/domain/content-jobs/transitions.ts:6-13 | event-log replay for every schedule: log and table agree, each step is in the transition policy, the lease columns are set together exactly while processing |
| `ContentJobs.PolicyIs` | src/domain/content-jobs/transitions.ts:6-13 | the policy allows exactly the seven listed status changes |
| `ContentProtocol.StepMovesRows` | src/infrastructure/workers/database-job-source.ts:174-523 | a step changes a row only by a holder's heartbeat or stage write or by one allowed transition, and never deletes it |
| `ContentProtocol.TerminalIsForever` | src/domain/content-jobs/transitions.ts:6-13 | no schedule changes any column of a completed, failed or cancelled job |
| `ContentLeases.LeaseIsExclusive` | src/infrastructure/workers/database-job-source.ts:174-205 | until a lease runs out the job stays with its worker on every schedule, unless the holder releases it, and nobody claims it |
| `ContentLeases.GrantIsExclusive` | src/infrastructure/workers/database-job-source.ts:125-205 | a claim, or a renewal under an unexpired lease, at instant t for d milliseconds leases the job until t + d, and on every following schedule before t + d the job stays processing for that worker with the attempt it was claimed with; a claim takes only due rows |
| `ContentLeases.ClaimEnabledIff` | src/infrastructure/workers/database-job-source.ts:97-123 | a claim can be made exactly of a queued or due row not leased beyond now, by a worker below its concurrency |
| `ContentLeases.TakenOverIsSilent` | src/infrastructure/workers/database-job-source.ts:239-429 | once a worker does not own a job any more, no write of its old executions takes effect on any run until its own worker id claims the job again |
| `ContentLeases.RunOutIsSilent` | src/infrastructure/workers/database-job-source.ts:239-429 | the same from the moment the lease has run out, taken over or not |
| `ContentLeases.FencedWrites` | src/infrastructure/workers/database-job-source.ts:239-429 | a worker's write changes nothing without its unexpired lease on the row, and with it changes exactly that row, to the column values its kind asks for; the retry decision is taken from the claimed attempts |
| `ContentLeases.UnfencedWrites` | src/infrastructure/workers/database-job-source.ts:456-550 | recovery changes exactly a row whose lease has run out, by its attempts, and cancelling exactly a queued or retrying row of the tenant; else nothing |
| `ContentBudget.UnsharedRunsStayWithin` | src/application/workers/job-executor.ts:297-349 | if no worker id claims a job while an execution of its own still runs it, attempts never exceed the maximum and waiting jobs stay strictly below it |
| `ContentBudget.SerialWorkersNeverShare` | src/application/workers/worker-loop.ts:50-110 | with at most one execution per worker id such claims cannot happen |
| `ContentBudgetIff.SharedClaimsOverrun` | src/application/workers/job-executor.ts:297-349 | for any maximum of two or more, concurrency two or more, lease duration and retry delays: a schedule with one monotone clock, that lease and those delays, that attempts a job once too often |
| `ContentBudgetIff.AttemptLimitIff` | src/application/workers/job-executor.ts:297-349 | the attempt limit holds on all schedules, and just so on all configured ones (monotone clock, one lease duration, the retry delays), iff concurrency is at most one or the maximum is one |
| `ContentBudget.StatusChangesBounded` | src/infrastructure/workers/database-job-source.ts:125-143 | on every schedule without shared claims, at any concurrency, a job changes status at most 2 * maxAttempts times after creation, strictly fewer while it is not over |
| `ContentBudgetIff.SharedClaimsChangeTooOften` | src/infrastructure/workers/database-job-source.ts:125-143 | on such a configured schedule with shared claims a job changes status 2 * maxAttempts + 1 times |
| `ContentBudgetIff.ChangesBoundedIff` | src/infrastructure/workers/database-job-source.ts:125-143 | the bound on status changes holds on all schedules, and just so on all configured ones, iff concurrency is at most one or the maximum is one |
| `ContentScheduler.QueuedJobsArePassedOverBoundedly` | src/infrastructure/workers/database-job-source.ts:97-143 | without shared claims a job still queued has been passed over by at most maxAttempts claims per job created no later than it |
| `ContentBudgetIff.PassedOverIff` | src/infrastructure/workers/database-job-source.ts:97-143 | that bound holds on all oldest-first schedules from reachable states, and just so on all configured ones, iff concurrency is at most one or the maximum is one |
| `PublishRepository.DatabasePublishJobSource.AcquireNext` | src/infrastructure/publish-jobs/database-publish-job-source.ts:30-126 | claims a row iff one is queued, due for a retry or a poll, and not leased beyond now; first by next attempt, else next poll, else creation, then by creation; lease until now plus the duration, one attempt more, all other columns and rows kept, one event |
| `PublishRepository.DatabasePublishJobSource.RenewLease` | src/infrastructure/publish-jobs/database-publish-job-source.ts:128-172 | iff the caller has an unexpired lease, it runs until now plus the duration; every other column, row and the log stay |
| `PublishRepository.DrizzlePublishJobRepository.ClaimNextDue` | src/infrastructure/repositories/drizzle-publish-job-repository.ts:303-377 | claims a row iff one is not over, due by its next attempt or, without one, its next poll, and not leased; first by next attempt, next poll, creation with nulls last; the same new row as the other claim |
| `PublishRepository.DrizzlePublishJobRepository.SetStage` | src/infrastructure/repositories/drizzle-publish-job-repository.ts:413-477 | changes the stage and logs one event iff the row is processing for the caller, lease expired or not; all other columns and rows stay |
| `PublishRepository.DrizzlePublishJobRepository.RecordSubmission` | src/infrastructure/repositories/drizzle-publish-job-repository.ts:479-560 | iff the caller has an unexpired lease: waiting for its next poll, with the remote id and state and no failures; lease cleared, other columns kept, two events |
| `PublishRepository.DrizzlePublishJobRepository.RecordRemoteWaiting` | src/infrastructure/repositories/drizzle-publish-job-repository.ts:562-626 | iff the caller has an unexpired lease: waiting for its next poll with one poll more and no failures; remote id kept, lease cleared, one event |
| `PublishRepository.DrizzlePublishJobRepository.RecordRetry` | src/infrastructure/repositories/drizzle-publish-job-repository.ts:628-690 | iff the caller has an unexpired lease: retrying at the given time with the error and one failure more; remote id and polls kept, lease cleared, one event, no other row; else nothing changes |
| `PublishRepository.DrizzlePublishJobRepository.Complete` | src/infrastructure/repositories/drizzle-publish-job-repository.ts:692-767 | iff the caller has an unexpired lease: completed with state and download and no failures, one poll more iff it was polled; lease and schedule cleared, one event, no other row |
| `PublishRepository.DrizzlePublishJobRepository.Fail` | src/infrastructure/repositories/drizzle-publish-job-repository.ts:769-839 | iff the caller has an unexpired lease: failed with error and last state, failures kept, one poll more iff it was polled; lease and schedule cleared, one event, no other row |
| `PublishRepository.DrizzlePublishJobRepository.MarkRemoteCancelled` | src/infrastructure/repositories/drizzle-publish-job-repository.ts:841-906 | iff the caller has an unexpired lease: cancelled with the remote state, failures kept, one poll more iff it was polled; lease and schedule cleared, one event, no other row |
| `PublishRepository.DrizzlePublishJobRepository.Cancel` | src/infrastructure/repositories/drizzle-publish-job-repository.ts:908-981 | cancels exactly a queued, waiting or retrying job of its tenant: schedule cleared, counters and outcome kept, one event, no other row |
| `PublishRepository.DrizzlePublishJobRepository.RecoverStaleLeases` | src/infrastructure/repositories/drizzle-publish-job-repository.ts:983-1090 | every selected row counts one failure more and becomes failed at the maximum, else waiting if a remote id is known, else retrying; each with one event, in order; no other row changes; a sweep below its limit leaves no expired lease |
| `PublishRepository.PublishJobExecutor.HandleFailure` | src/application/publish-jobs/publish-job-executor.ts:397-455 | without a lease nothing changes; else retries after the jittered backoff iff the error is retryable and the failures read at the start stay below the maximum, and fails otherwise, as exhausted iff the error was retryable |
| `PublishProtocol.RunKeepsSound` | src/infrastructure/repositories/drizzle-publish-job-repository.ts:479-1090 | on every schedule with crashes and failing inserts between a row write and its events: row shape, remote id agreement, one claim event per attempt; an execution's copy was read while its worker owned the row, and is the row up to lease, stage and clock as long as that attempt goes on |
| `PublishProtocol.StepMovesRow` | src/domain/publish-jobs/transitions.ts:6-14 | a step moves a row only along the policy, keeps its submission key and any remote id, and leaves ended rows alone |
| `PublishJobs.PolicyIs` | src/domain/publish-jobs/transitions.ts:6-14 | the policy allows exactly the twelve listed status changes |
| `PublishProtocol.StepCountsClaims` | src/infrastructure/publish-jobs/database-publish-job-source.ts:61-126 | a step appends a claim event for a job iff it is a claim of that job |
| `PublishBudget.RemoteJobNeverChanges` | src/application/publish-jobs/publish-job-executor.ts:129-255 | on every schedule all submissions of a job carry its one key, and its remote id once set never changes |
| `JointRequests.SameRequestSharesRemoteJob` | src/application/publish-jobs/create-publish-job.ts:56-84 | in every reachable state publish jobs of one source job with equal artifact id, checksum, size, format and mode, and options and metadata equal up to key order, carry one submission key, and the remote ids they record are equal, if no keys are tied |
| `JointRequests.DifferentRequestsDifferInKey` | src/application/publish-jobs/create-publish-job.ts:56-84 | jobs with one submission key agree in all of these columns, or the hash collides |
| `JointRequests.KeyIs` | src/application/publish-jobs/request-fingerprint.ts:34-61 | every reachable publish job submits under the fixed prefix and the hash of the JSON text of these eight named fields |
| `JointRequests.TwoJobsOneRemoteJob` | src/application/publish-jobs/publish-job-executor.ts:199-255 | for every artifact, all options and durations, a configured run on which two publish jobs end up with one remote id |
| `PublishBudget.UnsharedRunsStayWithin` | src/application/publish-jobs/publish-job-executor.ts:397-455 | if no worker id claims a job while an execution of its own can still write more to it than a failure: claims since the last recorded exchange = failures + 1 while processing, failures below the maximum, at most one recorded submission |
| `PublishBudget.SerialWorkersNeverShare` | src/application/publish-jobs/publish-worker-loop.ts:64-124 | with at most one execution per worker id claims are never shared |
| `PublishBudget.BudgetOfOneNeverShares` | src/application/publish-jobs/publish-job-executor.ts:397-455 | with a budget of one failure no claim is shared with an execution that can still write more than a failure |
| `PublishBudgetIff.SharedClaimsOverspend` | src/application/publish-jobs/publish-job-executor.ts:397-455 | for any larger budget, concurrency two or more, lease duration, poll interval and retry delays: a schedule with one monotone clock and those durations that leaves a retrying job with its budget used up |
| `PublishBudgetIff.SharedClaimsRecordTwice` | src/application/publish-jobs/publish-job-executor.ts:199-255 | and such a schedule on which one job records two submissions |
| `PublishBudgetIff.FailureBudgetIff` | src/infrastructure/repositories/drizzle-publish-job-repository.ts:585-690 | the failure budget holds on all schedules, and just so on all configured ones, iff concurrency is at most one or the budget is one |
| `PublishBudgetIff.OneSubmissionIff` | src/infrastructure/repositories/drizzle-publish-job-repository.ts:479-520 | a job records at most one submission on all schedules, and just so on all configured ones, iff the same condition holds |
| `PublishBudgetIff.LateRescueFailsNewClaim` | src/application/publish-jobs/publish-job-executor.ts:199-255 | at concurrency two or more, for any budget and durations, a configured schedule after which an execution whose event insert failed fails the next claim of its own worker |
| `PublishLeases.LeaseIsExclusive` | src/infrastructure/publish-jobs/database-publish-job-source.ts:67-87 | until a lease runs out the publish job stays with its worker on every schedule, unless the holder releases it, and nobody claims it |
| `PublishLeases.GrantIsExclusive` | src/infrastructure/publish-jobs/database-publish-job-source.ts:61-172 | a claim or a renewal under an unexpired lease at instant t for d milliseconds leases the job until t + d, and on every following schedule before t + d it stays processing for that worker with the attempt it was claimed with |
| `PublishLeases.ClaimEnabledIff` | src/infrastructure/publish-jobs/database-publish-job-source.ts:37-59 | a claim can be made exactly of a due row not leased beyond now, by a worker below its concurrency |
| `PublishLeases.FencedWrites` | src/infrastructure/repositories/drizzle-publish-job-repository.ts:443-450 | an ending write changes nothing without the unexpired lease, and with it exactly its row, to the values its kind asks for; the failure decision is taken from the failures read at the start |
| `PublishLeases.HolderWrites` | src/infrastructure/repositories/drizzle-publish-job-repository.ts:413-450 | a renewal needs the unexpired lease and moves only its end; a stage write needs ownership only and changes only the stage |
| `PublishLeases.UnfencedWrites` | src/infrastructure/repositories/drizzle-publish-job-repository.ts:908-1090 | recovery changes exactly a row whose lease has run out, cancelling exactly a queued, waiting or retrying row of the tenant |
| `PublishLeases.TakenOverIsSilent` | src/infrastructure/repositories/drizzle-publish-job-repository.ts:443-450 | once a worker does not own a job any more, no ending write, renewal or stage write of its old executions takes effect on any run until its own worker id claims the job again; their pending event inserts change no row and log only their own last write |
| `PublishLeases.RunOutIsSilent` | src/infrastructure/repositories/drizzle-publish-job-repository.ts:499-505 | once its lease has run out, no ending write or renewal of the old holder takes effect, taken over or not |
| `PublishLeases.LateStageWrite` | src/infrastructure/repositories/drizzle-publish-job-repository.ts:413-477 | a stage write does: for any lease duration, a configured schedule after which one succeeds any time after the lease has run out |
| `PublishLeases.ClaimQueriesAgree` | src/infrastructure/publish-jobs/database-publish-job-source.ts:37-57 | the two claim queries select the same reachable rows from creation on |
| `PublishLeases.NoStrandedJob` | src/infrastructure/repositories/drizzle-publish-job-repository.ts:313-328 | every job that is not over is claimable or recoverable from a definite time on, and an ended one is neither |
| `WorkerLoop.WorkerLoop.FillSlots` | src/application/workers/worker-loop.ts:50-110 | after each poll it forgets what has settled and starts what the poll claimed, in order, and nothing else; executions start below the concurrency; it stops exactly for want of a slot, of a due job or of polls |
| `WorkerLoop.WorkerLoop.Run` | src/application/workers/worker-loop.ts:24-120 | every round fills the slots so and then forgets what settled in the wait; any number of rounds is disciplined |
| `WorkerLoop.ContentLoopsAreLegal` | src/application/workers/worker-loop.ts:50-110 | acts whose part for each worker is that of a disciplined loop, and in which only ended executions settle, make a schedule of the content protocol, with its bound on live executions per worker id |
| `WorkerLoop.PublishLoopsAreLegal` | src/application/publish-jobs/publish-worker-loop.ts:64-124 | and the same for the publish protocol |
| `IdempotentCreate.JobTable.Insert` | src/infrastructure/repositories/drizzle-publish-job-repository.ts:168-231 | row and created event appear together, and only if no row has the request's tenant and key |
| `IdempotentCreate.JobTable.CreateOrGetIdempotent` | src/infrastructure/repositories/drizzle-publish-job-repository.ts:127-260 | undisturbed call: not found iff there is no source; a row got has the request's tenant, key and fingerprint; a conflict only if a row with both columns has another fingerprint; one row and event are created iff there is a source and no row has both columns |
| `IdempotentCreate.RunKeepsSound` | src/infrastructure/repositories/drizzle-content-job-repository.ts:140-248 | any interleaving keeps one row per key, one created event per row and every answer in agreement with the table |
| `IdempotentCreate.StepCreatesIff` | src/infrastructure/repositories/drizzle-publish-job-repository.ts:147-231 | in any interleaving a step creates a row and its event exactly if it is an insert and no row has the request's tenant and key; a check lets a call go on exactly then |
| `IdempotentCreate.AnswersAreOwn` | src/infrastructure/repositories/drizzle-publish-job-repository.ts:147-256 | over any run a row got has the caller's tenant, key and fingerprint, and a conflict means a row of its tenant and key with another fingerprint |
| `IdempotentCreate.OneJobPerKey` | src/infrastructure/repositories/drizzle-publish-job-repository.ts:147-231 | over any run all calls of a tenant and key that get a row get the same one, which is of that tenant, key and fingerprint, is the only such row and has one created event; conflicts had another fingerprint |
| `IdempotentCreate.FallbackFinds` | src/infrastructure/repositories/drizzle-publish-job-repository.ts:234-256 | after a unique violation the second read always finds the row |
| `SourceEligibility.SnapshotPassesIff` | src/application/publish-jobs/source-eligibility.ts:31-104 | an accepted snapshot passes the checks before submission iff its artifact id has at most 120 code units |
| `SourceEligibility.SnapshotIff` | src/application/publish-jobs/source-eligibility.ts:31-82 | a snapshot is created exactly from a completed job of the project with an inline styled artifact of 1 to 1048576 bytes whose size and lower-case SHA-256 are right; it copies the artifact and its trimmed id, or an id made of job, checksum and size if that is blank; each refusal for its reason |
| `SourceEligibility.PassesIff` | src/application/publish-jobs/source-eligibility.ts:84-104 | the checks before submission, limit by limit |
| `SourceEligibility.LongIdsAcceptedThenRefused` | src/application/publish-jobs/source-eligibility.ts:31-104 | every publishable artifact with a longer id, of any length, is accepted at creation and refused before submission |
| `SourceEligibility.FallbackIdFits` | src/application/publish-jobs/source-eligibility.ts:14-29 | a derived fallback id fits whenever the job id has at most forty |
| `SourceEligibility.Utf16Shorter` | src/application/publish-jobs/source-eligibility.ts:84-90 | a payload within the byte limit is within the same limit in code units |
| `JointJobs.RunKeepsSound` | src/application/publish-jobs/create-publish-job.ts:43-87 | content steps, publish steps and paused creations in any order keep every snapshot equal to its completed source |
| `JointJobs.SnapshotsStayTrue` | src/application/publish-jobs/publish-job-executor.ts:159-187 | in every reachable state a publish job's source is completed, in its tenant and project, and its artifact equals the snapshot |
| `JointJobs.InsertFindsSource` | src/infrastructure/repositories/drizzle-publish-job-repository.ts:134-144 | a creation that read its source still finds it when it inserts |
| `HtmlValidator.BreadthFirstIsLevelOrder` | src/schemas/publications/html-document-schema.ts:499-510 | the queue order is the order level by level |
| `HtmlValidator.QueueVisitsTree` | src/schemas/publications/html-document-schema.ts:499-677 | what the queue loop adds up is what recursion over the trees adds up, for any per-element summary |
| `HtmlSchema.ValidateTagAttributeApplicability` | src/schemas/publications/html-document-schema.ts:349-448 | the attribute checks, one by one, decide which attributes the tag may carry |
| `HtmlSchema.CheckElement` | src/schemas/publications/html-document-schema.ts:536-665 | the per-element checks decide the element predicate at its true depth and parent |
| `HtmlSchema.Traverse` | src/schemas/publications/html-document-schema.ts:509-677 | the queue loop finishes and knows the sum over all elements, or gives up only where the specification refuses |
| `HtmlSchema.EachElementOnce` | src/schemas/publications/html-document-schema.ts:499-677 | every element is visited exactly once, with its true depth and parent tag |
| `HtmlAcceptance.Validate` | src/schemas/publications/html-document-schema.ts:456-760 | accepts exactly the documents that meet the rules place by place: at most 2400 elements, depth 16, 180 children; attributes, parents and void elements by tag; known assets and safe URLs; ids unique, skip target and every internal link present; one main, not empty; landmarks; headings level by level without a skip |
| `HtmlAcceptance.AcceptsIff` | src/schemas/publications/html-document-schema.ts:456-760 | the validator's predicate by recursion and sums is equivalent to these rules over all places of the document |
| `HtmlPlaces.DocumentLocated` | src/schemas/publications/html-document-schema.ts:471-510 | the list the traversal works off holds every element's place once, in order, with its depth and its parent's tag |
| `HtmlSerializer.HtmlMarkupSerializer.SerializeNode` | src/application/rendering/html-markup-serializer.ts:265-284 | prints exactly the rendered markup, whose meaning BodyReadsBack gives, or refuses iff an id repeats or a URL is not allowed |
| `HtmlSerializer.HtmlMarkupSerializer.SerializeAttributes` | src/application/rendering/html-markup-serializer.ts:246-263 | prints the controlled attributes in order, escaped |
| `HtmlRoundTrip.DecodeEscapedText` | src/application/rendering/html-escaping.ts:18-20 | decoding escaped text gives the text back, and it holds no angle bracket |
| `HtmlRoundTrip.DecodeEscapedAttribute` | src/application/rendering/html-escaping.ts:22-24 | decoding an escaped attribute gives the value back, and it holds no quote and no angle bracket |
| `HtmlRoundTrip.ReadsPrinted` | src/application/rendering/html-markup-serializer.ts:246-284 | the model reader applied to printed markup recovers it up to merging adjacent text |
| `HtmlReading.SerializeDocumentParts` | src/application/rendering/html-markup-serializer.ts:327-361 | serializes iff there is one main, not empty, no id is printed twice and every printed href and src passes the policy for it; the body then reads back as its nodes |
| `HtmlPrinting.SerializesIff` | src/application/rendering/html-markup-serializer.ts:286-361 | the serializer's conditions by recursion and multisets are these conditions place by place |
| `HtmlPrinting.AcceptedDocumentsSerialize` | src/application/rendering/html-markup-serializer.ts:286-361 | a document the schema accepts never makes the serializer throw |
| `HtmlReading.BodyReadsBack` | src/application/rendering/html-markup-serializer.ts:114-284 | the body reads back, with nothing left over, as markup that shows the nodes: each element under its tag's name with exactly its non-empty fields under their attribute names in order, and its children one by one, adjacent texts run together |
| `HtmlReading.BodyDeterminesTree` | src/application/rendering/html-markup-serializer.ts:114-284 | equal bodies come from nodes alike in tag, id, every attribute field, role, label, classes and children, up to how texts are split, so no value can change the structure |
| `TocEntries.WalkUp` | src/application/publications/html-composer.ts:651-667 | the walk ends; it reports a cycle only if there is one, and otherwise reached a root or an orphan |
| `TocEntries.ValidateTocEntries` | src/application/publications/html-composer.ts:632-671 | keeps all entries but those that point at cover or table-of-contents, in order, and accepts iff their ids differ, every parent is one of them and no ring of parents exists; each error kind only for its reason |
| `TocEntries.ForestIff` | src/application/publications/html-composer.ts:636-667 | the map of parents is a forest iff the entries themselves are one |
| `TocEntries.RootedIsAcyclic` | src/application/publications/html-composer.ts:645-667 | if every walk reaches a root there is no cycle |
| `TocTree.Attach` | src/application/publications/html-composer.ts:693-699 | pushing onto shared nodes extends the children of one parent and of nobody else |
| `TocTree.BuildTocTree` | src/application/publications/html-composer.ts:673-703 | two loops give each id one node whose children are exactly its child entries in input order, or refuse iff a parent is missing |
| `TocTree.ChildrenPicked` | src/application/publications/html-composer.ts:683-699 | the children of an entry are all entries that name it as parent, in input order |
| `TocForest.ForestHoldsEachOnce` | src/application/publications/html-composer.ts:673-703 | the forest holds every entry exactly once, in whatever order parents and children come |
| `TocForest.TreesWellPlaced` | src/application/publications/html-composer.ts:673-703 | each entry hangs below its own parent, siblings in input order |
| `TocForest.ComposeToc` | src/application/publications/html-composer.ts:919-920 | validation and building together: refused, or heap nodes that show such a forest of the kept entries |
| `TocGeneration.CreateTocEntriesForSections` | src/application/publications/templates/cta-guide-template.ts:295-347 | entries follow the outline: unskipped level, nearest less deep entry as parent, exactly one level up |
| `TocGeneration.GeneratedAcceptedIff` | src/application/publications/html-composer.ts:632-671 | generated entries are accepted iff kept lines of the outline have distinct targets and, in every section, a kept heading of effective level three never follows a second-level heading of a reserved name |
| `TocGeneration.GeneratedIsForest` | src/application/publications/html-composer.ts:632-671 | with distinct ids and no heading of a reserved name nothing is dropped or refused |
| `TocGeneration.ReservedHeadingRefused` | src/application/publications/html-composer.ts:633-653 | in any document a second-level heading called cover with a kept heading below it makes validation fail |
| `TocComposition.TocNodeToListItem` | src/application/publications/html-composer.ts:705-732 | recursion over the shared nodes ends and builds the list item of the tree they show: link with id, title and trimmed target, nested list iff there are children; it refuses iff some target in it, cut at its end, is no safe name of 1 to 120 characters |
| `TocComposition.ListLinks` | src/application/publications/html-composer.ts:705-732 | the contents list links to the targets of exactly the entries of the forest |
| `TocComposition.OutlineComposed` | src/application/publications/html-composer.ts:855-895 | every target of the outline is the id of an element composed into main |
| `TocComposition.ComposeBodySection` | src/application/publications/html-composer.ts:855-880 | composes title and blocks in order, headings at the third or fourth level with their own ids, or refuses iff a block fails or gives no element |
| `TocComposition.ComposeGeneratedToc` | src/application/publications/html-composer.ts:905-971 | from sections to contents list and main: refused iff entries are refused, a kept target is no safe name, or a block cannot be composed; else the list shows the forest of the kept entries node by node, main shows the sections, the links are exactly the kept targets, and for trimmed ids every link lands inside main |
| `RetryPolicy.BackoffGrows` | src/application/workers/retry-policy.ts:21-41 | the first delay is the base, each further one twice the one before it, up to the cap; from any attempt to any later one backoff never shrinks |
| `RetryPolicy.JitterBounds` | src/application/workers/retry-policy.ts:21-41 | jitter stays within its ratio of the capped delay, rounded down |
| `RetryPolicy.JitterSwings` | src/application/workers/retry-policy.ts:21-41 | the draw moves the capped delay by 2 * draw - 1 times the ratio, rounded down; without a ratio it does not move |
| `RetryPolicy.DelayFits` | src/infrastructure/publish-engine/publish-engine-retry-policy.ts:23-34 | the wait is what the server asked for, or else the policy's own delay, exactly when that fits cap and budget, and the smaller of those two when it does not |
| `RetryLoop.RequestWithRetry` | src/infrastructure/publish-engine/http-publish-engine-client.ts:525-640 | every request but the last ended in a timeout, a transport error or status 408, 429, 502, 503 or 504; a submission without a key is sent at most once; a read or keyed submission that ends so is asked again unless attempts or budget are used up; none starts at or past the deadline, each wait is the resolved one; trailing throw iff no attempts are configured; within the budget in an honest world |
| `RetryLoop.RetryAfterHonoured` | src/infrastructure/publish-engine/publish-engine-retry-policy.ts:23-67 | seconds of a Retry-After, in whole milliseconds, or the time until its date, are waited out before the next request iff they fit under cap and budget, with exact sleeps |
| `WaitLoop.WaitForJob` | src/infrastructure/publish-engine/http-publish-engine-client.ts:466-523 | polls until the job ends, the wait is over, a poll fails or the caller cancels; each poll falls due one interval after the last answer or at the deadline; the answer is that of the last poll |
| `WaitLoop.PollsFit` | src/infrastructure/publish-engine/http-publish-engine-client.ts:510-521 | with exact sleeps no poll starts after the deadline |
| `WaitLoop.PollCount` | src/infrastructure/publish-engine/http-publish-engine-client.ts:510-521 | and there are at most two more polls than intervals fit into the wait |
| `JsonText.QuotePrefix` | src/application/publish-jobs/request-fingerprint.ts:24-31 | a quoted JSON string tells where it ends (section 7 of RFC 8259) |
| `JsonText.PrintInjective` | src/application/publish-jobs/request-fingerprint.ts:14-32 | no two JSON values print alike |
| `Canonical.CanonicalizePrintsNormal` | src/application/publish-jobs/request-fingerprint.ts:14-32 | canonicalizing is printing the value with every object sorted |
| `CanonicalText.CanonicalSpells` | src/application/publish-jobs/request-fingerprint.ts:14-32 | the encoding is the JSON text of the value character by character (escapes of section 7 of RFC 8259, no white space), members in key order, tied keys in input order |
| `Canonical.EncodingTellsApart` | src/platform/security/fingerprinting/index.ts:11-29 | equal encodings come only from values equal up to key order, whatever the collation |
| `Canonical.EncodingIff` | src/application/publish-jobs/request-fingerprint.ts:14-32 | without tied keys encodings are equal iff the values are equal up to key order |
| `Canonical.TiedKeysKeepOrder` | src/application/publish-jobs/request-fingerprint.ts:23-29 | two keys the collation ties keep their input order in the encoding |
| `Canonical.KeyOrderIgnoredIff` | src/platform/security/fingerprinting/index.ts:20-26 | key order is ignored for all values iff the collation has no ties between different keys |
| `CanonicalTies.OrderIgnoredIffTieFree` | src/platform/security/fingerprinting/index.ts:20-26 | for each value, all its reorderings encode alike iff no object inside it holds two tied keys |
| `Fingerprints.FingerprintTellsApart` | src/application/publish-jobs/request-fingerprint.ts:34-57 | equal fingerprints mean the same request or a hash collision |
| `Fingerprints.FingerprintIs` | src/application/publish-jobs/request-fingerprint.ts:34-57 | the fingerprint is the hash of that text of the eight named fields |
| `Fingerprints.FingerprintIgnoresKeyOrder` | src/application/publish-jobs/request-fingerprint.ts:34-57 | the same request in any key order has one fingerprint, barring tied keys |
| `Transcript.FixedIffNormal` | src/platform/security/hashing/index.ts:24-33 | a text is left alone iff it is in normal form, and normalizing twice is normalizing once |
| `Transcript.NormalizeIsNormal` | src/platform/security/hashing/index.ts:24-33 | no returns, no tabs, no double blanks, no three newlines, trimmed |
| `Transcript.SpaceIs` | src/platform/security/hashing/index.ts:24-33 | white space is the 25 code points that trim() and \s of ECMAScript take for it |
| `Transcript.HashOfStoredText` | src/platform/security/hashing/index.ts:10-16 | hashing raw or stored text agrees |
| `Transcript.SameHashForLineEnds` | src/platform/security/hashing/index.ts:24-33 | either kind of line end gives one hash |
| `TranscriptRuns.SameNormalIff` | src/platform/security/hashing/index.ts:20-33 | two texts have one normal form iff, read run by run and without white space around them, they have equal letters, blanks where there are blanks, and one line end where there is one and more where there are more |
| `TranscriptRuns.SameHashIff` | src/platform/security/hashing/index.ts:10-33 | two texts have one hash iff that holds, or their normal forms are a collision of the hash function |
| `TranscriptRuns.BlankBeforeLineEndMatters` | src/platform/security/hashing/index.ts:20-33 | white space can matter: two texts that differ in one blank before a line end have one hash only by a collision |
| `TranscriptCounts.CountsOrdered` | src/infrastructure/workers/deterministic-transcript-processor.ts:88-102 | on a non-empty normal form 1 <= paragraphs <= lines <= words <= characters |
| `TranscriptStarts.WordsAreStarts` | src/infrastructure/workers/deterministic-transcript-processor.ts:88-102 | words are as many as places where white space or nothing comes before a character that is none |
| `TranscriptStarts.LinesAreStarts` | src/infrastructure/workers/deterministic-transcript-processor.ts:88-102 | lines are as many as first such characters after a newline, or in the text |
| `TranscriptStarts.ParagraphsAreStarts` | src/infrastructure/workers/deterministic-transcript-processor.ts:88-102 | paragraphs are as many as first such characters after white space with two newlines, or in the text |
| `SourceVersions.DrizzleSourceVersionRepository.Create` | src/infrastructure/repositories/drizzle-source-version-repository.ts:73-150 | empty iff the normal form is; existing iff a row of the tenant and project has its hash, and then that is returned and nothing stored; else one row with the normal form, its hash, and the number of rows of the scope plus one; numbering stays 1 to n, one per hash |
| `SourceVersions.VersionsCountContents` | src/infrastructure/repositories/drizzle-source-version-repository.ts:78-131 | after any history a scope holds exactly the contents asked for, numbered 1 to their number |

## Left out

- Fastify routes, request schemas, logging, environment parsing, process signals and OpenAI or mock providers: plumbing without a deep property.
- SQL and row locking: a transaction is one atomic step, `skip locked` is not blocking, and failures of the database itself are modelled as a call that ends unavailable and, for publish jobs, as an event insert that fails.
- Identifiers, error codes, remote states and download metadata are naturals or opaque values, compared for equality only; prefix checks on ids are left out.
- `claim`, `markStage`, `complete`, `scheduleRetry` and `fail` of the content repository: no worker or API calls them.
- Heartbeat timers: a renewal is an independent step that may happen at any time while an execution lives; an execution may also die at any time.
- Executors between their writes: processors, prompts, rendering and the mapping of exceptions to retryable or permanent are arguments of the failure step.
- Usage accounting, result validation and sanitizing of error messages.
- ContentJobSource.RunStaleRecovery: the delays are an arbitrary function of the attempt number; the list of stale rows is an argument, because the query runs in another transaction; the protocol has one step per recovered row.
- PublishRepository.DrizzlePublishJobRepository.RecoverStaleLeases: the selected rows are an argument constrained to be an answer of the query.
- PublishRepository.DrizzlePublishJobRepository.RecordSubmission: the method runs its three statements in one go; the schedules in which a worker dies between them are those of the publish protocol.
- ContentScheduler.QueuedJobsArePassedOverBoundedly: under the hypothesis that no worker id shares a job with its own live execution, which serial workers meet; ids are naturals, and ties in creation time count as ahead.
- ContentBudgetIff.AttemptLimitIff: configured schedules may let a lease run out while its execution lives, as it does when a renewal fails; how often heartbeats and sweeps run is not part of them.
- ContentLeases.GrantIsExclusive: clock readings within the lease and renewals for the same duration are hypotheses, since nothing in the code bounds clock differences between workers.
- WorkerLoop.WorkerLoop.Run: the polls, their answers and what settles meanwhile are given series; sleeping, the recovery timer and the wait at shutdown are left out, and the stop signal is the end of the series.
- IdempotentCreate.OneJobPerKey: both repositories share the model; reading the source row is a step that may answer not found, and columns other than id, scope, key and fingerprint are left out.
- JointJobs.SnapshotsStayTrue: the snapshot columns are kept beside the publish row, as no later write of the repository touches them.
- Render options and publication metadata checks before submission.
- HTML field schemas (lengths, patterns, style tokens) and the URL policy: the URL policy is one predicate shared by validator and serializer, and values arrive trimmed.
- HtmlAcceptance.Validate: the last loop over head metadata only catches and ignores, so it is left out; issue messages and paths are a single verdict.
- HtmlReading.BodyReadsBack: the class attribute (class list plus style tokens) is an arbitrary function of the element, and `lang`, which the source's order names and nothing sets, is left out.
- The standalone page around the body (`serialize`, CSS, themes, the check for a contents nav by pattern).
- HtmlRoundTrip.ReadsPrinted: the reader is a model reader for the printed markup, not an HTML parser.
- TocComposition.ComposeGeneratedToc: blocks other than headings are composed by an arbitrary function that may fail, style tokens and the length limits of the schema are left out, and anchors and page numbers of entries are not part of the model.
- RetryLoop.RequestWithRetry: a Retry-After field arrives already read as absent, seconds, a date or unreadable; token acquisition is part of a request's duration.
- WaitLoop.WaitForJob: time does not run back in it, without which its loop need not end.
- Canonical.EncodingIff: JSON values only; `undefined`, non-finite numbers and negative zero, which the runtime prints like other values, are not part of the model, and strings have no lone surrogates.
- Fingerprints.FingerprintTellsApart: SHA-256 is an arbitrary function, so the claim, and those on submission keys and transcript hashes, are up to a collision of it.
- TranscriptCounts.CountsOrdered: characters are Unicode scalar values, of which there are no more than code units.
- SourceVersions.DrizzleSourceVersionRepository.Create: the fallback after a unique violation is left out, since the advisory lock makes each creation one step.
