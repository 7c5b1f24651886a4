/** The content_jobs row, the job_events log and the guarded writes that workers, cancellers and recovery apply. */
module ContentJobs {
  import opened Basics

  datatype Status = Queued | Processing | Retrying | Completed | Failed | Cancelled

  datatype Stage = AtQueued | NormalizingTranscript | CalculatingStatistics | AtCompleted | AtFailed

  datatype ErrorCode = MaxAttemptsExceeded | LeaseExpired | WorkerCancelled | Reported(code: nat)

  /** The part of a stored result that publishing reads. */
  datatype RenderArtifact = RenderArtifact(
    artifactId: string, styledHtml: bool, inlineUtf8: bool, payload: string, byteSize: int, checksum: string)

  datatype JobResult = JobResult(renderArtifact: Option<RenderArtifact>)

  datatype Job = Job(
    tenant: TenantId, project: ProjectId, status: Status, stage: Stage, attemptCount: nat,
    result: Option<JobResult>, errorCode: Option<ErrorCode>,
    leaseOwner: Option<WorkerId>, leaseExpiresAt: Option<Time>, heartbeatAt: Option<Time>,
    nextAttemptAt: Option<Time>, createdAt: Time, startedAt: Option<Time>, completedAt: Option<Time>,
    updatedAt: Time)

  datatype EventType =
    JobCreated | LeaseAcquired | JobCompleted | RetryScheduled | JobFailed | JobCancelled | JobLeaseExpired

  datatype Event = Event(job: JobId, eventType: EventType, prior: Option<Status>, next: Status, at: Time)

  datatype Db = Db(jobs: map<JobId, Job>, events: seq<Event>)

  /** The table of allowed status changes. */
  predicate TransitionAllowed(from: Status, to: Status) {
    match from
    case Queued => to.Processing? || to.Cancelled?
    case Processing => to.Completed? || to.Retrying? || to.Failed?
    case Retrying => to.Processing? || to.Cancelled?
    case _ => false
  }

  /** The status changes there are. */
  const STATUS_CHANGES: set<(Status, Status)> := {
    (Queued, Processing), (Queued, Cancelled), (Processing, Completed), (Processing, Retrying), (Processing, Failed),
    (Retrying, Processing), (Retrying, Cancelled)}

  lemma PolicyIs(from: Status, to: Status)
    ensures TransitionAllowed(from, to) <==> (from, to) in STATUS_CHANGES
  {
  }

  predicate Terminal(s: Status) {
    s.Completed? || s.Failed? || s.Cancelled?
  }

  function NewJob(tenant: TenantId, project: ProjectId, now: Time): Job {
    Job(tenant, project, Queued, AtQueued, 0, None, None, None, None, None, None, now, None, None, now)
  }

  /** SQL comparison with a null lease expiry is never true. */
  predicate Expired(j: Job, now: Time) {
    j.leaseExpiresAt.Some? && j.leaseExpiresAt.value <= now
  }

  predicate Claimable(j: Job, now: Time) {
    && (j.status.Queued? || (j.status.Retrying? && j.nextAttemptAt.Some? && j.nextAttemptAt.value <= now))
    && (j.leaseExpiresAt.None? || j.leaseExpiresAt.value <= now)
  }

  /** The fence in front of every write of a worker: its own unexpired lease. */
  predicate Holds(j: Job, worker: WorkerId, now: Time) {
    && j.status.Processing?
    && j.leaseOwner == Some(worker)
    && j.leaseExpiresAt.Some? && j.leaseExpiresAt.value > now
  }

  function Claimed(j: Job, worker: WorkerId, leaseMs: int, now: Time): Job {
    j.(status := Processing, stage := NormalizingTranscript, attemptCount := j.attemptCount + 1,
       startedAt := if j.startedAt.Some? then j.startedAt else Some(now),
       leaseOwner := Some(worker), leaseExpiresAt := Some(now + leaseMs), heartbeatAt := Some(now), updatedAt := now)
  }

  function Renewed(j: Job, leaseMs: int, now: Time): Job {
    j.(leaseExpiresAt := Some(now + leaseMs), heartbeatAt := Some(now), updatedAt := now)
  }

  function Released(j: Job, status: Status, stage: Stage, nextAttemptAt: Option<Time>, now: Time): Job {
    j.(status := status, stage := stage, leaseOwner := None, leaseExpiresAt := None, heartbeatAt := None,
       nextAttemptAt := nextAttemptAt, updatedAt := now)
  }

  function CompletedAs(j: Job, result: JobResult, now: Time): Job {
    Released(j, Completed, AtCompleted, None, now).(result := Some(result), completedAt := Some(now), errorCode := None)
  }

  function RetriedAt(j: Job, code: ErrorCode, nextAttemptAt: Time, now: Time): Job {
    Released(j, Retrying, AtFailed, Some(nextAttemptAt), now).(result := None, completedAt := None, errorCode := Some(code))
  }

  function FailedWith(j: Job, code: ErrorCode, now: Time): Job {
    Released(j, Failed, AtFailed, None, now).(result := None, completedAt := Some(now), errorCode := Some(code))
  }

  function Recovered(j: Job, maxAttempts: nat, nextAttemptAt: Time, now: Time): Job {
    if j.attemptCount >= maxAttempts
    then Released(j, Failed, AtFailed, None, now).(completedAt := Some(now), errorCode := Some(MaxAttemptsExceeded))
    else Released(j, Retrying, AtFailed, Some(nextAttemptAt), now).(completedAt := None, errorCode := Some(LeaseExpired))
  }

  function CancelledBy(j: Job, now: Time): Job {
    j.(status := Cancelled, stage := AtFailed, completedAt := Some(now), result := None, updatedAt := now)
  }

  /** One transaction: a row replaced and one event appended. */
  function Logged(db: Db, id: JobId, j: Job, eventType: EventType, now: Time): Db
    requires id in db.jobs
  {
    Db(db.jobs[id := j], db.events + [Event(id, eventType, Some(db.jobs[id].status), j.status, now)])
  }

  function Create(db: Db, id: JobId, tenant: TenantId, project: ProjectId, now: Time): Db {
    Db(db.jobs[id := NewJob(tenant, project, now)], db.events + [Event(id, JobCreated, None, Queued, now)])
  }

  function Acquire(db: Db, id: JobId, worker: WorkerId, leaseMs: int, now: Time): Db
    requires id in db.jobs
  {
    Logged(db, id, Claimed(db.jobs[id], worker, leaseMs, now), LeaseAcquired, now)
  }

  predicate HeldIn(db: Db, tenant: TenantId, id: JobId, worker: WorkerId, now: Time) {
    id in db.jobs && db.jobs[id].tenant == tenant && Holds(db.jobs[id], worker, now)
  }

  function Renew(db: Db, tenant: TenantId, id: JobId, worker: WorkerId, leaseMs: int, now: Time): Db {
    if HeldIn(db, tenant, id, worker, now)
    then db.(jobs := db.jobs[id := Renewed(db.jobs[id], leaseMs, now)]) else db
  }

  function MarkStage(db: Db, tenant: TenantId, id: JobId, worker: WorkerId, stage: Stage, now: Time): Db {
    if HeldIn(db, tenant, id, worker, now)
    then db.(jobs := db.jobs[id := db.jobs[id].(stage := stage, updatedAt := now)]) else db
  }

  function MarkCompleted(db: Db, tenant: TenantId, id: JobId, worker: WorkerId, result: JobResult, now: Time): Db {
    if HeldIn(db, tenant, id, worker, now)
    then Logged(db, id, CompletedAs(db.jobs[id], result, now), JobCompleted, now) else db
  }

  function ScheduleRetry(db: Db, tenant: TenantId, id: JobId, worker: WorkerId, code: ErrorCode, nextAttemptAt: Time, now: Time): Db {
    if HeldIn(db, tenant, id, worker, now)
    then Logged(db, id, RetriedAt(db.jobs[id], code, nextAttemptAt, now), RetryScheduled, now) else db
  }

  function MarkFailed(db: Db, tenant: TenantId, id: JobId, worker: WorkerId, code: ErrorCode, now: Time): Db {
    if HeldIn(db, tenant, id, worker, now)
    then Logged(db, id, FailedWith(db.jobs[id], code, now), JobFailed, now) else db
  }

  predicate StaleIn(db: Db, tenant: TenantId, id: JobId, now: Time) {
    id in db.jobs && db.jobs[id].tenant == tenant && db.jobs[id].status.Processing? && Expired(db.jobs[id], now)
  }

  function Recover(db: Db, tenant: TenantId, id: JobId, maxAttempts: nat, nextAttemptAt: Time, now: Time): Db {
    if StaleIn(db, tenant, id, now)
    then Logged(db, id, Recovered(db.jobs[id], maxAttempts, nextAttemptAt, now), JobLeaseExpired, now) else db
  }

  predicate CancellableIn(db: Db, tenant: TenantId, id: JobId) {
    id in db.jobs && db.jobs[id].tenant == tenant && TransitionAllowed(db.jobs[id].status, Cancelled)
  }

  /** Cancelling any other status is an error that leaves the tables alone. */
  function Cancel(db: Db, tenant: TenantId, id: JobId, now: Time): Db {
    if CancellableIn(db, tenant, id)
    then Logged(db, id, CancelledBy(db.jobs[id], now), JobCancelled, now) else db
  }

  /** What the executor decides after a retryable error, from the attempt count it was handed with its claim. */
  function RetryOrFail(db: Db, tenant: TenantId, id: JobId, worker: WorkerId, claimedAttempts: nat,
                       maxAttempts: nat, code: ErrorCode, nextAttemptAt: Time, now: Time): Db {
    if claimedAttempts >= maxAttempts
    then MarkFailed(db, tenant, id, worker, MaxAttemptsExceeded, now)
    else ScheduleRetry(db, tenant, id, worker, code, nextAttemptAt, now)
  }

  // ---------------------------------------------------------------- what a write leaves as it was

  /** No other row changes, none is added and none deleted. */
  ghost predicate OnlyRow(before: Db, after: Db, id: JobId) {
    && id in before.jobs && after.jobs.Keys == before.jobs.Keys
    && forall k :: k in before.jobs && k != id ==> after.jobs[k] == before.jobs[k]
  }

  /** One event is appended, from the row's old status to its new one. */
  ghost predicate LogsOne(before: Db, after: Db, id: JobId, eventType: EventType, now: Time) {
    && id in before.jobs && id in after.jobs
    && after.events == before.events + [Event(id, eventType, Some(before.jobs[id].status), after.jobs[id].status, now)]
  }

  /** The columns that neither claims nor heartbeats touch. */
  predicate SameColumns(j: Job, k: Job) {
    && k.tenant == j.tenant && k.project == j.project && k.createdAt == j.createdAt && k.completedAt == j.completedAt
    && k.result == j.result && k.errorCode == j.errorCode && k.nextAttemptAt == j.nextAttemptAt
  }

  /** The columns that fence a worker's write: the row is of this tenant, and this worker's lease on it runs beyond now. */
  ghost predicate LeasedBeyond(jobs: map<JobId, Job>, tenant: TenantId, id: JobId, worker: WorkerId, now: Time) {
    && id in jobs && jobs[id].tenant == tenant && jobs[id].status == Processing && jobs[id].leaseOwner == Some(worker)
    && jobs[id].leaseExpiresAt != None && now < jobs[id].leaseExpiresAt.value
  }

  /** The columns the claim query asks for: queued, or due for a retry, and not leased beyond now. */
  ghost predicate Due(j: Job, now: Time) {
    && (j.status == Queued || (j.status == Retrying && j.nextAttemptAt != None && j.nextAttemptAt.value <= now))
    && !(j.leaseExpiresAt != None && now < j.leaseExpiresAt.value)
  }

  /** An allowed change of status that gives up the lease and keeps the attempts and the identity of the job. */
  predicate Leaves(j: Job, k: Job, status: Status, now: Time) {
    && k.status == status && (j.status, status) in STATUS_CHANGES && k.updatedAt == now
    && k.leaseOwner.None? && k.leaseExpiresAt.None? && k.heartbeatAt.None?
    && k.attemptCount == j.attemptCount
    && k.tenant == j.tenant && k.project == j.project && k.createdAt == j.createdAt && k.startedAt == j.startedAt
  }
}
