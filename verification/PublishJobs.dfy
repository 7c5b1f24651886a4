/** The publish_jobs row, its event log, and every guarded write of the publish repository and job source. */
module PublishJobs {
  import opened Basics

  datatype Status = Queued | Processing | Waiting | Retrying | Completed | Failed | Cancelled

  datatype Stage =
    | AtQueued | ValidatingSource | Submitting | WaitingForRemote | CheckingRemoteStatus | RetrievingDownload
    | AtCompleted | AtFailed | AtCancelled

  type SubmissionKey = string
  type RemoteJobId = nat
  type RemoteState = nat
  type Download = nat

  datatype ErrorCode = RetryExhausted | LeaseMismatch | Reported(code: nat)

  datatype Job = Job(
    tenant: TenantId, sourceJob: JobId, submissionKey: SubmissionKey,
    status: Status, stage: Stage, remoteJobId: Option<RemoteJobId>, remoteState: Option<RemoteState>,
    errorCode: Option<ErrorCode>, download: Option<Download>,
    attemptCount: nat, failureCount: nat, pollCount: nat,
    leaseOwner: Option<WorkerId>, leaseExpiresAt: Option<Time>, heartbeatAt: Option<Time>,
    nextAttemptAt: Option<Time>, nextPollAt: Option<Time>,
    submittedAt: Option<Time>, lastPolledAt: Option<Time>, completedAt: Option<Time>, cancelledAt: Option<Time>,
    createdAt: Time, updatedAt: Time)

  datatype EventType =
    | JobCreated | JobClaimed | Submitted | StatusPolled | NowWaiting | RetryScheduled | JobCompleted | JobFailed
    | JobCancelled | JobLeaseExpired

  datatype Event = Event(job: JobId, eventType: EventType, prior: Option<Status>, next: Status, at: Time)

  datatype Db = Db(jobs: map<JobId, Job>, events: seq<Event>)

  /** The publish transition table. */
  predicate TransitionAllowed(from: Status, to: Status) {
    match from
    case Queued => to.Processing? || to.Cancelled?
    case Processing => to.Waiting? || to.Retrying? || to.Completed? || to.Failed? || to.Cancelled?
    case Waiting => to.Processing? || to.Cancelled?
    case Retrying => to.Processing? || to.Cancelled? || to.Failed?
    case _ => false
  }

  /** The status changes there are. */
  const STATUS_CHANGES: set<(Status, Status)> := {
    (Queued, Processing), (Queued, Cancelled), (Processing, Waiting), (Processing, Retrying), (Processing, Completed),
    (Processing, Failed), (Processing, Cancelled), (Waiting, Processing), (Waiting, Cancelled), (Retrying, Processing),
    (Retrying, Cancelled), (Retrying, Failed)}

  lemma PolicyIs(from: Status, to: Status)
    ensures TransitionAllowed(from, to) <==> (from, to) in STATUS_CHANGES
  {
  }

  predicate Terminal(s: Status) {
    s.Completed? || s.Failed? || s.Cancelled?
  }

  function NewJob(tenant: TenantId, sourceJob: JobId, key: SubmissionKey, now: Time): Job {
    Job(tenant, sourceJob, key, Queued, AtQueued, None, None, None, None, 0, 0, 0, None, None, None,
        Some(now), Some(now), None, None, None, None, now, now)
  }

  // ---------------------------------------------------------------- which rows a claim may take

  predicate AtMost(t: Option<Time>, now: Time) {
    t.Some? && t.value <= now
  }

  predicate LeaseFree(j: Job, now: Time) {
    j.leaseExpiresAt.None? || j.leaseExpiresAt.value <= now
  }

  /** The claim query of the job source that the worker loop uses. */
  predicate Claimable(j: Job, now: Time) {
    && (j.status.Queued? || (j.status.Retrying? && AtMost(j.nextAttemptAt, now)) || (j.status.Waiting? && AtMost(j.nextPollAt, now)))
    && LeaseFree(j, now)
  }

  /** The claim query of the repository's claimNextDue. */
  predicate ClaimableDue(j: Job, now: Time) {
    && (j.status.Queued? || j.status.Retrying? || j.status.Waiting?)
    && j.cancelledAt.None? && j.completedAt.None?
    && (AtMost(j.nextAttemptAt, now) || (j.nextAttemptAt.None? && AtMost(j.nextPollAt, now)))
    && LeaseFree(j, now)
  }

  // ---------------------------------------------------------------- guards

  predicate Owns(j: Job, worker: WorkerId) {
    j.status.Processing? && j.leaseOwner == Some(worker)
  }

  predicate Holds(j: Job, worker: WorkerId, now: Time) {
    Owns(j, worker) && j.leaseExpiresAt.Some? && j.leaseExpiresAt.value > now
  }

  predicate Stale(j: Job, now: Time) {
    j.status.Processing? && AtMost(j.leaseExpiresAt, now)
  }

  predicate Cancellable(j: Job) {
    j.status.Queued? || j.status.Waiting? || j.status.Retrying?
  }

  predicate OwnedIn(db: Db, tenant: TenantId, id: JobId, worker: WorkerId) {
    id in db.jobs && db.jobs[id].tenant == tenant && Owns(db.jobs[id], worker)
  }

  predicate HeldIn(db: Db, tenant: TenantId, id: JobId, worker: WorkerId, now: Time) {
    id in db.jobs && db.jobs[id].tenant == tenant && Holds(db.jobs[id], worker, now)
  }

  // ---------------------------------------------------------------- row writes

  function Claimed(j: Job, worker: WorkerId, leaseMs: int, now: Time): Job {
    j.(status := Processing, leaseOwner := Some(worker), leaseExpiresAt := Some(now + leaseMs), heartbeatAt := Some(now),
       attemptCount := j.attemptCount + 1, updatedAt := now)
  }

  function Renewed(j: Job, leaseMs: int, now: Time): Job {
    j.(leaseExpiresAt := Some(now + leaseMs), heartbeatAt := Some(now), updatedAt := now)
  }

  function Released(j: Job, status: Status, stage: Stage, now: Time): Job {
    j.(status := status, stage := stage, leaseOwner := None, leaseExpiresAt := None, heartbeatAt := None,
       nextAttemptAt := None, nextPollAt := None, updatedAt := now)
  }

  function SubmittedAs(j: Job, remoteJobId: RemoteJobId, remoteState: RemoteState, nextPollAt: Time, now: Time): Job {
    Released(j, Waiting, WaitingForRemote, now).(
      remoteJobId := Some(remoteJobId), remoteState := Some(remoteState), submittedAt := Some(now),
      nextPollAt := Some(nextPollAt), failureCount := 0, lastPolledAt := None)
  }

  function StillWaiting(j: Job, remoteState: RemoteState, nextPollAt: Time, now: Time): Job {
    Released(j, Waiting, WaitingForRemote, now).(
      remoteState := Some(remoteState), lastPolledAt := Some(now), nextPollAt := Some(nextPollAt),
      failureCount := 0, pollCount := j.pollCount + 1)
  }

  function RetriedAt(j: Job, code: ErrorCode, nextAttemptAt: Time, now: Time): Job {
    Released(j, Retrying, AtFailed, now).(
      errorCode := Some(code), nextAttemptAt := Some(nextAttemptAt), failureCount := j.failureCount + 1)
  }

  function Polled(j: Job, polledAt: Option<Time>): Job {
    if polledAt.Some? then j.(pollCount := j.pollCount + 1, lastPolledAt := polledAt) else j
  }

  function CompletedAs(j: Job, remoteState: RemoteState, download: Download, polledAt: Option<Time>, now: Time): Job {
    Polled(Released(j, Completed, AtCompleted, now), polledAt).(
      remoteState := Some(remoteState), download := Some(download), failureCount := 0, completedAt := Some(now))
  }

  function FailedWith(j: Job, code: ErrorCode, remoteState: Option<RemoteState>, polledAt: Option<Time>, now: Time): Job {
    Polled(Released(j, Failed, AtFailed, now), polledAt).(
      remoteState := remoteState, errorCode := Some(code), completedAt := Some(now))
  }

  function RemoteCancelled(j: Job, remoteState: RemoteState, polledAt: Option<Time>, now: Time): Job {
    Polled(Released(j, Cancelled, AtCancelled, now), polledAt).(remoteState := Some(remoteState), cancelledAt := Some(now))
  }

  function CancelledBy(j: Job, now: Time): Job {
    Released(j, Cancelled, AtCancelled, now).(cancelledAt := Some(now))
  }

  /** Recovery of an expired lease: exhausted, back to polling a known remote job, or back to submitting. */
  function Recovered(j: Job, maxFailures: nat, retryMs: int, now: Time): Job {
    var failures := j.failureCount + 1;
    if failures >= maxFailures then
      Released(j, Failed, AtFailed, now).(errorCode := Some(RetryExhausted), completedAt := Some(now), failureCount := failures)
    else if j.remoteJobId.Some? then
      Released(j, Waiting, WaitingForRemote, now).(
        errorCode := Some(LeaseMismatch), nextPollAt := Some(now + retryMs), failureCount := failures)
    else
      Released(j, Retrying, AtFailed, now).(
        errorCode := Some(LeaseMismatch), nextAttemptAt := Some(now + retryMs), failureCount := failures)
  }

  // ---------------------------------------------------------------- transactions on both tables

  function Put(db: Db, id: JobId, j: Job): Db {
    db.(jobs := db.jobs[id := j])
  }

  function Logged(db: Db, id: JobId, j: Job, eventType: EventType, now: Time): Db
    requires id in db.jobs
  {
    Db(db.jobs[id := j], db.events + [Event(id, eventType, Some(db.jobs[id].status), j.status, now)])
  }

  function Create(db: Db, id: JobId, tenant: TenantId, sourceJob: JobId, key: SubmissionKey, now: Time): Db {
    Db(db.jobs[id := NewJob(tenant, sourceJob, key, now)], db.events + [Event(id, JobCreated, None, Queued, now)])
  }

  function Acquire(db: Db, id: JobId, worker: WorkerId, leaseMs: int, now: Time): Db
    requires id in db.jobs
  {
    Logged(db, id, Claimed(db.jobs[id], worker, leaseMs, now), JobClaimed, now)
  }

  function Renew(db: Db, tenant: TenantId, id: JobId, worker: WorkerId, leaseMs: int, now: Time): Db {
    if HeldIn(db, tenant, id, worker, now) then Put(db, id, Renewed(db.jobs[id], leaseMs, now)) else db
  }

  /** Stage changes ask for ownership only; an expired lease does not stop them. */
  function SetStage(db: Db, tenant: TenantId, id: JobId, worker: WorkerId, stage: Stage, now: Time): Db {
    if OwnedIn(db, tenant, id, worker)
    then Logged(db, id, db.jobs[id].(stage := stage, updatedAt := now), StatusPolled, now) else db
  }

  function Cancel(db: Db, tenant: TenantId, id: JobId, now: Time): Db {
    if id in db.jobs && db.jobs[id].tenant == tenant && Cancellable(db.jobs[id])
    then Logged(db, id, CancelledBy(db.jobs[id], now), JobCancelled, now) else db
  }

  function Recover(db: Db, id: JobId, maxFailures: nat, retryMs: int, now: Time): Db {
    if id in db.jobs && Stale(db.jobs[id], now)
    then Logged(db, id, Recovered(db.jobs[id], maxFailures, retryMs, now), JobLeaseExpired, now) else db
  }

  // ---------------------------------------------------------------- writes whose events follow in separate statements

  /** What an execution writes at its end; the row is written first and its events after it. */
  datatype Ending =
    | RecordSubmission(remoteJobId: RemoteJobId, remoteState: RemoteState, nextPollAt: Time)
    | RecordWaiting(remoteState: RemoteState, nextPollAt: Time)
    | RecordRetry(code: ErrorCode, nextAttemptAt: Time)
    | Complete(remoteState: RemoteState, download: Download, polledAt: Option<Time>)
    | Fail(code: ErrorCode, lastState: Option<RemoteState>, polledAt: Option<Time>)
    | MarkRemoteCancelled(remoteState: RemoteState, polledAt: Option<Time>)

  function EndedRow(j: Job, ending: Ending, now: Time): Job {
    match ending
    case RecordSubmission(r, st, at) => SubmittedAs(j, r, st, at, now)
    case RecordWaiting(st, at) => StillWaiting(j, st, at, now)
    case RecordRetry(code, at) => RetriedAt(j, code, at, now)
    case Complete(st, d, p) => CompletedAs(j, st, d, p, now)
    case Fail(code, st, p) => FailedWith(j, code, st, p, now)
    case MarkRemoteCancelled(st, p) => RemoteCancelled(j, st, p, now)
  }

  function EndingEvents(id: JobId, ending: Ending, now: Time): seq<Event> {
    match ending
    case RecordSubmission(_, _, _) =>
      [Event(id, Submitted, Some(Processing), Waiting, now), Event(id, NowWaiting, Some(Waiting), Waiting, now)]
    case RecordWaiting(_, _) => [Event(id, NowWaiting, Some(Processing), Waiting, now)]
    case RecordRetry(_, _) => [Event(id, RetryScheduled, Some(Processing), Retrying, now)]
    case Complete(_, _, _) => [Event(id, JobCompleted, Some(Processing), Completed, now)]
    case Fail(_, _, _) => [Event(id, JobFailed, Some(Processing), Failed, now)]
    case MarkRemoteCancelled(_, _) => [Event(id, JobCancelled, Some(Processing), Cancelled, now)]
  }

  function EndRow(db: Db, tenant: TenantId, id: JobId, worker: WorkerId, ending: Ending, now: Time): Db {
    if HeldIn(db, tenant, id, worker, now) then Put(db, id, EndedRow(db.jobs[id], ending, now)) else db
  }

  /** The same write run to its end without a crash in between. */
  function EndAndLog(db: Db, tenant: TenantId, id: JobId, worker: WorkerId, ending: Ending, now: Time): Db {
    if HeldIn(db, tenant, id, worker, now)
    then Put(db, id, EndedRow(db.jobs[id], ending, now)).(events := db.events + EndingEvents(id, ending, now)) else db
  }

  /** The failure decision of an execution, from the failure count of the row it read when it started. */
  function FailureEnding(read: Job, polling: bool, retryable: bool, code: ErrorCode, maxFailures: nat, delayMs: int, now: Time): Ending {
    var lastState := if polling && read.remoteJobId.Some? then read.remoteState else None;
    if !retryable then Fail(code, lastState, None)
    else if read.failureCount + 1 >= maxFailures then Fail(RetryExhausted, lastState, None)
    else RecordRetry(code, now + delayMs)
  }

  // ---------------------------------------------------------------- what a write leaves as it was

  /** No other row changes, none is added and none deleted. */
  ghost predicate OnlyRow(before: Db, after: Db, id: JobId) {
    && id in before.jobs && after.jobs.Keys == before.jobs.Keys
    && forall k :: k in before.jobs && k != id ==> after.jobs[k] == before.jobs[k]
  }

  /** These events are appended, in this order. */
  ghost predicate Logs(before: Db, after: Db, events: seq<Event>) {
    after.events == before.events + events
  }

  /** What identifies a publish job. */
  predicate SameJob(j: Job, k: Job) {
    k.tenant == j.tenant && k.sourceJob == j.sourceJob && k.submissionKey == j.submissionKey && k.createdAt == j.createdAt
  }

  /** What has come of it so far. */
  predicate SameOutcome(j: Job, k: Job) {
    && k.remoteState == j.remoteState && k.errorCode == j.errorCode && k.download == j.download && k.submittedAt == j.submittedAt
    && k.completedAt == j.completedAt && k.cancelledAt == j.cancelledAt
  }

  /** An allowed change of status that gives up the lease and keeps the job and its attempts. */
  predicate Leaves(j: Job, k: Job, status: Status, stage: Stage, now: Time) {
    && k.status == status && (j.status, status) in STATUS_CHANGES && k.stage == stage && k.updatedAt == now
    && k.leaseOwner.None? && k.leaseExpiresAt.None? && k.heartbeatAt.None?
    && SameJob(j, k) && k.attemptCount == j.attemptCount
  }

  predicate Schedules(k: Job, nextAttemptAt: Option<Time>, nextPollAt: Option<Time>) {
    k.nextAttemptAt == nextAttemptAt && k.nextPollAt == nextPollAt
  }

  /** One more poll if there was one. */
  predicate CountsPoll(j: Job, k: Job, polledAt: Option<Time>) {
    if polledAt.Some? then k.pollCount == j.pollCount + 1 && k.lastPolledAt == polledAt
    else k.pollCount == j.pollCount && k.lastPolledAt == j.lastPolledAt
  }

  /** The row is processing for this worker and tenant. */
  ghost predicate OwnedBy(jobs: map<JobId, Job>, tenant: TenantId, id: JobId, worker: WorkerId) {
    id in jobs && jobs[id].tenant == tenant && jobs[id].status == Processing && jobs[id].leaseOwner == Some(worker)
  }

  /** And its lease runs beyond now. */
  ghost predicate LeasedBeyond(jobs: map<JobId, Job>, tenant: TenantId, id: JobId, worker: WorkerId, now: Time) {
    OwnedBy(jobs, tenant, id, worker) && jobs[id].leaseExpiresAt != None && now < jobs[id].leaseExpiresAt.value
  }

  ghost predicate LeaseOver(j: Job, now: Time) {
    j.status == Processing && j.leaseExpiresAt != None && j.leaseExpiresAt.value <= now
  }

  /** The columns the job source asks for: queued, or due for a retry or a poll, and not leased beyond now. */
  ghost predicate Due(j: Job, now: Time) {
    && (|| j.status == Queued
        || (j.status == Retrying && j.nextAttemptAt != None && j.nextAttemptAt.value <= now)
        || (j.status == Waiting && j.nextPollAt != None && j.nextPollAt.value <= now))
    && !(j.leaseExpiresAt != None && now < j.leaseExpiresAt.value)
  }

  /** The columns the repository asks for: not over, and the attempt, or failing one the poll, is due. */
  ghost predicate DueNext(j: Job, now: Time) {
    && j.status in {Queued, Retrying, Waiting} && j.cancelledAt == None && j.completedAt == None
    && (if j.nextAttemptAt != None then j.nextAttemptAt.value <= now else j.nextPollAt != None && j.nextPollAt.value <= now)
    && !(j.leaseExpiresAt != None && now < j.leaseExpiresAt.value)
  }

  /** A claim takes the lease, counts the attempt, and touches nothing else. */
  ghost predicate ClaimedFor(j: Job, k: Job, worker: WorkerId, leaseMs: int, now: Time) {
    && k.status == Processing && k.leaseOwner == Some(worker) && k.leaseExpiresAt == Some(now + leaseMs)
    && k.heartbeatAt == Some(now) && k.updatedAt == now && k.attemptCount == j.attemptCount + 1
    && SameJob(j, k) && SameOutcome(j, k) && k.stage == j.stage && k.remoteJobId == j.remoteJobId
    && k.failureCount == j.failureCount && CountsPoll(j, k, None) && Schedules(k, j.nextAttemptAt, j.nextPollAt)
  }

  /** A recovered job counts one failure more: at the maximum it fails, with a known remote job it polls again, and without
      one it submits again. */
  ghost predicate RecoversTo(j: Job, k: Job, maxFailures: nat, retryMs: int, now: Time) {
    && k.failureCount == j.failureCount + 1 && k.remoteJobId == j.remoteJobId && CountsPoll(j, k, None)
    && if j.failureCount + 1 >= maxFailures
       then Leaves(j, k, Failed, AtFailed, now) && Schedules(k, None, None)
            && SameOutcome(j.(errorCode := Some(RetryExhausted), completedAt := Some(now)), k)
       else if j.remoteJobId != None
       then Leaves(j, k, Waiting, WaitingForRemote, now) && Schedules(k, None, Some(now + retryMs))
            && SameOutcome(j.(errorCode := Some(LeaseMismatch)), k)
       else Leaves(j, k, Retrying, AtFailed, now) && Schedules(k, Some(now + retryMs), None)
            && SameOutcome(j.(errorCode := Some(LeaseMismatch)), k)
  }

  /** What a write at the end of an execution makes of its row. */
  ghost predicate EndsAs(j: Job, k: Job, ending: Ending, now: Time) {
    match ending
    case RecordSubmission(remoteJobId, remoteState, nextPollAt) =>
      && Leaves(j, k, Waiting, WaitingForRemote, now) && Schedules(k, None, Some(nextPollAt)) && k.remoteJobId == Some(remoteJobId)
      && k.failureCount == 0 && k.pollCount == j.pollCount && k.lastPolledAt == None
      && SameOutcome(j.(remoteState := Some(remoteState), submittedAt := Some(now)), k)
    case RecordWaiting(remoteState, nextPollAt) =>
      && Leaves(j, k, Waiting, WaitingForRemote, now) && Schedules(k, None, Some(nextPollAt)) && k.remoteJobId == j.remoteJobId
      && k.failureCount == 0 && CountsPoll(j, k, Some(now)) && SameOutcome(j.(remoteState := Some(remoteState)), k)
    case RecordRetry(code, nextAttemptAt) =>
      && Leaves(j, k, Retrying, AtFailed, now) && Schedules(k, Some(nextAttemptAt), None) && k.remoteJobId == j.remoteJobId
      && k.failureCount == j.failureCount + 1 && CountsPoll(j, k, None) && SameOutcome(j.(errorCode := Some(code)), k)
    case Complete(remoteState, download, polledAt) =>
      && Leaves(j, k, Completed, AtCompleted, now) && Schedules(k, None, None) && k.remoteJobId == j.remoteJobId
      && k.failureCount == 0 && CountsPoll(j, k, polledAt)
      && SameOutcome(j.(remoteState := Some(remoteState), download := Some(download), completedAt := Some(now)), k)
    case Fail(code, lastState, polledAt) =>
      && Leaves(j, k, Failed, AtFailed, now) && Schedules(k, None, None) && k.remoteJobId == j.remoteJobId
      && k.failureCount == j.failureCount && CountsPoll(j, k, polledAt)
      && SameOutcome(j.(remoteState := lastState, errorCode := Some(code), completedAt := Some(now)), k)
    case MarkRemoteCancelled(remoteState, polledAt) =>
      && Leaves(j, k, Cancelled, AtCancelled, now) && Schedules(k, None, None) && k.remoteJobId == j.remoteJobId
      && k.failureCount == j.failureCount && CountsPoll(j, k, polledAt)
      && SameOutcome(j.(remoteState := Some(remoteState), cancelledAt := Some(now)), k)
  }

  lemma ClaimedAs(j: Job, worker: WorkerId, leaseMs: int, now: Time)
    ensures ClaimedFor(j, Claimed(j, worker, leaseMs, now), worker, leaseMs, now)
  {
  }

  lemma RecoveredTo(was: Job, maxFailures: nat, retryMs: int, now: Time)
    requires LeaseOver(was, now)
    ensures RecoversTo(was, Recovered(was, maxFailures, retryMs, now), maxFailures, retryMs, now)
    ensures !LeaseOver(Recovered(was, maxFailures, retryMs, now), now)
  {
  }

  lemma EndedAs(j: Job, ending: Ending, now: Time)
    requires j.status.Processing?
    ensures EndsAs(j, EndedRow(j, ending, now), ending, now)
  {
  }
}
