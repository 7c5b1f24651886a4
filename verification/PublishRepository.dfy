/** The publish repository and job source as objects over the shared tables, each write proved against its transition. */
module PublishRepository {
  import opened Basics
  import opened PublishJobs
  import opened RetryPolicy

  class Database {
    var jobs: map<JobId, Job>
    var events: seq<Event>

    constructor ()
      ensures View() == Db(map[], [])
    {
      jobs, events := map[], [];
    }

    ghost function View(): Db
      reads this
    {
      Db(jobs, events)
    }
  }

  // ---------------------------------------------------------------- the two orders in which claims look at rows

  function DueAt(j: Job): Time {
    if j.nextAttemptAt.Some? then j.nextAttemptAt.value
    else if j.nextPollAt.Some? then j.nextPollAt.value
    else j.createdAt
  }

  /** order by coalesce(next_attempt_at, next_poll_at, created_at), created_at */
  predicate DueBefore(a: Job, b: Job) {
    DueAt(a) < DueAt(b) || (DueAt(a) == DueAt(b) && a.createdAt <= b.createdAt)
  }

  predicate NullsLast(a: Option<Time>, b: Option<Time>) {
    a.Some? && (b.None? || a.value < b.value)
  }

  /** order by next_attempt_at, next_poll_at, created_at, with nulls last */
  predicate ColumnsBefore(a: Job, b: Job) {
    || NullsLast(a.nextAttemptAt, b.nextAttemptAt)
    || (a.nextAttemptAt == b.nextAttemptAt && NullsLast(a.nextPollAt, b.nextPollAt))
    || (a.nextAttemptAt == b.nextAttemptAt && a.nextPollAt == b.nextPollAt && a.createdAt <= b.createdAt)
  }

  ghost predicate TotalOrder(before: (Job, Job) -> bool) {
    && (forall a, b :: before(a, b) || before(b, a))
    && (forall a, b, c :: before(a, b) && before(b, c) ==> before(a, c))
  }

  /** What the first order says of two rows: the time of the next attempt, failing that of the next poll, failing that of
      creation, is earlier, or it is the same and the row is not younger. */
  ghost predicate SoonerDue(a: Job, b: Job) {
    var at :=
      if a.nextAttemptAt != None then a.nextAttemptAt.value
      else if a.nextPollAt != None then a.nextPollAt.value
      else a.createdAt;
    var bt :=
      if b.nextAttemptAt != None then b.nextAttemptAt.value
      else if b.nextPollAt != None then b.nextPollAt.value
      else b.createdAt;
    at < bt || (at == bt && a.createdAt <= b.createdAt)
  }

  /** What the second says: an earlier next attempt, where none counts as later than any; if equal the same of the next
      poll; if that is equal too, the row is not younger. */
  ghost predicate FirstByColumns(a: Job, b: Job) {
    if a.nextAttemptAt != b.nextAttemptAt
    then b.nextAttemptAt == None || (a.nextAttemptAt != None && a.nextAttemptAt.value < b.nextAttemptAt.value)
    else if a.nextPollAt != b.nextPollAt
    then b.nextPollAt == None || (a.nextPollAt != None && a.nextPollAt.value < b.nextPollAt.value)
    else a.createdAt <= b.createdAt
  }

  lemma ClaimableIsDue(j: Job, now: Time)
    ensures Claimable(j, now) <==> Due(j, now)
  {
  }

  lemma ClaimableDueIsDueNext(j: Job, now: Time)
    ensures ClaimableDue(j, now) <==> DueNext(j, now)
  {
  }

  lemma DueBeforeIsSooner(a: Job, b: Job)
    ensures DueBefore(a, b) <==> SoonerDue(a, b)
  {
  }

  lemma ColumnsBeforeIsFirst(a: Job, b: Job)
    ensures ColumnsBefore(a, b) <==> FirstByColumns(a, b)
  {
  }

  lemma DueBeforeOrders()
    ensures TotalOrder(DueBefore)
  {
  }

  lemma ColumnsBeforeOrders()
    ensures TotalOrder(ColumnsBefore)
  {
  }

  lemma FirstExists(jobs: map<JobId, Job>, ids: set<JobId>, before: (Job, Job) -> bool) returns (first: JobId)
    requires ids != {} && ids <= jobs.Keys && TotalOrder(before)
    ensures first in ids && forall k :: k in ids ==> before(jobs[first], jobs[k])
  {
    first :| first in ids;
    if ids != {first} {
      var rest := FirstExists(jobs, ids - {first}, before);
      if !before(jobs[first], jobs[rest]) {
        first := rest;
      }
    }
  }

  class DatabasePublishJobSource {
    const database: Database

    constructor (database: Database)
      ensures this.database == database
    {
      this.database := database;
    }

    method AcquireNext(workerId: WorkerId, leaseDurationMs: nat, now: Time) returns (claim: Option<JobId>)
      modifies database
      ensures claim.None? <==> forall k :: k in old(database.jobs) ==> !Due(old(database.jobs)[k], now)
      ensures claim.None? ==> database.View() == old(database.View())
      ensures claim.Some? ==>
        && claim.value in old(database.jobs) && Due(old(database.jobs)[claim.value], now)
        && (forall k :: k in old(database.jobs) && Due(old(database.jobs)[k], now)
              ==> SoonerDue(old(database.jobs)[claim.value], old(database.jobs)[k]))
        && OnlyRow(old(database.View()), database.View(), claim.value)
        && ClaimedFor(old(database.jobs)[claim.value], database.jobs[claim.value], workerId, leaseDurationMs, now)
        && Logs(old(database.View()), database.View(),
                [Event(claim.value, JobClaimed, Some(old(database.jobs)[claim.value].status), Processing, now)])
        && database.View() == Acquire(old(database.View()), claim.value, workerId, leaseDurationMs, now)
    {
      hide Due, Claimable, DueBefore, SoonerDue, TotalOrder, ClaimedFor;
      var candidates := set k | k in database.jobs && Claimable(database.jobs[k], now);
      forall k | k in database.jobs ensures Claimable(database.jobs[k], now) <==> Due(database.jobs[k], now) {
        ClaimableIsDue(database.jobs[k], now);
      }
      if candidates == {} {
        forall k | k in database.jobs ensures !Claimable(database.jobs[k], now) {
          assert k !in candidates;
        }
        return None;
      }
      DueBeforeOrders();
      ghost var first := FirstExists(database.jobs, candidates, DueBefore);
      var id :| id in candidates && forall k :: k in candidates ==> DueBefore(database.jobs[id], database.jobs[k]);
      forall k | k in candidates ensures SoonerDue(database.jobs[id], database.jobs[k]) {
        DueBeforeIsSooner(database.jobs[id], database.jobs[k]);
      }
      var candidate := database.jobs[id];
      ClaimedAs(candidate, workerId, leaseDurationMs, now);
      database.jobs := database.jobs[id := candidate.(
        status := Processing, leaseOwner := Some(workerId), leaseExpiresAt := Some(now + leaseDurationMs),
        heartbeatAt := Some(now), attemptCount := candidate.attemptCount + 1, updatedAt := now)];
      database.events := database.events + [Event(id, JobClaimed, Some(candidate.status), Processing, now)];
      claim := Some(id);
    }

    method RenewLease(tenant: TenantId, id: JobId, workerId: WorkerId, leaseDurationMs: nat, now: Time) returns (renewed: bool)
      modifies database
      ensures database.View() == Renew(old(database.View()), tenant, id, workerId, leaseDurationMs, now)
      ensures renewed <==> LeasedBeyond(old(database.jobs), tenant, id, workerId, now)
      ensures !renewed ==> database.View() == old(database.View())
      ensures renewed ==>
        var was, row := old(database.jobs)[id], database.jobs[id];
        && OnlyRow(old(database.View()), database.View(), id) && database.events == old(database.events)
        && row.leaseExpiresAt == Some(now + leaseDurationMs) && row.leaseOwner == Some(workerId) && row.heartbeatAt == Some(now)
        && row.status == Processing && row.updatedAt == now && row.stage == was.stage && row.attemptCount == was.attemptCount
        && SameJob(was, row) && SameOutcome(was, row) && row.remoteJobId == was.remoteJobId && row.failureCount == was.failureCount
        && CountsPoll(was, row, None) && Schedules(row, was.nextAttemptAt, was.nextPollAt)
    {
      renewed := false;
      if id in database.jobs {
        var job := database.jobs[id];
        if job.tenant == tenant && Holds(job, workerId, now) {
          database.jobs := database.jobs[id := job.(
            leaseExpiresAt := Some(now + leaseDurationMs), heartbeatAt := Some(now), updatedAt := now)];
          renewed := true;
        }
      }
    }
  }

  /** The answer of the recovery query: distinct stale rows in order, cut at the limit. */
  ghost predicate StaleSelection(jobs: map<JobId, Job>, now: Time, limit: nat, rows: seq<JobId>) {
    && |rows| <= limit
    && (forall i :: 0 <= i < |rows| ==> rows[i] in jobs && LeaseOver(jobs[rows[i]], now))
    && (forall i, k :: 0 <= i < k < |rows| ==>
          rows[i] != rows[k] && jobs[rows[i]].leaseExpiresAt.value <= jobs[rows[k]].leaseExpiresAt.value)
    && (|rows| < limit ==> forall id :: id in jobs && LeaseOver(jobs[id], now) ==> id in rows)
  }

  function RecoveryEvent(id: JobId, was: Job, maxFailures: nat, retryMs: int, now: Time): Event {
    Event(id, JobLeaseExpired, Some(was.status), Recovered(was, maxFailures, retryMs, now).status, now)
  }

  lemma RecoveredLogs(id: JobId, was: Job, maxFailures: nat, retryMs: int, now: Time)
    requires LeaseOver(was, now)
    ensures RecoveryEvent(id, was, maxFailures, retryMs, now)
         == Event(id, JobLeaseExpired, Some(Processing), Recovered(was, maxFailures, retryMs, now).status, now)
  {
  }

  /** These rows have been recovered, and no others. */
  ghost predicate Swept(before: map<JobId, Job>, jobs: map<JobId, Job>, ids: seq<JobId>, maxFailures: nat, retryMs: int, now: Time) {
    && jobs.Keys == before.Keys
    && forall id :: id in before ==> jobs[id] == if id in ids then Recovered(before[id], maxFailures, retryMs, now) else before[id]
  }

  lemma NothingSwept(before: map<JobId, Job>, maxFailures: nat, retryMs: int, now: Time)
    ensures Swept(before, before, [], maxFailures, retryMs, now)
  {
  }

  lemma SweptMore(before: map<JobId, Job>, jobs: map<JobId, Job>, ids: seq<JobId>, id: JobId, maxFailures: nat, retryMs: int, now: Time)
    requires Swept(before, jobs, ids, maxFailures, retryMs, now) && id in before && id !in ids
    ensures id in jobs && jobs[id] == before[id]
    ensures Swept(before, jobs[id := Recovered(jobs[id], maxFailures, retryMs, now)], ids + [id], maxFailures, retryMs, now)
  {
    hide Recovered;
  }

  lemma SweptRows(before: map<JobId, Job>, jobs: map<JobId, Job>, ids: seq<JobId>, maxFailures: nat, retryMs: int, now: Time)
    requires Swept(before, jobs, ids, maxFailures, retryMs, now)
    ensures jobs.Keys == before.Keys
    ensures forall id :: id in before ==> jobs[id] == if id in ids then Recovered(before[id], maxFailures, retryMs, now) else before[id]
  {
  }

  class DrizzlePublishJobRepository {
    const database: Database

    constructor (database: Database)
      ensures this.database == database
    {
      this.database := database;
    }

    method ClaimNextDue(workerId: WorkerId, leaseDurationMs: nat, now: Time) returns (claim: Option<Job>, ghost id: JobId)
      modifies database
      ensures claim.None? <==> forall k :: k in old(database.jobs) ==> !DueNext(old(database.jobs)[k], now)
      ensures claim.None? ==> database.View() == old(database.View())
      ensures claim.Some? ==>
        && id in old(database.jobs) && DueNext(old(database.jobs)[id], now)
        && (forall k :: k in old(database.jobs) && DueNext(old(database.jobs)[k], now)
              ==> FirstByColumns(old(database.jobs)[id], old(database.jobs)[k]))
        && OnlyRow(old(database.View()), database.View(), id) && claim.value == database.jobs[id]
        && ClaimedFor(old(database.jobs)[id], claim.value, workerId, leaseDurationMs, now)
        && Logs(old(database.View()), database.View(), [Event(id, JobClaimed, Some(old(database.jobs)[id].status), Processing, now)])
        && database.View() == Acquire(old(database.View()), id, workerId, leaseDurationMs, now)
    {
      hide DueNext, ClaimableDue, ColumnsBefore, FirstByColumns, TotalOrder, ClaimedFor;
      id := 0;
      var candidates := set k | k in database.jobs && ClaimableDue(database.jobs[k], now);
      forall k | k in database.jobs ensures ClaimableDue(database.jobs[k], now) <==> DueNext(database.jobs[k], now) {
        ClaimableDueIsDueNext(database.jobs[k], now);
      }
      if candidates == {} {
        forall k | k in database.jobs ensures !ClaimableDue(database.jobs[k], now) {
          assert k !in candidates;
        }
        return None, 0;
      }
      ColumnsBeforeOrders();
      ghost var first := FirstExists(database.jobs, candidates, ColumnsBefore);
      var chosen :| chosen in candidates && forall k :: k in candidates ==> ColumnsBefore(database.jobs[chosen], database.jobs[k]);
      forall k | k in candidates ensures FirstByColumns(database.jobs[chosen], database.jobs[k]) {
        ColumnsBeforeIsFirst(database.jobs[chosen], database.jobs[k]);
      }
      id := chosen;
      var candidate := database.jobs[chosen];
      ClaimedAs(candidate, workerId, leaseDurationMs, now);
      var updated := candidate.(
        status := Processing, leaseOwner := Some(workerId), leaseExpiresAt := Some(now + leaseDurationMs),
        heartbeatAt := Some(now), attemptCount := candidate.attemptCount + 1, updatedAt := now);
      database.jobs := database.jobs[chosen := updated];
      database.events := database.events + [Event(chosen, JobClaimed, Some(candidate.status), Processing, now)];
      claim := Some(updated);
    }

    /** Ownership is enough for a stage change; the lease expiry is not asked. */
    method SetStage(tenant: TenantId, id: JobId, workerId: WorkerId, stage: Stage, now: Time) returns (updated: Option<Job>)
      modifies database
      ensures database.View() == PublishJobs.SetStage(old(database.View()), tenant, id, workerId, stage, now)
      ensures updated.Some? <==> OwnedBy(old(database.jobs), tenant, id, workerId)
      ensures updated.None? ==> database.View() == old(database.View())
      ensures updated.Some? ==>
        var was, row := old(database.jobs)[id], updated.value;
        && OnlyRow(old(database.View()), database.View(), id) && row == database.jobs[id]
        && row.stage == stage && row.updatedAt == now && row.status == Processing && row.attemptCount == was.attemptCount
        && row.leaseOwner == Some(workerId) && row.leaseExpiresAt == was.leaseExpiresAt && row.heartbeatAt == was.heartbeatAt
        && SameJob(was, row) && SameOutcome(was, row) && row.remoteJobId == was.remoteJobId && row.failureCount == was.failureCount
        && CountsPoll(was, row, None) && Schedules(row, was.nextAttemptAt, was.nextPollAt)
        && Logs(old(database.View()), database.View(), [Event(id, StatusPolled, Some(Processing), Processing, now)])
    {
      updated := None;
      if id in database.jobs {
        var current := database.jobs[id];
        if current.tenant == tenant && Owns(current, workerId) {
          var job := current.(stage := stage, updatedAt := now);
          database.jobs := database.jobs[id := job];
          database.events := database.events + [Event(id, StatusPolled, Some(current.status), job.status, now)];
          updated := Some(job);
        }
      }
    }

    method RecordSubmission(tenant: TenantId, id: JobId, workerId: WorkerId, remoteJobId: RemoteJobId, remoteState: RemoteState,
                            nextPollAt: Time, now: Time) returns (updated: Option<Job>)
      modifies database
      ensures database.View() == EndAndLog(old(database.View()), tenant, id, workerId,
                                           Ending.RecordSubmission(remoteJobId, remoteState, nextPollAt), now)
      ensures updated.Some? <==> LeasedBeyond(old(database.jobs), tenant, id, workerId, now)
      ensures updated.None? ==> database.View() == old(database.View())
      ensures updated.Some? ==>
        && OnlyRow(old(database.View()), database.View(), id) && updated.value == database.jobs[id]
        && EndsAs(old(database.jobs)[id], updated.value, Ending.RecordSubmission(remoteJobId, remoteState, nextPollAt), now)
        && Logs(old(database.View()), database.View(),
                [Event(id, Submitted, Some(Processing), Waiting, now), Event(id, NowWaiting, Some(Waiting), Waiting, now)])
    {
      updated := None;
      if id in database.jobs {
        var job := database.jobs[id];
        if job.tenant == tenant && Holds(job, workerId, now) {
          job := job.(
            status := Waiting, stage := WaitingForRemote, remoteJobId := Some(remoteJobId),
            remoteState := Some(remoteState), submittedAt := Some(now), nextPollAt := Some(nextPollAt),
            nextAttemptAt := None, failureCount := 0, lastPolledAt := None,
            leaseOwner := None, leaseExpiresAt := None, heartbeatAt := None, updatedAt := now);
          database.jobs := database.jobs[id := job];
          database.events := database.events + [Event(id, Submitted, Some(Processing), Waiting, now)];
          database.events := database.events + [Event(id, NowWaiting, Some(Waiting), Waiting, now)];
          updated := Some(job);
        }
      }
    }

    method RecordRemoteWaiting(tenant: TenantId, id: JobId, workerId: WorkerId, remoteState: RemoteState,
                               nextPollAt: Time, now: Time) returns (updated: Option<Job>)
      modifies database
      ensures database.View() == EndAndLog(old(database.View()), tenant, id, workerId, RecordWaiting(remoteState, nextPollAt), now)
      ensures updated.Some? <==> LeasedBeyond(old(database.jobs), tenant, id, workerId, now)
      ensures updated.None? ==> database.View() == old(database.View())
      ensures updated.Some? ==>
        && OnlyRow(old(database.View()), database.View(), id) && updated.value == database.jobs[id]
        && EndsAs(old(database.jobs)[id], updated.value, RecordWaiting(remoteState, nextPollAt), now)
        && Logs(old(database.View()), database.View(),
                [Event(id, NowWaiting, Some(Processing), Waiting, now)])
    {
      updated := None;
      if id in database.jobs {
        var job := database.jobs[id];
        if job.tenant == tenant && Holds(job, workerId, now) {
          job := job.(
            status := Waiting, stage := WaitingForRemote, remoteState := Some(remoteState), lastPolledAt := Some(now),
            nextPollAt := Some(nextPollAt), nextAttemptAt := None, failureCount := 0, pollCount := job.pollCount + 1,
            leaseOwner := None, leaseExpiresAt := None, heartbeatAt := None, updatedAt := now);
          database.jobs := database.jobs[id := job];
          database.events := database.events + [Event(id, NowWaiting, Some(Processing), Waiting, now)];
          updated := Some(job);
        }
      }
    }

    method RecordRetry(tenant: TenantId, id: JobId, workerId: WorkerId, code: ErrorCode, nextAttemptAt: Time, now: Time)
      returns (updated: Option<Job>)
      modifies database
      ensures database.View() == EndAndLog(old(database.View()), tenant, id, workerId, Ending.RecordRetry(code, nextAttemptAt), now)
      ensures updated.Some? <==> LeasedBeyond(old(database.jobs), tenant, id, workerId, now)
      ensures updated.None? ==> database.View() == old(database.View())
      ensures updated.Some? ==>
        && OnlyRow(old(database.View()), database.View(), id) && updated.value == database.jobs[id]
        && EndsAs(old(database.jobs)[id], updated.value, Ending.RecordRetry(code, nextAttemptAt), now)
        && Logs(old(database.View()), database.View(),
                [Event(id, RetryScheduled, Some(Processing), Retrying, now)])
    {
      hide EndsAs;
      updated := None;
      if id in database.jobs {
        var job := database.jobs[id];
        if job.tenant == tenant && Holds(job, workerId, now) {
          EndedAs(job, Ending.RecordRetry(code, nextAttemptAt), now);
          job := job.(
            status := Retrying, stage := AtFailed, errorCode := Some(code), nextAttemptAt := Some(nextAttemptAt),
            nextPollAt := None, failureCount := job.failureCount + 1,
            leaseOwner := None, leaseExpiresAt := None, heartbeatAt := None, updatedAt := now);
          database.jobs := database.jobs[id := job];
          database.events := database.events + [Event(id, RetryScheduled, Some(Processing), Retrying, now)];
          updated := Some(job);
        }
      }
    }

    method Complete(tenant: TenantId, id: JobId, workerId: WorkerId, remoteState: RemoteState, download: Download,
                    polledAt: Option<Time>, now: Time) returns (updated: Option<Job>)
      modifies database
      ensures database.View() == EndAndLog(old(database.View()), tenant, id, workerId,
                                           Ending.Complete(remoteState, download, polledAt), now)
      ensures updated.Some? <==> LeasedBeyond(old(database.jobs), tenant, id, workerId, now)
      ensures updated.None? ==> database.View() == old(database.View())
      ensures updated.Some? ==>
        && OnlyRow(old(database.View()), database.View(), id) && updated.value == database.jobs[id]
        && EndsAs(old(database.jobs)[id], updated.value, Ending.Complete(remoteState, download, polledAt), now)
        && Logs(old(database.View()), database.View(),
                [Event(id, JobCompleted, Some(Processing), Completed, now)])
    {
      hide EndsAs;
      updated := None;
      if id in database.jobs {
        var job := database.jobs[id];
        if job.tenant == tenant && Holds(job, workerId, now) {
          EndedAs(job, Ending.Complete(remoteState, download, polledAt), now);
          if polledAt.Some? {
            job := job.(pollCount := job.pollCount + 1, lastPolledAt := polledAt);
          }
          job := job.(
            status := Completed, stage := AtCompleted, remoteState := Some(remoteState), download := Some(download),
            failureCount := 0, completedAt := Some(now), leaseOwner := None, leaseExpiresAt := None,
            heartbeatAt := None, nextPollAt := None, nextAttemptAt := None, updatedAt := now);
          database.jobs := database.jobs[id := job];
          database.events := database.events + [Event(id, JobCompleted, Some(Processing), Completed, now)];
          updated := Some(job);
        }
      }
    }

    method Fail(tenant: TenantId, id: JobId, workerId: WorkerId, code: ErrorCode, remoteState: Option<RemoteState>,
                polledAt: Option<Time>, now: Time) returns (updated: Option<Job>)
      modifies database
      ensures database.View() == EndAndLog(old(database.View()), tenant, id, workerId, Ending.Fail(code, remoteState, polledAt), now)
      ensures updated.Some? <==> LeasedBeyond(old(database.jobs), tenant, id, workerId, now)
      ensures updated.None? ==> database.View() == old(database.View())
      ensures updated.Some? ==>
        && OnlyRow(old(database.View()), database.View(), id) && updated.value == database.jobs[id]
        && EndsAs(old(database.jobs)[id], updated.value, Ending.Fail(code, remoteState, polledAt), now)
        && Logs(old(database.View()), database.View(),
                [Event(id, JobFailed, Some(Processing), Failed, now)])
    {
      hide EndsAs;
      updated := None;
      if id in database.jobs {
        var job := database.jobs[id];
        if job.tenant == tenant && Holds(job, workerId, now) {
          EndedAs(job, Ending.Fail(code, remoteState, polledAt), now);
          if polledAt.Some? {
            job := job.(pollCount := job.pollCount + 1, lastPolledAt := polledAt);
          }
          job := job.(
            status := Failed, stage := AtFailed, remoteState := remoteState, errorCode := Some(code),
            completedAt := Some(now), leaseOwner := None, leaseExpiresAt := None,
            heartbeatAt := None, nextPollAt := None, nextAttemptAt := None, updatedAt := now);
          database.jobs := database.jobs[id := job];
          database.events := database.events + [Event(id, JobFailed, Some(Processing), Failed, now)];
          updated := Some(job);
        }
      }
    }

    method MarkRemoteCancelled(tenant: TenantId, id: JobId, workerId: WorkerId, remoteState: RemoteState,
                               polledAt: Option<Time>, now: Time) returns (updated: Option<Job>)
      modifies database
      ensures database.View() == EndAndLog(old(database.View()), tenant, id, workerId,
                                           Ending.MarkRemoteCancelled(remoteState, polledAt), now)
      ensures updated.Some? <==> LeasedBeyond(old(database.jobs), tenant, id, workerId, now)
      ensures updated.None? ==> database.View() == old(database.View())
      ensures updated.Some? ==>
        && OnlyRow(old(database.View()), database.View(), id) && updated.value == database.jobs[id]
        && EndsAs(old(database.jobs)[id], updated.value, Ending.MarkRemoteCancelled(remoteState, polledAt), now)
        && Logs(old(database.View()), database.View(),
                [Event(id, JobCancelled, Some(Processing), Cancelled, now)])
    {
      hide EndsAs;
      updated := None;
      if id in database.jobs {
        var job := database.jobs[id];
        if job.tenant == tenant && Holds(job, workerId, now) {
          EndedAs(job, Ending.MarkRemoteCancelled(remoteState, polledAt), now);
          if polledAt.Some? {
            job := job.(pollCount := job.pollCount + 1, lastPolledAt := polledAt);
          }
          job := job.(
            status := Cancelled, stage := AtCancelled, remoteState := Some(remoteState), cancelledAt := Some(now),
            leaseOwner := None, leaseExpiresAt := None, heartbeatAt := None, nextPollAt := None,
            nextAttemptAt := None, updatedAt := now);
          database.jobs := database.jobs[id := job];
          database.events := database.events + [Event(id, JobCancelled, Some(Processing), Cancelled, now)];
          updated := Some(job);
        }
      }
    }

    method Cancel(tenant: TenantId, id: JobId, now: Time) returns (cancelled: Option<Job>)
      modifies database
      ensures database.View() == PublishJobs.Cancel(old(database.View()), tenant, id, now)
      ensures cancelled.Some? <==>
        && id in old(database.jobs) && old(database.jobs)[id].tenant == tenant
        && old(database.jobs)[id].status in {Queued, Waiting, Retrying}
      ensures cancelled.None? ==> database.View() == old(database.View())
      ensures cancelled.Some? ==>
        var was, row := old(database.jobs)[id], cancelled.value;
        && OnlyRow(old(database.View()), database.View(), id) && row == database.jobs[id]
        && Leaves(was, row, Cancelled, AtCancelled, now) && Schedules(row, None, None)
        && row.remoteJobId == was.remoteJobId && row.failureCount == was.failureCount && CountsPoll(was, row, None)
        && SameOutcome(was.(cancelledAt := Some(now)), row)
        && Logs(old(database.View()), database.View(), [Event(id, JobCancelled, Some(was.status), Cancelled, now)])
    {
      cancelled := None;
      if id in database.jobs {
        var current := database.jobs[id];
        if current.tenant == tenant && Cancellable(current) {
          var job := current.(
            status := Cancelled, stage := AtCancelled, cancelledAt := Some(now), leaseOwner := None,
            leaseExpiresAt := None, heartbeatAt := None, nextAttemptAt := None, nextPollAt := None, updatedAt := now);
          database.jobs := database.jobs[id := job];
          database.events := database.events + [Event(id, JobCancelled, Some(current.status), Cancelled, now)];
          cancelled := Some(job);
        }
      }
    }

    /** The body of the sweep's loop. */
    method RecoverRow(id: JobId, now: Time, maxFailures: nat, retryMs: int)
      requires id in database.jobs && LeaseOver(database.jobs[id], now)
      modifies database
      ensures database.jobs == old(database.jobs)[id := Recovered(old(database.jobs)[id], maxFailures, retryMs, now)]
      ensures database.events ==
        old(database.events) + [RecoveryEvent(id, old(database.jobs)[id], maxFailures, retryMs, now)]
    {
      var stale := database.jobs[id];
      var failures := stale.failureCount + 1;
      var updated := stale.(failureCount := failures, leaseOwner := None, leaseExpiresAt := None, heartbeatAt := None, updatedAt := now);
      if failures >= maxFailures {
        updated := updated.(
          status := Failed, stage := AtFailed, errorCode := Some(RetryExhausted), completedAt := Some(now),
          nextPollAt := None, nextAttemptAt := None);
      } else if stale.remoteJobId.Some? {
        updated := updated.(
          status := Waiting, stage := WaitingForRemote, errorCode := Some(LeaseMismatch), nextAttemptAt := None,
          nextPollAt := Some(now + retryMs));
      } else {
        updated := updated.(
          status := Retrying, stage := AtFailed, errorCode := Some(LeaseMismatch), nextAttemptAt := Some(now + retryMs),
          nextPollAt := None);
      }
      database.jobs := database.jobs[id := updated];
      database.events := database.events + [Event(id, JobLeaseExpired, Some(Processing), updated.status, now)];
    }

    /** One sweep: every selected row is recovered once, in order, and no row that was not selected changes. */
    method RecoverStaleLeases(now: Time, maxFailures: nat, retryMs: int, limit: nat, staleRows: seq<JobId>) returns (recovered: nat)
      requires StaleSelection(database.jobs, now, limit, staleRows)
      modifies database
      ensures recovered == |staleRows|
      ensures database.jobs.Keys == old(database.jobs).Keys
      ensures forall id :: id in old(database.jobs) ==>
        if id in staleRows
        then
          && RecoversTo(old(database.jobs)[id], database.jobs[id], maxFailures, retryMs, now)
          && database.jobs[id] == Recovered(old(database.jobs)[id], maxFailures, retryMs, now)
        else database.jobs[id] == old(database.jobs)[id]
      ensures |database.events| == |old(database.events)| + |staleRows| && old(database.events) <= database.events
      ensures forall i :: 0 <= i < |staleRows| ==>
        && staleRows[i] in database.jobs
        && database.events[|old(database.events)| + i]
           == Event(staleRows[i], JobLeaseExpired, Some(Processing), database.jobs[staleRows[i]].status, now)
      ensures |staleRows| < limit ==> forall id :: id in database.jobs ==> !LeaseOver(database.jobs[id], now)
    {
      hide RecoveryEvent, Swept, RecoversTo, Recovered, LeaseOver;
      recovered := 0;
      ghost var before, log := database.jobs, database.events;
      NothingSwept(before, maxFailures, retryMs, now);
      assert staleRows[..0] == [];
      for n := 0 to |staleRows|
        invariant recovered == n && Swept(before, database.jobs, staleRows[..n], maxFailures, retryMs, now)
        invariant database.events == log
          + seq(n, i requires 0 <= i < n && staleRows[i] in before =>
                  RecoveryEvent(staleRows[i], before[staleRows[i]], maxFailures, retryMs, now))
      {
        assert staleRows[n] !in staleRows[..n] && staleRows[..n + 1] == staleRows[..n] + [staleRows[n]];
        SweptMore(before, database.jobs, staleRows[..n], staleRows[n], maxFailures, retryMs, now);
        RecoverRow(staleRows[n], now, maxFailures, retryMs);
        recovered := recovered + 1;
      }
      assert staleRows[..|staleRows|] == staleRows;
      SweptRows(before, database.jobs, staleRows, maxFailures, retryMs, now);
      forall id | id in staleRows
        ensures RecoversTo(before[id], database.jobs[id], maxFailures, retryMs, now) && !LeaseOver(database.jobs[id], now)
      {
        RecoveredTo(before[id], maxFailures, retryMs, now);
      }
      forall i | 0 <= i < |staleRows|
        ensures RecoveryEvent(staleRows[i], before[staleRows[i]], maxFailures, retryMs, now)
             == Event(staleRows[i], JobLeaseExpired, Some(Processing), database.jobs[staleRows[i]].status, now)
      {
        RecoveredLogs(staleRows[i], before[staleRows[i]], maxFailures, retryMs, now);
      }
    }
  }

  datatype Outcome = OutcomeRetryScheduled | OutcomeFailed | OutcomeLeaseLost

  /** The failure path of an execution that read `job` when it started. */
  class PublishJobExecutor {
    const repository: DrizzlePublishJobRepository
    const maxConsecutiveFailures: nat
    const retryPolicy: RetryPolicyConfig

    constructor (repository: DrizzlePublishJobRepository, maxConsecutiveFailures: nat, retryPolicy: RetryPolicyConfig)
      ensures this.repository == repository && this.maxConsecutiveFailures == maxConsecutiveFailures
      ensures this.retryPolicy == retryPolicy
    {
      this.repository, this.maxConsecutiveFailures, this.retryPolicy := repository, maxConsecutiveFailures, retryPolicy;
    }

    /** `random` is the draw that jitters the delay. */
    method HandleFailure(id: JobId, job: Job, worker: WorkerId, polling: bool, retryable: bool, code: ErrorCode, random: real, now: Time)
      returns (outcome: Outcome)
      modifies repository.database
      ensures repository.database.View()
        == EndAndLog(old(repository.database.View()), job.tenant, id, worker,
                     FailureEnding(job, polling, retryable, code, maxConsecutiveFailures,
                                   CalculateRetryDelayMs(job.failureCount + 1, retryPolicy, random), now), now)
      ensures var jobs, lastState := old(repository.database.jobs), if polling && job.remoteJobId != None then job.remoteState else None;
        if !LeasedBeyond(jobs, job.tenant, id, worker, now)
        then outcome.OutcomeLeaseLost? && repository.database.View() == old(repository.database.View())
        else
          && OnlyRow(old(repository.database.View()), repository.database.View(), id)
          && if retryable && job.failureCount + 1 < maxConsecutiveFailures
             then
               && outcome.OutcomeRetryScheduled?
               && EndsAs(jobs[id], repository.database.jobs[id],
                         RecordRetry(code, now + CalculateRetryDelayMs(job.failureCount + 1, retryPolicy, random)), now)
             else
               && outcome.OutcomeFailed?
               && EndsAs(jobs[id], repository.database.jobs[id],
                         Fail(if retryable then RetryExhausted else code, lastState, None), now)
    {
      hide CalculateRetryDelayMs, EndsAs, Leaves, SameOutcome;
      var lastState := if polling && job.remoteJobId.Some? then job.remoteState else None;
      if !retryable {
        var failed := repository.Fail(job.tenant, id, worker, code, lastState, None, now);
        return if failed.Some? then OutcomeFailed else OutcomeLeaseLost;
      }
      var nextFailureCount := job.failureCount + 1;
      if nextFailureCount >= maxConsecutiveFailures {
        var failed := repository.Fail(job.tenant, id, worker, RetryExhausted, lastState, None, now);
        return if failed.Some? then OutcomeFailed else OutcomeLeaseLost;
      }
      var delayMs := CalculateRetryDelayMs(nextFailureCount, retryPolicy, random);
      var retried := repository.RecordRetry(job.tenant, id, worker, code, now + delayMs, now);
      return if retried.Some? then OutcomeRetryScheduled else OutcomeLeaseLost;
    }
  }
}
