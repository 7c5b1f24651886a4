/** The job source as the workers call it: guarded in-place updates of shared tables, each proved against its transition. */
module ContentJobSource {
  import opened Basics
  import opened ContentJobs
  import opened RetryPolicy

  /** The two tables that every worker, canceller and recovery sweep shares. */
  class Database {
    var jobs: map<JobId, Job>
    var events: seq<Event>

    constructor ()
      ensures View() == Db(map[], [])
    {
      jobs, events := map[], [];
    }

    ghost function View(): Db
      reads this
    {
      Db(jobs, events)
    }
  }

  lemma ClaimableIsDue(j: Job, now: Time)
    ensures Claimable(j, now) <==> Due(j, now)
  {
  }

  /** A non-empty finite set of jobs has an oldest member. */
  lemma OldestExists(jobs: map<JobId, Job>, ids: set<JobId>) returns (oldest: JobId)
    requires ids != {} && ids <= jobs.Keys
    ensures oldest in ids && forall k :: k in ids ==> jobs[oldest].createdAt <= jobs[k].createdAt
  {
    oldest :| oldest in ids;
    if ids != {oldest} {
      var rest := OldestExists(jobs, ids - {oldest});
      if jobs[rest].createdAt < jobs[oldest].createdAt {
        oldest := rest;
      }
    }
  }

  class DatabaseJobSource {
    const database: Database

    constructor (database: Database)
      ensures this.database == database
    {
      this.database := database;
    }

    /** Claims an oldest claimable row; nothing is claimed exactly when nothing is claimable. */
    method AcquireNext(workerId: WorkerId, leaseDurationMs: nat, now: Time) returns (claim: Option<(JobId, Job)>)
      modifies database
      ensures claim.None? <==> forall k :: k in old(database.jobs) ==> !Due(old(database.jobs)[k], now)
      ensures claim.None? ==> database.View() == old(database.View())
      ensures claim.Some? ==>
        var id, row := claim.value.0, claim.value.1;
        && id in old(database.jobs) && Due(old(database.jobs)[id], now)
        && (forall k :: k in old(database.jobs) && Due(old(database.jobs)[k], now)
              ==> old(database.jobs)[id].createdAt <= old(database.jobs)[k].createdAt)
        && OnlyRow(old(database.View()), database.View(), id) && row == database.jobs[id]
        && row.status == Processing && row.leaseOwner == Some(workerId)
        && row.leaseExpiresAt == Some(now + leaseDurationMs) && row.heartbeatAt == Some(now) && row.updatedAt == now
        && row.attemptCount == old(database.jobs)[id].attemptCount + 1 && row.stage == NormalizingTranscript
        && row.startedAt == (if old(database.jobs)[id].startedAt != None then old(database.jobs)[id].startedAt else Some(now))
        && SameColumns(old(database.jobs)[id], row)
        && LogsOne(old(database.View()), database.View(), id, LeaseAcquired, now)
        && database.View() == Acquire(old(database.View()), id, workerId, leaseDurationMs, now)
    {
      hide Due, Claimable;
      var candidates := set k | k in database.jobs && Claimable(database.jobs[k], now);
      forall k | k in database.jobs ensures Claimable(database.jobs[k], now) <==> Due(database.jobs[k], now) {
        ClaimableIsDue(database.jobs[k], now);
      }
      if candidates == {} {
        forall k | k in database.jobs ensures !Claimable(database.jobs[k], now) {
          assert k !in candidates;
        }
        return None;
      }
      ghost var oldest := OldestExists(database.jobs, candidates);
      var id :| id in candidates && forall k :: k in candidates ==> database.jobs[id].createdAt <= database.jobs[k].createdAt;
      var prior := database.jobs[id];
      var updated := prior.(
        status := Processing, stage := NormalizingTranscript, attemptCount := prior.attemptCount + 1,
        startedAt := if prior.startedAt.Some? then prior.startedAt else Some(now),
        leaseOwner := Some(workerId), leaseExpiresAt := Some(now + leaseDurationMs), heartbeatAt := Some(now),
        updatedAt := now);
      database.jobs := database.jobs[id := updated];
      database.events := database.events + [Event(id, LeaseAcquired, Some(prior.status), Processing, now)];
      claim := Some((id, updated));
    }

    method RenewLease(tenant: TenantId, id: JobId, workerId: WorkerId, leaseDurationMs: nat, now: Time) returns (renewed: Option<Job>)
      modifies database
      ensures database.View() == Renew(old(database.View()), tenant, id, workerId, leaseDurationMs, now)
      ensures renewed.Some? <==> LeasedBeyond(old(database.jobs), tenant, id, workerId, now)
      ensures renewed.None? ==> database.View() == old(database.View())
      ensures renewed.Some? ==>
        var was, row := old(database.jobs)[id], renewed.value;
        && OnlyRow(old(database.View()), database.View(), id) && row == database.jobs[id]
        && row.leaseExpiresAt == Some(now + leaseDurationMs) && row.leaseOwner == Some(workerId)
        && row.heartbeatAt == Some(now) && row.updatedAt == now
        && row.status == Processing && row.attemptCount == was.attemptCount && row.stage == was.stage && row.startedAt == was.startedAt
        && SameColumns(was, row)
        && database.events == old(database.events)
    {
      renewed := None;
      if id in database.jobs {
        var job := database.jobs[id];
        if job.tenant == tenant && Holds(job, workerId, now) {
          job := job.(leaseExpiresAt := Some(now + leaseDurationMs), heartbeatAt := Some(now), updatedAt := now);
          database.jobs := database.jobs[id := job];
          renewed := Some(job);
        }
      }
    }

    method MarkStage(tenant: TenantId, id: JobId, workerId: WorkerId, stage: Stage, now: Time) returns (updated: Option<Job>)
      modifies database
      ensures database.View() == ContentJobs.MarkStage(old(database.View()), tenant, id, workerId, stage, now)
      ensures updated.Some? <==> LeasedBeyond(old(database.jobs), tenant, id, workerId, now)
      ensures updated.None? ==> database.View() == old(database.View())
      ensures updated.Some? ==>
        var was, row := old(database.jobs)[id], updated.value;
        && OnlyRow(old(database.View()), database.View(), id) && row == database.jobs[id]
        && row.stage == stage && row.updatedAt == now
        && row.leaseExpiresAt == was.leaseExpiresAt && row.leaseOwner == Some(workerId) && row.heartbeatAt == was.heartbeatAt
        && row.status == Processing && row.attemptCount == was.attemptCount && row.startedAt == was.startedAt
        && SameColumns(was, row)
        && database.events == old(database.events)
    {
      updated := None;
      if id in database.jobs {
        var job := database.jobs[id];
        if job.tenant == tenant && Holds(job, workerId, now) {
          job := job.(stage := stage, updatedAt := now);
          database.jobs := database.jobs[id := job];
          updated := Some(job);
        }
      }
    }

    method MarkCompleted(tenant: TenantId, id: JobId, workerId: WorkerId, result: JobResult, now: Time) returns (completed: Option<Job>)
      modifies database
      ensures database.View() == ContentJobs.MarkCompleted(old(database.View()), tenant, id, workerId, result, now)
      ensures completed.Some? <==> LeasedBeyond(old(database.jobs), tenant, id, workerId, now)
      ensures completed.None? ==> database.View() == old(database.View())
      ensures completed.Some? ==>
        && OnlyRow(old(database.View()), database.View(), id) && completed.value == database.jobs[id]
        && Leaves(old(database.jobs)[id], completed.value, Completed, now)
        && completed.value.result == Some(result) && completed.value.errorCode.None? && completed.value.nextAttemptAt.None?
        && completed.value.completedAt == Some(now) && completed.value.stage == AtCompleted
        && LogsOne(old(database.View()), database.View(), id, JobCompleted, now)
    {
      completed := None;
      if id in database.jobs {
        var job := database.jobs[id];
        if job.tenant == tenant && Holds(job, workerId, now) {
          job := job.(
            status := Completed, stage := AtCompleted, result := Some(result), completedAt := Some(now),
            errorCode := None, leaseOwner := None, leaseExpiresAt := None, heartbeatAt := None,
            nextAttemptAt := None, updatedAt := now);
          database.jobs := database.jobs[id := job];
          database.events := database.events + [Event(id, JobCompleted, Some(Processing), Completed, now)];
          completed := Some(job);
        }
      }
    }

    method ScheduleRetry(tenant: TenantId, id: JobId, workerId: WorkerId, code: ErrorCode, nextAttemptAt: Time, now: Time)
      returns (retried: Option<Job>)
      modifies database
      ensures database.View() == ContentJobs.ScheduleRetry(old(database.View()), tenant, id, workerId, code, nextAttemptAt, now)
      ensures retried.Some? <==> LeasedBeyond(old(database.jobs), tenant, id, workerId, now)
      ensures retried.None? ==> database.View() == old(database.View())
      ensures retried.Some? ==>
        && OnlyRow(old(database.View()), database.View(), id) && retried.value == database.jobs[id]
        && Leaves(old(database.jobs)[id], retried.value, Retrying, now)
        && retried.value.nextAttemptAt == Some(nextAttemptAt) && retried.value.errorCode == Some(code) && retried.value.result.None?
        && retried.value.completedAt.None? && retried.value.stage == AtFailed
        && LogsOne(old(database.View()), database.View(), id, RetryScheduled, now)
    {
      retried := None;
      if id in database.jobs {
        var job := database.jobs[id];
        if job.tenant == tenant && Holds(job, workerId, now) {
          job := job.(
            status := Retrying, stage := AtFailed, errorCode := Some(code), result := None, completedAt := None,
            leaseOwner := None, leaseExpiresAt := None, heartbeatAt := None,
            nextAttemptAt := Some(nextAttemptAt), updatedAt := now);
          database.jobs := database.jobs[id := job];
          database.events := database.events + [Event(id, RetryScheduled, Some(Processing), Retrying, now)];
          retried := Some(job);
        }
      }
    }

    method MarkFailed(tenant: TenantId, id: JobId, workerId: WorkerId, code: ErrorCode, now: Time) returns (failed: Option<Job>)
      modifies database
      ensures database.View() == ContentJobs.MarkFailed(old(database.View()), tenant, id, workerId, code, now)
      ensures failed.Some? <==> LeasedBeyond(old(database.jobs), tenant, id, workerId, now)
      ensures failed.None? ==> database.View() == old(database.View())
      ensures failed.Some? ==>
        && OnlyRow(old(database.View()), database.View(), id) && failed.value == database.jobs[id]
        && Leaves(old(database.jobs)[id], failed.value, Failed, now)
        && failed.value.nextAttemptAt.None? && failed.value.errorCode == Some(code) && failed.value.completedAt == Some(now)
        && failed.value.result.None? && failed.value.stage == AtFailed
        && LogsOne(old(database.View()), database.View(), id, JobFailed, now)
    {
      failed := None;
      if id in database.jobs {
        var job := database.jobs[id];
        if job.tenant == tenant && Holds(job, workerId, now) {
          job := job.(
            status := Failed, stage := AtFailed, errorCode := Some(code), result := None, completedAt := Some(now),
            leaseOwner := None, leaseExpiresAt := None, heartbeatAt := None, nextAttemptAt := None, updatedAt := now);
          database.jobs := database.jobs[id := job];
          database.events := database.events + [Event(id, JobFailed, Some(Processing), Failed, now)];
          failed := Some(job);
        }
      }
    }

    method RecoverStaleJob(tenant: TenantId, id: JobId, maxAttempts: nat, nextAttemptAt: Time, now: Time) returns (recovered: Option<Job>)
      modifies database
      ensures database.View() == Recover(old(database.View()), tenant, id, maxAttempts, nextAttemptAt, now)
      ensures recovered.Some? <==>
        && id in old(database.jobs) && old(database.jobs)[id].tenant == tenant && old(database.jobs)[id].status == Processing
        && old(database.jobs)[id].leaseExpiresAt != None && old(database.jobs)[id].leaseExpiresAt.value <= now
      ensures recovered.None? ==> database.View() == old(database.View())
      ensures recovered.Some? ==>
        var was, row := old(database.jobs)[id], recovered.value;
        && OnlyRow(old(database.View()), database.View(), id) && row == database.jobs[id]
        && RecoversTo(was, row, maxAttempts, nextAttemptAt, now)
        && LogsOne(old(database.View()), database.View(), id, JobLeaseExpired, now)
    {
      recovered := None;
      if id in database.jobs {
        var stale := database.jobs[id];
        if stale.tenant == tenant && stale.status.Processing? && Expired(stale, now) {
          var exhausted := stale.attemptCount >= maxAttempts;
          var updated := stale.(leaseOwner := None, leaseExpiresAt := None, heartbeatAt := None, stage := AtFailed, updatedAt := now);
          if exhausted {
            updated := updated.(
              status := Failed, errorCode := Some(MaxAttemptsExceeded), completedAt := Some(now), nextAttemptAt := None);
          } else {
            updated := updated.(
              status := Retrying, errorCode := Some(LeaseExpired), completedAt := None, nextAttemptAt := Some(nextAttemptAt));
          }
          database.jobs := database.jobs[id := updated];
          database.events := database.events
            + [Event(id, JobLeaseExpired, Some(Processing), if exhausted then Failed else Retrying, now)];
          recovered := Some(updated);
        }
      }
    }

    /** The transaction behind cancel: error results leave both tables alone. */
    method Cancel(tenant: TenantId, id: JobId, now: Time) returns (cancelled: Option<Job>)
      modifies database
      ensures database.View() == ContentJobs.Cancel(old(database.View()), tenant, id, now)
      ensures cancelled.Some? <==>
        && id in old(database.jobs) && old(database.jobs)[id].tenant == tenant && old(database.jobs)[id].status in {Queued, Retrying}
      ensures cancelled.None? ==> database.View() == old(database.View())
      ensures cancelled.Some? ==>
        var was, row := old(database.jobs)[id], cancelled.value;
        && OnlyRow(old(database.View()), database.View(), id) && row == database.jobs[id]
        && row.status == Cancelled && row.stage == AtFailed && row.result.None? && row.completedAt == Some(now) && row.updatedAt == now
        && row.attemptCount == was.attemptCount && row.tenant == was.tenant && row.project == was.project
        && row.createdAt == was.createdAt && row.startedAt == was.startedAt && row.errorCode == was.errorCode
        && row.nextAttemptAt == was.nextAttemptAt
        && row.leaseOwner == was.leaseOwner && row.leaseExpiresAt == was.leaseExpiresAt && row.heartbeatAt == was.heartbeatAt
        && LogsOne(old(database.View()), database.View(), id, JobCancelled, now)
    {
      cancelled := None;
      if id in database.jobs {
        var current := database.jobs[id];
        if current.tenant == tenant && TransitionAllowed(current.status, Cancelled) {
          var updated := current.(
            completedAt := Some(now), result := None, status := Cancelled, stage := AtFailed, updatedAt := now);
          database.jobs := database.jobs[id := updated];
          database.events := database.events + [Event(id, JobCancelled, Some(current.status), Cancelled, now)];
          cancelled := Some(updated);
        }
      }
    }
  }

  datatype Outcome = OutcomeRetryScheduled | OutcomeFailed | OutcomeCancelled | OutcomeLeaseLost

  /** The failure path of one execution: its decision is taken from the row it claimed, not from the row as it is now. */
  class JobExecutor {
    const jobSource: DatabaseJobSource
    const maxAttempts: nat
    const retryPolicy: RetryPolicyConfig

    constructor (jobSource: DatabaseJobSource, maxAttempts: nat, retryPolicy: RetryPolicyConfig)
      ensures this.jobSource == jobSource && this.maxAttempts == maxAttempts && this.retryPolicy == retryPolicy
    {
      this.jobSource, this.maxAttempts, this.retryPolicy := jobSource, maxAttempts, retryPolicy;
    }

    /** The executor and its retry policy each bring a limit; the lower one counts. */
    function Limit(): nat {
      Max(0, Min(maxAttempts, retryPolicy.maxAttempts))
    }

    /** `random` is the draw that jitters the delay; the failing write reads the clock once more. */
    method ScheduleRetryOrFail(id: JobId, claim: Job, worker: WorkerId, code: ErrorCode, random: real, now: Time, failedAt: Time)
      returns (outcome: Outcome)
      modifies jobSource.database
      ensures jobSource.database.View() ==
        RetryOrFail(old(jobSource.database.View()), claim.tenant, id, worker, claim.attemptCount, Limit(), code,
                    now + CalculateRetryDelayMs(claim.attemptCount + 1, retryPolicy, random),
                    if claim.attemptCount >= Limit() then failedAt else now)
      ensures
        var jobs := old(jobSource.database.jobs);
        var exhausted := claim.attemptCount >= maxAttempts || claim.attemptCount >= retryPolicy.maxAttempts;
        if !LeasedBeyond(jobs, claim.tenant, id, worker, if exhausted then failedAt else now)
        then outcome.OutcomeLeaseLost? && jobSource.database.View() == old(jobSource.database.View())
        else
          && OnlyRow(old(jobSource.database.View()), jobSource.database.View(), id)
          && var row := jobSource.database.jobs[id];
          if exhausted
          then
            && outcome == (if code.WorkerCancelled? then OutcomeCancelled else OutcomeFailed)
            && Leaves(jobs[id], row, Failed, failedAt) && row.errorCode == Some(MaxAttemptsExceeded)
            && LogsOne(old(jobSource.database.View()), jobSource.database.View(), id, JobFailed, failedAt)
          else
            && outcome == (if code.WorkerCancelled? then OutcomeCancelled else OutcomeRetryScheduled)
            && Leaves(jobs[id], row, Retrying, now) && row.errorCode == Some(code)
            && row.nextAttemptAt == Some(now + CalculateRetryDelayMs(claim.attemptCount + 1, retryPolicy, random))
            && LogsOne(old(jobSource.database.View()), jobSource.database.View(), id, RetryScheduled, now)
    {
      hide CalculateRetryDelayMs;
      var decision := EvaluateRetry(claim.attemptCount, now, true, retryPolicy, random);
      if decision.NoRetry? || claim.attemptCount >= maxAttempts {
        var failed := jobSource.MarkFailed(claim.tenant, id, worker, MaxAttemptsExceeded, failedAt);
        return if failed.None? then OutcomeLeaseLost else if code.WorkerCancelled? then OutcomeCancelled else OutcomeFailed;
      }
      var scheduled := jobSource.ScheduleRetry(claim.tenant, id, worker, code, decision.nextAttemptAt, now);
      return if scheduled.None? then OutcomeLeaseLost else if code.WorkerCancelled? then OutcomeCancelled else OutcomeRetryScheduled;
    }
  }

  /** The rows as the sweep listed them; by the time each is recovered it may have changed. */
  datatype Listed = Listed(id: JobId, job: Job)

  ghost predicate DistinctIds(stale: seq<Listed>) {
    forall i, k :: 0 <= i < k < |stale| ==> stale[i].id != stale[k].id
  }

  ghost function CountStale(db: Db, stale: seq<Listed>, now: Time): nat {
    if stale == [] then 0
    else CountStale(db, stale[..|stale| - 1], now)
         + (if StillStale(db, stale[|stale| - 1], now) then 1 else 0)
  }

  /** The row is processing under a lease that has run out, and still belongs to the tenant it was listed for. */
  ghost predicate StillStale(db: Db, row: Listed, now: Time) {
    && row.id in db.jobs && db.jobs[row.id].tenant == row.job.tenant && db.jobs[row.id].status == Processing
    && db.jobs[row.id].leaseExpiresAt != None && db.jobs[row.id].leaseExpiresAt.value <= now
  }

  /** Recovery releases the lease: a row whose attempts are used up fails, another one retries at the given time. */
  ghost predicate RecoversTo(was: Job, row: Job, maxAttempts: nat, nextAttemptAt: Time, now: Time) {
    && row.result == was.result && row.stage == AtFailed
    && if was.attemptCount >= maxAttempts
       then Leaves(was, row, Failed, now) && row.nextAttemptAt.None? && row.completedAt == Some(now)
            && row.errorCode == Some(MaxAttemptsExceeded)
       else Leaves(was, row, Retrying, now) && row.nextAttemptAt == Some(nextAttemptAt) && row.completedAt.None?
            && row.errorCode == Some(LeaseExpired)
  }

  /** The sweep as a function: each listed row is recovered if it is still stale when its turn comes. */
  function Sweep(db: Db, stale: seq<Listed>, maxAttempts: nat, delayMs: int -> int, now: Time): Db {
    if stale == [] then db
    else
      var row := stale[|stale| - 1];
      Recover(Sweep(db, stale[..|stale| - 1], maxAttempts, delayMs, now), row.job.tenant, row.id, maxAttempts,
              now + delayMs(row.job.attemptCount + 1), now)
  }

  method RunStaleRecovery(source: DatabaseJobSource, stale: seq<Listed>, maxAttempts: nat, delayMs: int -> int, now: Time)
    returns (recovered: nat)
    modifies source.database
    ensures source.database.View() == Sweep(old(source.database.View()), stale, maxAttempts, delayMs, now)
    ensures |source.database.events| == |old(source.database.events)| + recovered
  {
    recovered := 0;
    ghost var before := source.database.View();
    for i := 0 to |stale|
      invariant source.database.View() == Sweep(before, stale[..i], maxAttempts, delayMs, now)
      invariant |source.database.events| == |before.events| + recovered
    {
      var row := stale[i];
      var updated := source.RecoverStaleJob(row.job.tenant, row.id, maxAttempts, now + delayMs(row.job.attemptCount + 1), now);
      assert stale[..i + 1][..i] == stale[..i];
      if updated.Some? {
        recovered := recovered + 1;
      }
    }
    assert stale[..|stale|] == stale;
  }

  predicate Lists(stale: seq<Listed>, id: JobId) {
    exists i :: 0 <= i < |stale| && stale[i].id == id
  }

  /** A sweep leaves every row alone that it does not list, and adds or deletes none. */
  lemma {:induction false} SweepKeepsOthers(db: Db, stale: seq<Listed>, maxAttempts: nat, delayMs: int -> int, now: Time, id: JobId)
    ensures id in Sweep(db, stale, maxAttempts, delayMs, now).jobs <==> id in db.jobs
    ensures id in db.jobs && !Lists(stale, id) ==> Sweep(db, stale, maxAttempts, delayMs, now).jobs[id] == db.jobs[id]
    decreases |stale|
  {
    if stale != [] {
      var init := stale[..|stale| - 1];
      SweepKeepsOthers(db, init, maxAttempts, delayMs, now, id);
      if Lists(init, id) {
        var i :| 0 <= i < |init| && init[i].id == id;
        assert stale[i].id == id;
      }
      assert Lists(stale, stale[|stale| - 1].id);
    }
  }

  lemma LastIsNew(stale: seq<Listed>)
    requires stale != [] && DistinctIds(stale)
    ensures DistinctIds(stale[..|stale| - 1]) && !Lists(stale[..|stale| - 1], stale[|stale| - 1].id)
  {
    var init := stale[..|stale| - 1];
    assert forall i :: 0 <= i < |init| ==> init[i] == stale[i];
  }

  /** A listed row is recovered exactly if it is still stale. */
  lemma {:induction false} SweepRecoversListed(db: Db, stale: seq<Listed>, maxAttempts: nat, delayMs: int -> int, now: Time, i: nat)
    requires DistinctIds(stale) && i < |stale| && stale[i].id in db.jobs
    ensures stale[i].id in Sweep(db, stale, maxAttempts, delayMs, now).jobs
    ensures var was, row := db.jobs[stale[i].id], Sweep(db, stale, maxAttempts, delayMs, now).jobs[stale[i].id];
            if StillStale(db, stale[i], now)
            then RecoversTo(was, row, maxAttempts, now + delayMs(stale[i].job.attemptCount + 1), now) else row == was
    decreases |stale|
  {
    var init := stale[..|stale| - 1];
    LastIsNew(stale);
    if i < |init| {
      assert init[i] == stale[i] && stale[i].id != stale[|stale| - 1].id;
      SweepRecoversListed(db, init, maxAttempts, delayMs, now, i);
    } else {
      SweepKeepsOthers(db, init, maxAttempts, delayMs, now, stale[i].id);
    }
  }

  /** Each recovery logs one event, so the number a sweep returns is the number of listed rows that were still stale. */
  lemma {:induction false} SweepCountsStale(db: Db, stale: seq<Listed>, maxAttempts: nat, delayMs: int -> int, now: Time)
    requires DistinctIds(stale)
    ensures |Sweep(db, stale, maxAttempts, delayMs, now).events| == |db.events| + CountStale(db, stale, now)
    decreases |stale|
  {
    if stale != [] {
      LastIsNew(stale);
      SweepCountsStale(db, stale[..|stale| - 1], maxAttempts, delayMs, now);
      SweepKeepsOthers(db, stale[..|stale| - 1], maxAttempts, delayMs, now, stale[|stale| - 1].id);
    }
  }
}
