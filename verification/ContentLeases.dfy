/** Leases of content jobs: who may write, until when, and why an execution that lost its lease changes nothing any more. */
module ContentLeases {
  import opened Basics
  import opened ContentJobs
  import opened ContentProtocol

  predicate ByWorker(s: State, step: Step, id: JobId, worker: WorkerId) {
    && (step.DoComplete? || step.DoRetryOrFail? || step.DoFail?)
    && step.exec in s.live && s.live[step.exec].job == id && s.live[step.exec].worker == worker
  }

  /** Every step reads a clock between from and from + leaseMs, renewals ask for leaseMs, and the holder releases nothing. */
  predicate WithinLease(cfg: Config, s: State, steps: seq<Step>, id: JobId, worker: WorkerId, from: Time, leaseMs: int)
    requires Legal(cfg, s, steps)
    decreases |steps|
  {
    steps == []
    || (&& (steps[0].DoAbandon? || from <= steps[0].now < from + leaseMs)
        && (steps[0].DoRenew? ==> steps[0].leaseMs == leaseMs)
        && !ByWorker(s, steps[0], id, worker)
        && WithinLease(cfg, Next(cfg, s, steps[0]), steps[1..], id, worker, from, leaseMs))
  }

  predicate LeasedUntil(db: Db, id: JobId, worker: WorkerId, e: Time) {
    && id in db.jobs && db.jobs[id].status.Processing? && db.jobs[id].leaseOwner == Some(worker)
    && db.jobs[id].leaseExpiresAt.Some? && db.jobs[id].leaseExpiresAt.value >= e
  }

  lemma StepKeepsLease(cfg: Config, s: State, step: Step, id: JobId, worker: WorkerId, e: Time)
    requires Enabled(cfg, s, step) && LeasedUntil(s.db, id, worker, e)
    requires step.DoAbandon? || step.now < e
    requires step.DoRenew? ==> step.now + step.leaseMs >= e
    requires !ByWorker(s, step, id, worker)
    ensures LeasedUntil(Write(cfg, s, step), id, worker, e)
    ensures Write(cfg, s, step).jobs[id].attemptCount == s.db.jobs[id].attemptCount
  {
  }

  /** Lease safety: while a lease lasts, the job stays with its worker, whatever all other workers, cancellers and recovery
      sweeps do before it ends; in particular nobody's claim takes it. */
  lemma {:induction false} LeaseIsExclusive(cfg: Config, s: State, steps: seq<Step>, id: JobId, worker: WorkerId, from: Time,
                                            leaseMs: int)
    requires Legal(cfg, s, steps) && LeasedUntil(s.db, id, worker, from + leaseMs)
    requires WithinLease(cfg, s, steps, id, worker, from, leaseMs)
    ensures LeasedUntil(After(cfg, s, steps).db, id, worker, from + leaseMs)
    ensures After(cfg, s, steps).db.jobs[id].attemptCount == s.db.jobs[id].attemptCount
    ensures forall i :: 0 <= i < |steps| ==> !(steps[i].DoClaim? && steps[i].id == id)
    decreases |steps|
  {
    if steps != [] {
      StepKeepsLease(cfg, s, steps[0], id, worker, from + leaseMs);
      LeaseIsExclusive(cfg, Next(cfg, s, steps[0]), steps[1..], id, worker, from, leaseMs);
      assert forall i :: 1 <= i < |steps| ==> steps[i] == steps[1..][i - 1];
    }
  }

  /** The step gives the worker a lease of leaseMs on the job: a claim it may make, or a renewal of a lease it still has. */
  ghost predicate Grants(cfg: Config, s: State, step: Step, id: JobId, worker: WorkerId, leaseMs: int, from: Time) {
    && Enabled(cfg, s, step) && id in s.db.jobs
    && match step
       case DoClaim(_, _, _, _, _) => step.id == id && step.worker == worker && step.leaseMs == leaseMs && step.now == from
       case DoRenew(x, _, _) =>
         && step.leaseMs == leaseMs && step.now == from && s.live[x].job == id && s.live[x].worker == worker
         && LeasedBeyond(s.db.jobs, s.live[x].claim.tenant, id, worker, from)
       case _ => false
  }

  lemma GrantLeases(cfg: Config, s: State, step: Step, id: JobId, worker: WorkerId, leaseMs: int, from: Time)
    requires Grants(cfg, s, step, id, worker, leaseMs, from)
    ensures var db := Write(cfg, s, step);
      && id in db.jobs && db.jobs[id].status == Processing && db.jobs[id].leaseOwner == Some(worker)
      && db.jobs[id].leaseExpiresAt == Some(from + leaseMs)
      && db.jobs[id].attemptCount == s.db.jobs[id].attemptCount + (if step.DoClaim? then 1 else 0)
    ensures step.DoClaim? ==> Due(s.db.jobs[id], from)
  {
  }

  /** A claim or renewal at instant from leases the job until from + leaseMs, and on every schedule that follows before that
      the job stays with the worker: nobody claims, recovers, cancels or ends it, and its attempt is still the claimed one. */
  lemma GrantIsExclusive(cfg: Config, s: State, step: Step, steps: seq<Step>, id: JobId, worker: WorkerId, leaseMs: int, from: Time)
    requires Grants(cfg, s, step, id, worker, leaseMs, from) && Legal(cfg, Next(cfg, s, step), steps)
    requires WithinLease(cfg, Next(cfg, s, step), steps, id, worker, from, leaseMs)
    ensures var now := After(cfg, Next(cfg, s, step), steps).db;
      && id in now.jobs && now.jobs[id].status == Processing && now.jobs[id].leaseOwner == Some(worker)
      && now.jobs[id].leaseExpiresAt != None && now.jobs[id].leaseExpiresAt.value >= from + leaseMs
      && now.jobs[id].attemptCount == s.db.jobs[id].attemptCount + (if step.DoClaim? then 1 else 0)
      && (steps == [] ==> now.jobs[id].leaseExpiresAt == Some(from + leaseMs))
    ensures step.DoClaim? ==> Due(s.db.jobs[id], from)
    ensures forall i :: 0 <= i < |steps| ==> !(steps[i].DoClaim? && steps[i].id == id)
  {
    hide Write, WithinLease, Enabled;
    GrantLeases(cfg, s, step, id, worker, leaseMs, from);
    LeaseIsExclusive(cfg, Next(cfg, s, step), steps, id, worker, from, leaseMs);
  }

  /** A claim may be made exactly of a due job, by a worker that runs fewer executions than its concurrency. */
  lemma ClaimEnabledIff(cfg: Config, s: State, x: nat, id: JobId, worker: WorkerId, leaseMs: int, now: Time)
    ensures Enabled(cfg, s, DoClaim(x, id, worker, leaseMs, now)) <==>
            && x !in s.live && id in s.db.jobs && Due(s.db.jobs[id], now)
            && |set y | y in s.live && s.live[y].worker == worker| < cfg.concurrency
  {
    assert LiveOf(s, worker) == set y | y in s.live && s.live[y].worker == worker;
  }

  /** What a write does to its row when it takes effect. */
  ghost predicate Takes(cfg: Config, claim: Job, step: Step, was: Job, row: Job) {
    match step
    case DoRenew(_, leaseMs, now) =>
      row == was.(leaseExpiresAt := Some(now + leaseMs), heartbeatAt := Some(now), updatedAt := now)
    case DoStage(_, stage, now) => row == was.(stage := stage, updatedAt := now)
    case DoComplete(_, result, now) => Leaves(was, row, Completed, now) && row.result == Some(result) && row.errorCode == None
    case DoRetryOrFail(_, code, at, now) =>
      if claim.attemptCount >= cfg.maxAttempts
      then Leaves(was, row, Failed, now) && row.result == None && row.errorCode == Some(MaxAttemptsExceeded)
      else Leaves(was, row, Retrying, now) && row.result == None && row.errorCode == Some(code) && row.nextAttemptAt == Some(at)
    case DoFail(_, code, now) => Leaves(was, row, Failed, now) && row.result == None && row.errorCode == Some(code)
    case DoRecover(_, _, at, now) =>
      if was.attemptCount >= cfg.maxAttempts
      then Leaves(was, row, Failed, now) && row.errorCode == Some(MaxAttemptsExceeded)
      else Leaves(was, row, Retrying, now) && row.errorCode == Some(LeaseExpired) && row.nextAttemptAt == Some(at)
    case DoCancel(_, _, now) =>
      row == was.(status := Cancelled, stage := AtFailed, result := None, completedAt := Some(now), updatedAt := now)
    case _ => false
  }

  /** A write of a worker takes effect exactly when the row is processing under its own unexpired lease. */
  lemma FencedWrites(cfg: Config, s: State, step: Step)
    requires Enabled(cfg, s, step)
    requires step.DoRenew? || step.DoStage? || step.DoComplete? || step.DoRetryOrFail? || step.DoFail?
    ensures var e, db := s.live[step.exec], Write(cfg, s, step);
      if LeasedBeyond(s.db.jobs, e.claim.tenant, e.job, e.worker, step.now)
      then OnlyRow(s.db, db, e.job) && Takes(cfg, e.claim, step, s.db.jobs[e.job], db.jobs[e.job])
      else db == s.db
  {
  }

  /** Cancelling asks for a job of the tenant that waits for a worker, recovery for one whose lease has run out. */
  lemma UnfencedWrites(cfg: Config, s: State, step: Step)
    requires step.DoCancel? || step.DoRecover?
    ensures Enabled(cfg, s, step)
    ensures var db := Write(cfg, s, step);
      if step.id in s.db.jobs && s.db.jobs[step.id].tenant == step.tenant
         && (if step.DoCancel? then s.db.jobs[step.id].status in {Queued, Retrying}
             else s.db.jobs[step.id].status == Processing && s.db.jobs[step.id].leaseExpiresAt != None
                  && s.db.jobs[step.id].leaseExpiresAt.value <= step.now)
      then OnlyRow(s.db, db, step.id) && Takes(cfg, s.db.jobs[step.id], step, s.db.jobs[step.id], db.jobs[step.id])
      else db == s.db
  {
  }

  /** A new job is queued and unleased, without attempts or result, and its creation is logged. */
  lemma CreatesQueued(cfg: Config, s: State, step: Step)
    requires step.DoCreate?
    ensures Enabled(cfg, s, step) <==> step.id !in s.db.jobs
    ensures step.id !in s.db.jobs ==>
      var db := Write(cfg, s, step);
      && db.jobs.Keys == s.db.jobs.Keys + {step.id} && (forall k :: k in s.db.jobs ==> db.jobs[k] == s.db.jobs[k])
      && db.events == s.db.events + [Event(step.id, JobCreated, None, Queued, step.now)]
      && var j := db.jobs[step.id];
      && j.tenant == step.tenant && j.project == step.project && j.status == Queued && j.stage == AtQueued && j.attemptCount == 0
      && j.result == None && j.errorCode == None && j.leaseOwner == None && j.leaseExpiresAt == None && j.heartbeatAt == None
      && j.nextAttemptAt == None && j.startedAt == None && j.completedAt == None && j.createdAt == j.updatedAt == step.now
  {
  }

  // ---------------------------------------------------------------- after the lease is lost

  /** The step is a write of an execution of this worker for this job. */
  predicate WritesFor(s: State, step: Step, id: JobId, worker: WorkerId) {
    && (step.DoRenew? || step.DoStage? || step.DoComplete? || step.DoRetryOrFail? || step.DoFail?)
    && step.exec in s.live && s.live[step.exec].job == id && s.live[step.exec].worker == worker
  }

  predicate ClaimsFor(step: Step, id: JobId, worker: WorkerId) {
    step.DoClaim? && step.id == id && step.worker == worker
  }

  /** Along the schedule no write of this worker for this job changes anything. */
  predicate Silent(cfg: Config, s: State, steps: seq<Step>, id: JobId, worker: WorkerId)
    requires Legal(cfg, s, steps)
    decreases |steps|
  {
    steps == []
    || (&& (WritesFor(s, steps[0], id, worker) ==> Write(cfg, s, steps[0]) == s.db)
        && Silent(cfg, Next(cfg, s, steps[0]), steps[1..], id, worker))
  }

  lemma OwnerOnlyByClaim(cfg: Config, s: State, step: Step, id: JobId, worker: WorkerId)
    requires Enabled(cfg, s, step) && id in s.db.jobs && !ClaimsFor(step, id, worker)
    ensures id in Write(cfg, s, step).jobs
    ensures Write(cfg, s, step).jobs[id].leaseOwner == Some(worker) ==> s.db.jobs[id].leaseOwner == Some(worker)
  {
  }

  lemma NotHeldIsSilent(cfg: Config, s: State, step: Step, id: JobId, worker: WorkerId)
    requires Enabled(cfg, s, step) && WritesFor(s, step, id, worker) && id in s.db.jobs && !Holds(s.db.jobs[id], worker, step.now)
    ensures Write(cfg, s, step) == s.db
  {
  }

  /** Once a worker does not own a job any more, because it was recovered, claimed by another or ended, nothing its old
      executions write for it takes effect, until the worker itself claims the job again. */
  lemma {:induction false} TakenOverIsSilent(cfg: Config, s: State, steps: seq<Step>, id: JobId, worker: WorkerId)
    requires Legal(cfg, s, steps) && id in s.db.jobs && s.db.jobs[id].leaseOwner != Some(worker)
    requires forall i :: 0 <= i < |steps| ==> !ClaimsFor(steps[i], id, worker)
    ensures Silent(cfg, s, steps, id, worker)
    ensures id in After(cfg, s, steps).db.jobs && After(cfg, s, steps).db.jobs[id].leaseOwner != Some(worker)
    decreases |steps|
  {
    if steps != [] {
      OwnerOnlyByClaim(cfg, s, steps[0], id, worker);
      if WritesFor(s, steps[0], id, worker) {
        NotHeldIsSilent(cfg, s, steps[0], id, worker);
      }
      TakenOverIsSilent(cfg, Next(cfg, s, steps[0]), steps[1..], id, worker);
    }
  }

  /** If the worker still owns the job, its lease has run out by e. */
  predicate RunOut(j: Job, worker: WorkerId, e: Time) {
    j.leaseOwner == Some(worker) ==> j.leaseExpiresAt.Some? && j.leaseExpiresAt.value <= e
  }

  lemma StepKeepsRunOut(cfg: Config, s: State, step: Step, id: JobId, worker: WorkerId, e: Time)
    requires Enabled(cfg, s, step) && id in s.db.jobs && RunOut(s.db.jobs[id], worker, e)
    requires !ClaimsFor(step, id, worker) && (step.DoAbandon? || step.now >= e)
    ensures id in Write(cfg, s, step).jobs && RunOut(Write(cfg, s, step).jobs[id], worker, e)
  {
  }

  /** Once the lease has run out and the clocks are past it, the old holder's writes change nothing, taken over or not. */
  lemma {:induction false} RunOutIsSilent(cfg: Config, s: State, steps: seq<Step>, id: JobId, worker: WorkerId, e: Time)
    requires Legal(cfg, s, steps) && id in s.db.jobs && RunOut(s.db.jobs[id], worker, e)
    requires forall i :: 0 <= i < |steps| ==> !ClaimsFor(steps[i], id, worker) && (steps[i].DoAbandon? || steps[i].now >= e)
    ensures Silent(cfg, s, steps, id, worker)
    decreases |steps|
  {
    if steps != [] {
      StepKeepsRunOut(cfg, s, steps[0], id, worker, e);
      if WritesFor(s, steps[0], id, worker) {
        NotHeldIsSilent(cfg, s, steps[0], id, worker);
      }
      RunOutIsSilent(cfg, Next(cfg, s, steps[0]), steps[1..], id, worker, e);
    }
  }
}
