/** Leases of publish jobs: who may write, until when, and why no job is left behind. */
module PublishLeases {
  import opened Basics
  import opened PublishJobs
  import opened PublishProtocol
  import opened PublishClock

  predicate LeasedUntil(db: Db, id: JobId, worker: WorkerId, e: Time) {
    && id in db.jobs && db.jobs[id].status.Processing? && db.jobs[id].leaseOwner == Some(worker)
    && db.jobs[id].leaseExpiresAt.Some? && db.jobs[id].leaseExpiresAt.value >= e
  }

  predicate ByWorker(s: State, step: Step, id: JobId, worker: WorkerId) {
    Ends(step) && step.exec in s.live && s.live[step.exec].job == id && s.live[step.exec].worker == worker
  }

  /** Every step reads a clock between from and from + leaseMs, renewals ask for leaseMs, and the holder releases nothing. */
  predicate WithinLease(cfg: Config, s: State, steps: seq<Step>, id: JobId, worker: WorkerId, from: Time, leaseMs: int)
    requires Legal(cfg, s, steps)
    decreases |steps|
  {
    steps == []
    || (&& (HasClock(steps[0]) ==> from <= steps[0].now < from + leaseMs)
        && (steps[0].DoRenew? ==> steps[0].leaseMs == leaseMs)
        && !ByWorker(s, steps[0], id, worker)
        && WithinLease(cfg, Next(cfg, s, steps[0]), steps[1..], id, worker, from, leaseMs))
  }

  lemma StepKeepsLease(cfg: Config, s: State, step: Step, id: JobId, worker: WorkerId, e: Time)
    requires Enabled(cfg, s, step) && LeasedUntil(s.db, id, worker, e)
    requires HasClock(step) ==> step.now < e
    requires step.DoRenew? ==> step.now + step.leaseMs >= e
    requires !ByWorker(s, step, id, worker)
    ensures LeasedUntil(Write(cfg, s, step), id, worker, e)
    ensures Write(cfg, s, step).jobs[id].attemptCount == s.db.jobs[id].attemptCount
  {
    hide Write, EndedRow, LiveOf;
    if Ends(step) {
      EndRowAfter(cfg, s, step, id);
      EndedIsOver(s.db.jobs[id], EndingOf(cfg, s, step), step.now);
    } else if step.DoRecover? {
      RecoveryRowAfter(cfg, s, step, id);
    } else {
      PlainRowAfter(cfg, s, step, id);
    }
  }

  /** Lease safety: while a lease lasts, the job stays with its worker, whatever all other workers, cancellers and recovery
      sweeps do before it ends; in particular nobody's claim takes it. */
  lemma {:induction false} LeaseIsExclusive(cfg: Config, s: State, steps: seq<Step>, id: JobId, worker: WorkerId, from: Time,
                                            leaseMs: int)
    requires Legal(cfg, s, steps) && LeasedUntil(s.db, id, worker, from + leaseMs)
    requires WithinLease(cfg, s, steps, id, worker, from, leaseMs)
    ensures LeasedUntil(After(cfg, s, steps).db, id, worker, from + leaseMs)
    ensures After(cfg, s, steps).db.jobs[id].attemptCount == s.db.jobs[id].attemptCount
    ensures forall i :: 0 <= i < |steps| ==> !(steps[i].DoClaim? && steps[i].id == id)
    decreases |steps|
  {
    hide Write, LiveOf;
    if steps != [] {
      StepKeepsLease(cfg, s, steps[0], id, worker, from + leaseMs);
      LeaseIsExclusive(cfg, Next(cfg, s, steps[0]), steps[1..], id, worker, from, leaseMs);
      assert forall i :: 1 <= i < |steps| ==> steps[i] == steps[1..][i - 1];
    }
  }

  /** The step gives the worker a lease of leaseMs on the job: a claim it may make, or a renewal of a lease it still has. */
  ghost predicate Grants(cfg: Config, s: State, step: Step, id: JobId, worker: WorkerId, leaseMs: int, from: Time) {
    && Enabled(cfg, s, step) && id in s.db.jobs
    && match step
       case DoClaim(_, _, _, _, _) => step.id == id && step.worker == worker && step.leaseMs == leaseMs && step.now == from
       case DoRenew(x, _, _) =>
         && step.leaseMs == leaseMs && step.now == from && s.live[x].job == id && s.live[x].worker == worker
         && LeasedBeyond(s.db.jobs, s.live[x].tenant, id, worker, from)
       case _ => false
  }

  lemma GrantLeases(cfg: Config, s: State, step: Step, id: JobId, worker: WorkerId, leaseMs: int, from: Time)
    requires Grants(cfg, s, step, id, worker, leaseMs, from)
    ensures var db := Write(cfg, s, step);
      && id in db.jobs && db.jobs[id].status == Processing && db.jobs[id].leaseOwner == Some(worker)
      && db.jobs[id].leaseExpiresAt == Some(from + leaseMs)
      && db.jobs[id].attemptCount == s.db.jobs[id].attemptCount + (if step.DoClaim? then 1 else 0)
    ensures step.DoClaim? ==> Due(s.db.jobs[id], from)
  {
    hide LiveOf, EndingOf;
  }

  /** A claim or renewal at instant from leases the job until from + leaseMs, and on every schedule that follows before that
      the job stays with the worker: nobody claims, recovers, cancels or ends it, and its attempt is still the claimed one. */
  lemma GrantIsExclusive(cfg: Config, s: State, step: Step, steps: seq<Step>, id: JobId, worker: WorkerId, leaseMs: int, from: Time)
    requires Grants(cfg, s, step, id, worker, leaseMs, from) && Legal(cfg, Next(cfg, s, step), steps)
    requires WithinLease(cfg, Next(cfg, s, step), steps, id, worker, from, leaseMs)
    ensures var now := After(cfg, Next(cfg, s, step), steps).db;
      && id in now.jobs && now.jobs[id].status == Processing && now.jobs[id].leaseOwner == Some(worker)
      && now.jobs[id].leaseExpiresAt != None && now.jobs[id].leaseExpiresAt.value >= from + leaseMs
      && now.jobs[id].attemptCount == s.db.jobs[id].attemptCount + (if step.DoClaim? then 1 else 0)
      && (steps == [] ==> now.jobs[id].leaseExpiresAt == Some(from + leaseMs))
    ensures step.DoClaim? ==> Due(s.db.jobs[id], from)
    ensures forall i :: 0 <= i < |steps| ==> !(steps[i].DoClaim? && steps[i].id == id)
  {
    hide Write, WithinLease, Enabled, NextLive;
    GrantLeases(cfg, s, step, id, worker, leaseMs, from);
    LeaseIsExclusive(cfg, Next(cfg, s, step), steps, id, worker, from, leaseMs);
  }

  /** A claim may be made exactly of a due job, by a worker that runs fewer executions than its concurrency. */
  lemma ClaimEnabledIff(cfg: Config, s: State, x: nat, id: JobId, worker: WorkerId, leaseMs: int, now: Time)
    ensures Enabled(cfg, s, DoClaim(x, id, worker, leaseMs, now)) <==>
            && x !in s.live && id in s.db.jobs && Due(s.db.jobs[id], now)
            && |set y | y in s.live && s.live[y].worker == worker| < cfg.concurrency
  {
    assert LiveOf(s, worker) == set y | y in s.live && s.live[y].worker == worker;
  }

  /** The remote state that a failure of an execution keeps. */
  function LastState(read: Job, polling: bool): Option<RemoteState> {
    if polling && read.remoteJobId != None then read.remoteState else None
  }

  /** What the last write of an execution in this phase makes of its row. */
  ghost predicate Takes(cfg: Config, p: Phase, step: Step, was: Job, row: Job) {
    match step
    case DoRecordSubmission(_, state, at, now) => p.Answered? && EndsAs(was, row, RecordSubmission(p.remoteJobId, state, at), now)
    case DoPolled(_, ending, now) => p.Polling? && EndsAs(was, row, ending, now)
    case DoFailure(_, retryable, code, delayMs, now) =>
      && (p.ToSubmit? || p.Answered? || p.Polling?)
      && EndsAs(was, row,
                if !retryable then Fail(code, LastState(p.read, p.Polling?), None)
                else if p.read.failureCount + 1 >= cfg.maxFailures then Fail(RetryExhausted, LastState(p.read, p.Polling?), None)
                else RecordRetry(code, now + delayMs), now)
    case DoRescue(_, code, now) => p.Rescuing? && EndsAs(was, row, Fail(code, LastState(p.copy.read, p.copy.polling), None), now)
    case _ => false
  }

  lemma EndingTakes(cfg: Config, s: State, step: Step, was: Job)
    requires Enabled(cfg, s, step) && Ends(step) && was.status.Processing?
    ensures Takes(cfg, s.live[step.exec].phase, step, was, EndedRow(was, EndingOf(cfg, s, step), step.now))
  {
    hide EndsAs, EndedRow;
    EndedAs(was, EndingOf(cfg, s, step), step.now);
  }

  /** The last write of an execution takes effect exactly when its worker still holds an unexpired lease. */
  lemma FencedWrites(cfg: Config, s: State, step: Step)
    requires Enabled(cfg, s, step)
    requires step.DoRecordSubmission? || step.DoPolled? || step.DoFailure? || step.DoRescue?
    ensures var e, db := s.live[step.exec], Write(cfg, s, step);
      if LeasedBeyond(s.db.jobs, e.tenant, e.job, e.worker, step.now)
      then OnlyRow(s.db, db, e.job) && Takes(cfg, e.phase, step, s.db.jobs[e.job], db.jobs[e.job]) && db.events == s.db.events
      else db == s.db
  {
    hide EndedRow, Takes;
    var e := s.live[step.exec];
    assert Write(cfg, s, step) == EndRow(s.db, e.tenant, e.job, e.worker, EndingOf(cfg, s, step), step.now);
    if HeldIn(s.db, e.tenant, e.job, e.worker, step.now) {
      EndingTakes(cfg, s, step, s.db.jobs[e.job]);
    }
  }

  /** A renewal asks for the unexpired lease as well; a stage write asks for ownership only, expired or not. */
  lemma HolderWrites(cfg: Config, s: State, step: Step)
    requires Enabled(cfg, s, step) && (step.DoRenew? || step.DoStage?)
    ensures var e, db := s.live[step.exec], Write(cfg, s, step);
      if (if step.DoRenew? then LeasedBeyond(s.db.jobs, e.tenant, e.job, e.worker, step.now)
          else OwnedBy(s.db.jobs, e.tenant, e.job, e.worker))
      then
        && OnlyRow(s.db, db, e.job)
        && db.jobs[e.job] == (
             if step.DoStage? then s.db.jobs[e.job].(stage := step.stage, updatedAt := step.now)
             else s.db.jobs[e.job].(
               leaseExpiresAt := Some(step.now + step.leaseMs), heartbeatAt := Some(step.now), updatedAt := step.now))
      else db == s.db
  {
    hide LiveOf, EndingOf;
  }

  /** Cancelling asks for a job of the tenant that waits for a worker, recovery for one whose lease has run out. */
  lemma UnfencedWrites(cfg: Config, s: State, step: Step)
    requires step.DoCancel? || step.DoRecover?
    ensures Enabled(cfg, s, step)
    ensures var db := Write(cfg, s, step);
      if step.id in s.db.jobs
         && (if step.DoRecover? then LeaseOver(s.db.jobs[step.id], step.now)
             else s.db.jobs[step.id].tenant == step.tenant && s.db.jobs[step.id].status in {Queued, Waiting, Retrying})
      then
        && OnlyRow(s.db, db, step.id)
        && var was, row := s.db.jobs[step.id], db.jobs[step.id];
        if step.DoRecover? then RecoversTo(was, row, cfg.maxFailures, step.retryMs, step.now)
        else Leaves(was, row, Cancelled, AtCancelled, step.now) && row.cancelledAt == Some(step.now)
             && row.remoteJobId == was.remoteJobId && row.failureCount == was.failureCount
      else db == s.db
  {
    hide LiveOf, EndingOf, RecoversTo, Recovered;
    if step.DoRecover? && step.id in s.db.jobs && LeaseOver(s.db.jobs[step.id], step.now) {
      RecoveredTo(s.db.jobs[step.id], cfg.maxFailures, step.retryMs, step.now);
    }
  }

  /** A new publish job is queued, due at once and unleased, with nothing counted and nothing known of a remote job. */
  lemma CreatesQueued(cfg: Config, s: State, step: Step)
    requires step.DoCreate?
    ensures Enabled(cfg, s, step) <==> step.id !in s.db.jobs
    ensures step.id !in s.db.jobs ==>
      var db := Write(cfg, s, step);
      && db.jobs.Keys == s.db.jobs.Keys + {step.id} && (forall k :: k in s.db.jobs ==> db.jobs[k] == s.db.jobs[k])
      && db.events == s.db.events + [Event(step.id, JobCreated, None, Queued, step.now)]
      && var j := db.jobs[step.id];
      && j.tenant == step.tenant && j.sourceJob == step.sourceJob && j.submissionKey == step.key
      && j.status == Queued && j.stage == AtQueued && j.attemptCount == j.failureCount == j.pollCount == 0
      && j.remoteJobId == None && j.remoteState == None && j.errorCode == None && j.download == None
      && j.leaseOwner == None && j.leaseExpiresAt == None && j.heartbeatAt == None
      && j.nextAttemptAt == j.nextPollAt == Some(step.now) && j.submittedAt == j.lastPolledAt == j.completedAt == j.cancelledAt == None
      && j.createdAt == j.updatedAt == step.now
  {
    hide LiveOf, EndingOf;
  }

  // ---------------------------------------------------------------- after the lease is lost

  predicate ExecutesFor(s: State, exec: nat, id: JobId, worker: WorkerId) {
    exec in s.live && s.live[exec].job == id && s.live[exec].worker == worker
  }

  /** The step is an ending write or a renewal of an execution of this worker for this job. */
  predicate WritesFor(s: State, step: Step, id: JobId, worker: WorkerId) {
    (Ends(step) || step.DoRenew?) && ExecutesFor(s, step.exec, id, worker)
  }

  predicate ClaimsFor(step: Step, id: JobId, worker: WorkerId) {
    step.DoClaim? && step.id == id && step.worker == worker
  }

  /** An event insert changes no row, and logs nothing but what the execution's own last write left to log. */
  predicate OnlyLogs(cfg: Config, s: State, step: Step)
    requires Enabled(cfg, s, step) && step.DoFlush?
  {
    && Write(cfg, s, step).jobs == s.db.jobs
    && Write(cfg, s, step).events == s.db.events + (var p := s.live[step.exec].phase.pending; if p == [] then [] else p[..1])
  }

  /** Along the schedule no ending write or renewal of this worker for this job changes anything, nor, where `stages` says
      so, does a stage write; an event insert only logs. */
  predicate Silent(cfg: Config, s: State, steps: seq<Step>, id: JobId, worker: WorkerId, stages: bool)
    requires Legal(cfg, s, steps)
    decreases |steps|
  {
    steps == []
    || (&& (WritesFor(s, steps[0], id, worker) ==> Write(cfg, s, steps[0]) == s.db)
        && (stages && steps[0].DoStage? && ExecutesFor(s, steps[0].exec, id, worker) ==> Write(cfg, s, steps[0]) == s.db)
        && (steps[0].DoFlush? && ExecutesFor(s, steps[0].exec, id, worker) ==> OnlyLogs(cfg, s, steps[0]))
        && Silent(cfg, Next(cfg, s, steps[0]), steps[1..], id, worker, stages))
  }

  lemma OwnerOnlyByClaim(cfg: Config, s: State, step: Step, id: JobId, worker: WorkerId)
    requires Enabled(cfg, s, step) && id in s.db.jobs && !ClaimsFor(step, id, worker)
    ensures id in Write(cfg, s, step).jobs
    ensures Write(cfg, s, step).jobs[id].leaseOwner == Some(worker) ==> s.db.jobs[id].leaseOwner == Some(worker)
  {
    hide Write, EndedRow, LiveOf;
    if Ends(step) {
      EndRowAfter(cfg, s, step, id);
      EndedIsOver(s.db.jobs[id], EndingOf(cfg, s, step), step.now);
    } else if step.DoRecover? {
      RecoveryRowAfter(cfg, s, step, id);
    } else {
      PlainRowAfter(cfg, s, step, id);
    }
  }

  lemma NotHeldIsSilent(cfg: Config, s: State, step: Step, id: JobId, worker: WorkerId)
    requires Enabled(cfg, s, step) && WritesFor(s, step, id, worker) && id in s.db.jobs && !Holds(s.db.jobs[id], worker, step.now)
    ensures Write(cfg, s, step) == s.db
  {
    if Ends(step) {
      var x, ending := s.live[step.exec], EndingOf(cfg, s, step);
      assert Write(cfg, s, step) == EndRow(s.db, x.tenant, x.job, x.worker, ending, step.now);
    }
  }

  /** Once a worker does not own a publish job any more, because it was recovered, claimed by another, waits or ended,
      no row or stage that its old executions write takes effect, until the worker itself claims the job again. All they can
      still do is log the events of a write that was in time. */
  lemma {:induction false} TakenOverIsSilent(cfg: Config, s: State, steps: seq<Step>, id: JobId, worker: WorkerId)
    requires Legal(cfg, s, steps) && id in s.db.jobs && s.db.jobs[id].leaseOwner != Some(worker)
    requires forall i :: 0 <= i < |steps| ==> !ClaimsFor(steps[i], id, worker)
    ensures Silent(cfg, s, steps, id, worker, true)
    ensures id in After(cfg, s, steps).db.jobs && After(cfg, s, steps).db.jobs[id].leaseOwner != Some(worker)
    decreases |steps|
  {
    if steps != [] {
      OwnerOnlyByClaim(cfg, s, steps[0], id, worker);
      if WritesFor(s, steps[0], id, worker) {
        NotHeldIsSilent(cfg, s, steps[0], id, worker);
      }
      TakenOverIsSilent(cfg, Next(cfg, s, steps[0]), steps[1..], id, worker);
    }
  }

  /** If the worker still owns the job, its lease has run out by e. */
  predicate RunOut(j: Job, worker: WorkerId, e: Time) {
    j.leaseOwner == Some(worker) ==> j.leaseExpiresAt.Some? && j.leaseExpiresAt.value <= e
  }

  lemma StepKeepsRunOut(cfg: Config, s: State, step: Step, id: JobId, worker: WorkerId, e: Time)
    requires Enabled(cfg, s, step) && id in s.db.jobs && RunOut(s.db.jobs[id], worker, e)
    requires !ClaimsFor(step, id, worker) && (HasClock(step) ==> step.now >= e)
    ensures id in Write(cfg, s, step).jobs && RunOut(Write(cfg, s, step).jobs[id], worker, e)
  {
    hide Write, EndedRow, LiveOf;
    if Ends(step) {
      EndRowAfter(cfg, s, step, id);
      EndedIsOver(s.db.jobs[id], EndingOf(cfg, s, step), step.now);
    } else if step.DoRecover? {
      RecoveryRowAfter(cfg, s, step, id);
    } else {
      PlainRowAfter(cfg, s, step, id);
    }
  }

  /** Once the lease has run out and the clocks are past it, the old holder's ending writes and renewals change nothing. */
  lemma {:induction false} RunOutIsSilent(cfg: Config, s: State, steps: seq<Step>, id: JobId, worker: WorkerId, e: Time)
    requires Legal(cfg, s, steps) && id in s.db.jobs && RunOut(s.db.jobs[id], worker, e)
    requires forall i :: 0 <= i < |steps| ==> !ClaimsFor(steps[i], id, worker) && (HasClock(steps[i]) ==> steps[i].now >= e)
    ensures Silent(cfg, s, steps, id, worker, false)
    decreases |steps|
  {
    if steps != [] {
      StepKeepsRunOut(cfg, s, steps[0], id, worker, e);
      if WritesFor(s, steps[0], id, worker) {
        NotHeldIsSilent(cfg, s, steps[0], id, worker);
      }
      RunOutIsSilent(cfg, Next(cfg, s, steps[0]), steps[1..], id, worker, e);
    }
  }

  lemma ClaimAndRead(cfg: Config, t: Timing) returns (s: State)
    requires cfg.concurrency >= 1
    ensures Leads(cfg, t, OneJob(), 0, s, 0)
    ensures 0 in s.db.jobs && RunOut(s.db.jobs[0], 0, t.leaseMs) && ExecutesFor(s, 0, 0, 0)
    ensures s.live[0].phase.ToSubmit? && s.live[0].tenant == 0 && OwnedIn(s.db, 0, 0, 0) && s.db.jobs[0].stage != Submitting
  {
    hide Leads;
    s := OneJob();
    StaysThere(cfg, t, s, 0);
    assert LiveOf(s, 0) == {};
    s := Claims(cfg, t, OneJob(), 0, s, 0, 0, 0, 0, 0);
    s := Reads(cfg, t, OneJob(), 0, s, 0, 0);
  }

  /** Its stage writes are not among them: one still succeeds any time after the lease has run out. */
  lemma LateStageWrite(cfg: Config, t: Timing, late: nat) returns (steps: seq<Step>, step: Step)
    requires cfg.concurrency >= 1 && t.leaseMs > 0
    ensures Legal(cfg, Initial(), steps) && Timed(cfg, t, Initial(), 0, steps)
    ensures var s := After(cfg, Initial(), steps);
            && Fits(cfg, t, s, ClockAfter(0, steps), step) && step.DoStage? && step.now == t.leaseMs + late
            && 0 in s.db.jobs && RunOut(s.db.jobs[0], 0, t.leaseMs) && ExecutesFor(s, step.exec, 0, 0)
            && 0 in Write(cfg, s, step).jobs && s.db.jobs[0].stage != step.stage && Write(cfg, s, step).jobs[0].stage == step.stage
  {
    hide Leads;
    var s := ClaimAndRead(cfg, t);
    steps := FromInitial(cfg, t, s, 0);
    step := DoStage(0, Submitting, t.leaseMs + late);
  }

  /** The two claim queries, written with different clauses, select the same rows of every reachable table. */
  lemma ClaimQueriesAgree(cfg: Config, steps: seq<Step>, id: JobId, now: Time)
    requires Legal(cfg, Initial(), steps)
    requires id in After(cfg, Initial(), steps).db.jobs && After(cfg, Initial(), steps).db.jobs[id].createdAt <= now
    ensures Due(After(cfg, Initial(), steps).db.jobs[id], now) <==> DueNext(After(cfg, Initial(), steps).db.jobs[id], now)
  {
    RunKeepsSound(cfg, Initial(), steps);
    assert Shaped(After(cfg, Initial(), steps).db.jobs[id]);
  }

  /** When a job that is not over can next be picked up: claimed, or recovered from an expired lease. */
  function PickupTime(j: Job): Time {
    match j.status
    case Queued => j.createdAt
    case Retrying => if j.nextAttemptAt.Some? then j.nextAttemptAt.value else 0
    case Waiting => if j.nextPollAt.Some? then j.nextPollAt.value else 0
    case _ => if j.leaseExpiresAt.Some? then j.leaseExpiresAt.value else 0
  }

  /** No stranded job: every reachable job that is not over becomes, at its pickup time and ever after until somebody
      touches it, either claimable or recoverable; and a job that is over is never either. */
  lemma NoStrandedJob(cfg: Config, steps: seq<Step>, id: JobId, now: Time)
    requires Legal(cfg, Initial(), steps)
    requires id in After(cfg, Initial(), steps).db.jobs
    ensures var j := After(cfg, Initial(), steps).db.jobs[id];
      && (j.status !in {Completed, Failed, Cancelled} && now >= PickupTime(j) ==> Due(j, now) || LeaseOver(j, now))
      && (j.status in {Completed, Failed, Cancelled} ==> !Due(j, now) && !LeaseOver(j, now))
      && !(Due(j, now) && LeaseOver(j, now))
  {
    RunKeepsSound(cfg, Initial(), steps);
    assert Shaped(After(cfg, Initial(), steps).db.jobs[id]);
  }
}
