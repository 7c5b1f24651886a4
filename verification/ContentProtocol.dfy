/**
 Every schedule of workers, cancellers and recovery sweeps over the content tables. A step is one database transaction
 (or the end of an execution); it carries the clock reading its caller passed in, which nothing here assumes monotone.
 */
module ContentProtocol {
  import opened Basics
  import opened ContentJobs

  datatype Config = Config(maxAttempts: nat, concurrency: nat)

  /** A running execution knows the row its claim returned, and nothing newer. */
  datatype Execution = Execution(job: JobId, worker: WorkerId, claim: Job)

  datatype State = State(db: Db, live: map<nat, Execution>)

  datatype Step =
    | DoCreate(id: JobId, tenant: TenantId, project: ProjectId, now: Time)
    | DoClaim(exec: nat, id: JobId, worker: WorkerId, leaseMs: int, now: Time)
    | DoRenew(exec: nat, leaseMs: int, now: Time)
    | DoStage(exec: nat, stage: Stage, now: Time)
    | DoComplete(exec: nat, result: JobResult, now: Time)
    | DoRetryOrFail(exec: nat, code: ErrorCode, nextAttemptAt: Time, now: Time)
    | DoFail(exec: nat, code: ErrorCode, now: Time)
    | DoAbandon(exec: nat)
    | DoCancel(tenant: TenantId, id: JobId, now: Time)
    | DoRecover(tenant: TenantId, id: JobId, nextAttemptAt: Time, now: Time)

  function Initial(): State {
    State(Db(map[], []), map[])
  }

  function LiveOf(s: State, worker: WorkerId): set<nat> {
    set x | x in s.live && s.live[x].worker == worker
  }

  /** A worker claims only while it runs fewer executions than its concurrency. */
  predicate Enabled(cfg: Config, s: State, step: Step) {
    match step
    case DoCreate(id, _, _, _) => id !in s.db.jobs
    case DoClaim(x, id, w, _, now) =>
      x !in s.live && id in s.db.jobs && Claimable(s.db.jobs[id], now) && |LiveOf(s, w)| < cfg.concurrency
    case DoCancel(_, _, _) => true
    case DoRecover(_, _, _, _) => true
    case _ => step.exec in s.live
  }

  function Write(cfg: Config, s: State, step: Step): Db
    requires Enabled(cfg, s, step)
  {
    match step
    case DoCreate(id, tenant, project, now) => Create(s.db, id, tenant, project, now)
    case DoClaim(_, id, w, leaseMs, now) => Acquire(s.db, id, w, leaseMs, now)
    case DoRenew(x, leaseMs, now) =>
      var e := s.live[x]; Renew(s.db, e.claim.tenant, e.job, e.worker, leaseMs, now)
    case DoStage(x, stage, now) =>
      var e := s.live[x]; MarkStage(s.db, e.claim.tenant, e.job, e.worker, stage, now)
    case DoComplete(x, result, now) =>
      var e := s.live[x]; MarkCompleted(s.db, e.claim.tenant, e.job, e.worker, result, now)
    case DoRetryOrFail(x, code, at, now) =>
      var e := s.live[x];
      RetryOrFail(s.db, e.claim.tenant, e.job, e.worker, e.claim.attemptCount, cfg.maxAttempts, code, at, now)
    case DoFail(x, code, now) =>
      var e := s.live[x]; MarkFailed(s.db, e.claim.tenant, e.job, e.worker, code, now)
    case DoAbandon(_) => s.db
    case DoCancel(tenant, id, now) => Cancel(s.db, tenant, id, now)
    case DoRecover(tenant, id, at, now) => Recover(s.db, tenant, id, cfg.maxAttempts, at, now)
  }

  predicate Ends(step: Step) {
    step.DoComplete? || step.DoRetryOrFail? || step.DoFail? || step.DoAbandon?
  }

  function Next(cfg: Config, s: State, step: Step): State
    requires Enabled(cfg, s, step)
  {
    var db := Write(cfg, s, step);
    State(db,
          if step.DoClaim? then s.live[step.exec := Execution(step.id, step.worker, db.jobs[step.id])]
          else if Ends(step) then s.live - {step.exec}
          else s.live)
  }

  predicate Legal(cfg: Config, s: State, steps: seq<Step>)
    decreases |steps|
  {
    steps == [] || (Enabled(cfg, s, steps[0]) && Legal(cfg, Next(cfg, s, steps[0]), steps[1..]))
  }

  function After(cfg: Config, s: State, steps: seq<Step>): State
    requires Legal(cfg, s, steps)
    decreases |steps|
  {
    if steps == [] then s else After(cfg, Next(cfg, s, steps[0]), steps[1..])
  }

  // ---------------------------------------------------------------- the event log replays the table

  function LastStatus(events: seq<Event>, id: JobId): Option<Status> {
    if events == [] then None
    else if events[|events| - 1].job == id then Some(events[|events| - 1].next)
    else LastStatus(events[..|events| - 1], id)
  }

  function Acquisitions(events: seq<Event>, id: JobId): nat {
    if events == [] then 0
    else Acquisitions(events[..|events| - 1], id)
         + (var e := events[|events| - 1]; if e.job == id && e.eventType.LeaseAcquired? then 1 else 0)
  }

  /** Status changes after creation. */
  function Changes(events: seq<Event>, id: JobId): nat {
    if events == [] then 0
    else Changes(events[..|events| - 1], id)
         + (var e := events[|events| - 1]; if e.job == id && !e.eventType.JobCreated? then 1 else 0)
  }

  /** Each event continues its job's previous one by an allowed transition; a job's first event creates it queued. */
  predicate Chained(events: seq<Event>) {
    events == []
    || (var init, e := events[..|events| - 1], events[|events| - 1];
        && Chained(init)
        && e.prior == LastStatus(init, e.job)
        && (match e.prior
            case None => e.eventType.JobCreated? && e.next.Queued?
            case Some(p) => !e.eventType.JobCreated? && TransitionAllowed(p, e.next))
        && (e.eventType.LeaseAcquired? <==> e.next.Processing?))
  }

  ghost predicate Replays(db: Db) {
    && Chained(db.events)
    && forall id: JobId ::
         if id in db.jobs then
           var j := db.jobs[id];
           && LastStatus(db.events, id) == Some(j.status)
           && Acquisitions(db.events, id) == j.attemptCount
           && Changes(db.events, id)
              == 2 * j.attemptCount - (if j.status.Processing? then 1 else 0) + (if j.status.Cancelled? then 1 else 0)
         else LastStatus(db.events, id) == None && Acquisitions(db.events, id) == Changes(db.events, id) == 0
  }

  /** The three lease columns are set together, exactly while processing; a retrying row is scheduled. */
  predicate Shaped(j: Job) {
    && (j.status.Processing? <==> j.leaseOwner.Some?)
    && (j.status.Processing? <==> j.leaseExpiresAt.Some?)
    && (j.status.Processing? <==> j.heartbeatAt.Some?)
    && (j.status.Retrying? ==> j.nextAttemptAt.Some?)
    && (j.status.Queued? ==> j.attemptCount == 0)
    && (j.status.Processing? || j.status.Retrying? || j.status.Completed? || j.status.Failed? ==> j.attemptCount >= 1)
    && (j.status.Completed? ==> j.result.Some?)
    && (Terminal(j.status) ==> j.completedAt.Some?)
  }

  ghost predicate Sound(s: State) {
    && Replays(s.db)
    && forall id :: id in s.db.jobs ==> Shaped(s.db.jobs[id])
  }

  /** How one step may change one row: not at all, a heartbeat or stage write of its holder, or one logged transition. */
  predicate RowMoves(j: Job, k: Job) {
    || k == j
    || (j.status.Processing? && k == j.(
          leaseExpiresAt := k.leaseExpiresAt, heartbeatAt := k.heartbeatAt, stage := k.stage, updatedAt := k.updatedAt)
        && k.leaseExpiresAt.Some? && k.heartbeatAt.Some?)
    || (TransitionAllowed(j.status, k.status) && k.tenant == j.tenant && k.project == j.project && k.createdAt == j.createdAt
        && k.attemptCount == j.attemptCount + (if k.status.Processing? then 1 else 0))
  }

  // ---------------------------------------------------------------- one row and one step

  /** Whether the execution of the step holds the row it writes. */
  predicate HoldsRow(s: State, exec: nat, id: JobId, now: Time) {
    && exec in s.live && s.live[exec].job == id
    && HeldIn(s.db, s.live[exec].claim.tenant, id, s.live[exec].worker, now)
  }

  /** One row after a step, kind by kind. */
  function RowAfter(cfg: Config, s: State, step: Step, id: JobId): Job
    requires id in s.db.jobs
  {
    var j := s.db.jobs[id];
    match step
    case DoClaim(_, c, w, leaseMs, now) => if c == id then Claimed(j, w, leaseMs, now) else j
    case DoRenew(x, leaseMs, now) => if HoldsRow(s, x, id, now) then Renewed(j, leaseMs, now) else j
    case DoStage(x, stage, now) => if HoldsRow(s, x, id, now) then j.(stage := stage, updatedAt := now) else j
    case DoComplete(x, result, now) => if HoldsRow(s, x, id, now) then CompletedAs(j, result, now) else j
    case DoRetryOrFail(x, code, at, now) =>
      if !HoldsRow(s, x, id, now) then j
      else if s.live[x].claim.attemptCount >= cfg.maxAttempts then FailedWith(j, MaxAttemptsExceeded, now)
      else RetriedAt(j, code, at, now)
    case DoFail(x, code, now) => if HoldsRow(s, x, id, now) then FailedWith(j, code, now) else j
    case DoCancel(tenant, c, now) => if c == id && CancellableIn(s.db, tenant, id) then CancelledBy(j, now) else j
    case DoRecover(tenant, c, at, now) =>
      if c == id && StaleIn(s.db, tenant, id, now) then Recovered(j, cfg.maxAttempts, at, now) else j
    case _ => j
  }

  lemma RowIs(cfg: Config, s: State, step: Step, id: JobId)
    requires Enabled(cfg, s, step) && id in s.db.jobs
    ensures id in Write(cfg, s, step).jobs && Write(cfg, s, step).jobs[id] == RowAfter(cfg, s, step, id)
  {
    hide Claimed, Renewed, CompletedAs, RetriedAt, FailedWith, CancelledBy, Recovered, Claimable, LiveOf, HeldIn, StaleIn, CancellableIn;
  }

  /** The row moved as it may, and keeps its shape. */
  predicate RowFollows(j: Job, k: Job) {
    RowMoves(j, k) && Shaped(k)
  }

  lemma ClaimedRowMoves(j: Job, worker: WorkerId, leaseMs: int, now: Time)
    requires Shaped(j) && Claimable(j, now)
    ensures RowFollows(j, Claimed(j, worker, leaseMs, now))
  {
  }

  lemma HeartbeatRowMoves(j: Job, leaseMs: int, stage: Stage, now: Time)
    requires Shaped(j) && j.status.Processing?
    ensures RowFollows(j, Renewed(j, leaseMs, now)) && RowFollows(j, j.(stage := stage, updatedAt := now))
  {
  }

  lemma CompletedRowMoves(j: Job, result: JobResult, now: Time)
    requires Shaped(j) && j.status.Processing?
    ensures RowFollows(j, CompletedAs(j, result, now))
  {
  }

  lemma FailedRowMoves(j: Job, code: ErrorCode, at: Time, now: Time)
    requires Shaped(j) && j.status.Processing?
    ensures RowFollows(j, RetriedAt(j, code, at, now)) && RowFollows(j, FailedWith(j, code, now))
  {
  }

  lemma OtherRowMoves(j: Job, maxAttempts: nat, at: Time, now: Time)
    requires Shaped(j)
    ensures TransitionAllowed(j.status, Cancelled) ==> RowFollows(j, CancelledBy(j, now))
    ensures j.status.Processing? ==> RowFollows(j, Recovered(j, maxAttempts, at, now))
  {
  }

  /** Rows are never deleted, and every row moves only as RowMoves says. */
  lemma StepMovesRows(cfg: Config, s: State, step: Step, id: JobId)
    requires Enabled(cfg, s, step) && id in s.db.jobs && Shaped(s.db.jobs[id])
    ensures id in Write(cfg, s, step).jobs
    ensures RowMoves(s.db.jobs[id], Write(cfg, s, step).jobs[id])
    ensures Shaped(Write(cfg, s, step).jobs[id])
  {
    hide Write, Claimed, Renewed, CompletedAs, RetriedAt, FailedWith, CancelledBy, Recovered, Claimable, LiveOf, TransitionAllowed;
    var j := s.db.jobs[id];
    RowIs(cfg, s, step, id);
    match step
    case DoClaim(_, c, w, leaseMs, now) =>
      if c == id {
        ClaimedRowMoves(j, w, leaseMs, now);
      }
    case DoCancel(_, _, now) => OtherRowMoves(j, cfg.maxAttempts, now, now);
    case DoRecover(_, _, at, now) => OtherRowMoves(j, cfg.maxAttempts, at, now);
    case DoRenew(x, leaseMs, now) =>
      if HoldsRow(s, x, id, now) {
        HeartbeatRowMoves(j, leaseMs, j.stage, now);
      }
    case DoStage(x, stage, now) =>
      if HoldsRow(s, x, id, now) {
        HeartbeatRowMoves(j, 0, stage, now);
      }
    case DoComplete(x, result, now) =>
      if HoldsRow(s, x, id, now) {
        CompletedRowMoves(j, result, now);
      }
    case DoRetryOrFail(x, code, at, now) =>
      if HoldsRow(s, x, id, now) {
        FailedRowMoves(j, code, at, now);
        FailedRowMoves(j, MaxAttemptsExceeded, at, now);
      }
    case DoFail(x, code, now) =>
      if HoldsRow(s, x, id, now) {
        FailedRowMoves(j, code, now, now);
      }
    case _ =>
  }

  // ---------------------------------------------------------------- the log and one step

  lemma AppendReplays(db: Db, id: JobId, j: Job, eventType: EventType, now: Time)
    requires Replays(db)
    requires id in db.jobs && TransitionAllowed(db.jobs[id].status, j.status)
    requires !eventType.JobCreated? && (eventType.LeaseAcquired? <==> j.status.Processing?)
    requires j.attemptCount == db.jobs[id].attemptCount + (if j.status.Processing? then 1 else 0)
    ensures Replays(Logged(db, id, j, eventType, now))
  {
    var after := Logged(db, id, j, eventType, now);
    assert after.events[..|after.events| - 1] == db.events;
  }

  lemma CreateReplays(db: Db, id: JobId, tenant: TenantId, project: ProjectId, now: Time)
    requires Replays(db) && id !in db.jobs
    ensures Replays(Create(db, id, tenant, project, now))
  {
    var after := Create(db, id, tenant, project, now);
    assert after.events[..|after.events| - 1] == db.events;
  }

  /** The log only says statuses and attempts of the rows, so a write that logs nothing and changes neither keeps it right. */
  lemma QuietReplays(before: Db, after: Db)
    requires Replays(before) && after.events == before.events && after.jobs.Keys == before.jobs.Keys
    requires forall id :: id in before.jobs ==>
               after.jobs[id].status == before.jobs[id].status && after.jobs[id].attemptCount == before.jobs[id].attemptCount
    ensures Replays(after)
  {
  }

  /** A step that appends an event is one logged transition. */
  lemma StepLogs(cfg: Config, s: State, step: Step) returns (e: Event)
    requires Enabled(cfg, s, step) && !step.DoCreate? && Write(cfg, s, step).events != s.db.events
    ensures var db := Write(cfg, s, step);
            && e.job in s.db.jobs && e.job in db.jobs
            && TransitionAllowed(s.db.jobs[e.job].status, db.jobs[e.job].status)
            && !e.eventType.JobCreated? && (e.eventType.LeaseAcquired? <==> db.jobs[e.job].status.Processing?)
            && db.jobs[e.job].attemptCount ==
               s.db.jobs[e.job].attemptCount + (if db.jobs[e.job].status.Processing? then 1 else 0)
            && db == Logged(s.db, e.job, db.jobs[e.job], e.eventType, e.at)
  {
    hide LiveOf;
    var db := Write(cfg, s, step);
    e := db.events[|db.events| - 1];
  }

  /** A step that appends nothing changes no status and no attempt count. */
  lemma QuietStep(cfg: Config, s: State, step: Step)
    requires Enabled(cfg, s, step) && Write(cfg, s, step).events == s.db.events
    ensures Write(cfg, s, step).jobs.Keys == s.db.jobs.Keys
    ensures forall id :: id in s.db.jobs ==>
              && Write(cfg, s, step).jobs[id].status == s.db.jobs[id].status
              && Write(cfg, s, step).jobs[id].attemptCount == s.db.jobs[id].attemptCount
  {
    hide LiveOf, Claimable;
  }

  lemma StepKeepsReplay(cfg: Config, s: State, step: Step)
    requires Sound(s) && Enabled(cfg, s, step)
    ensures Replays(Write(cfg, s, step))
  {
    hide Write, Replays, Shaped, Logged, Create;
    var db := Write(cfg, s, step);
    if db.events == s.db.events {
      QuietStep(cfg, s, step);
      QuietReplays(s.db, db);
    } else if step.DoCreate? {
      WritesCreate(cfg, s, step);
      CreateReplays(s.db, step.id, step.tenant, step.project, step.now);
    } else {
      var e := StepLogs(cfg, s, step);
      AppendReplays(s.db, e.job, db.jobs[e.job], e.eventType, e.at);
    }
  }

  lemma WritesCreate(cfg: Config, s: State, step: Step)
    requires Enabled(cfg, s, step) && step.DoCreate?
    ensures Write(cfg, s, step) == Create(s.db, step.id, step.tenant, step.project, step.now)
  {
  }

  lemma StepKeepsSound(cfg: Config, s: State, step: Step)
    requires Sound(s) && Enabled(cfg, s, step)
    ensures Sound(Next(cfg, s, step))
  {
    hide Replays, LiveOf, RowMoves;
    StepKeepsReplay(cfg, s, step);
    forall id | id in Write(cfg, s, step).jobs ensures Shaped(Write(cfg, s, step).jobs[id]) {
      if id in s.db.jobs {
        StepMovesRows(cfg, s, step, id);
      }
    }
  }

  /** In every reachable state the event log replays to exactly the table, for any concurrency and any clock. */
  lemma {:induction false} RunKeepsSound(cfg: Config, s: State, steps: seq<Step>)
    requires Sound(s) && Legal(cfg, s, steps)
    ensures Sound(After(cfg, s, steps))
    decreases |steps|
  {
    if steps != [] {
      StepKeepsSound(cfg, s, steps[0]);
      RunKeepsSound(cfg, Next(cfg, s, steps[0]), steps[1..]);
    }
  }

  /** Terminal rows are frozen for good: no later schedule changes any column of a completed, failed or cancelled job. */
  lemma {:induction false} TerminalIsForever(cfg: Config, s: State, steps: seq<Step>, id: JobId)
    requires Sound(s) && Legal(cfg, s, steps)
    requires id in s.db.jobs && Terminal(s.db.jobs[id].status)
    ensures id in After(cfg, s, steps).db.jobs && After(cfg, s, steps).db.jobs[id] == s.db.jobs[id]
    decreases |steps|
  {
    if steps != [] {
      StepKeepsSound(cfg, s, steps[0]);
      StepMovesRows(cfg, s, steps[0], id);
      TerminalIsForever(cfg, Next(cfg, s, steps[0]), steps[1..], id);
    }
  }
}
