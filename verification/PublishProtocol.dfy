/**
 Every schedule of publish workers, cancellers and recovery sweeps. An execution reads its row after the claim, talks to
 the remote engine, writes the row, and appends the write's events in later statements; it may die between any two of these.
 */
module PublishProtocol {
  import opened Basics
  import opened PublishJobs

  /** The remote engine answers equal submission keys with equal job ids. */
  datatype Config = Config(maxFailures: nat, concurrency: nat, remote: SubmissionKey -> RemoteJobId)

  datatype Phase =
    | JustClaimed
    | ToSubmit(read: Job)
    | Answered(read: Job, remoteJobId: RemoteJobId)
    | Polling(read: Job)
    | Flushing(pending: seq<Event>, rescue: Option<Copy>)
    | Rescuing(copy: Copy)

  /** What the failure path works from when an event insert fails after the row was written. */
  datatype Copy = Copy(read: Job, polling: bool)

  datatype Execution = Execution(job: JobId, tenant: TenantId, worker: WorkerId, phase: Phase)

  /** Besides tables and executions: the submissions sent, and per job the recorded submissions and the claims made since
      the last exchange with the remote engine that was recorded. */
  datatype State = State(
    db: Db, live: map<nat, Execution>, sent: seq<(JobId, SubmissionKey)>,
    recorded: map<JobId, nat>, idleClaims: map<JobId, nat>)

  datatype Step =
    | DoCreate(id: JobId, tenant: TenantId, sourceJob: JobId, key: SubmissionKey, now: Time)
    | DoClaim(exec: nat, id: JobId, worker: WorkerId, leaseMs: int, now: Time)
    | DoRead(exec: nat)
    | DoRenew(exec: nat, leaseMs: int, now: Time)
    | DoStage(exec: nat, stage: Stage, now: Time)
    | DoSend(exec: nat, answered: bool)
    | DoRecordSubmission(exec: nat, remoteState: RemoteState, nextPollAt: Time, now: Time)
    | DoPolled(exec: nat, ending: Ending, now: Time)
    | DoFailure(exec: nat, retryable: bool, code: ErrorCode, delayMs: int, now: Time)
    | DoFlush(exec: nat)
    | DoFlushFails(exec: nat)
    | DoRescue(exec: nat, code: ErrorCode, now: Time)
    | DoAbandon(exec: nat)
    | DoCancel(tenant: TenantId, id: JobId, now: Time)
    | DoRecover(id: JobId, retryMs: int, now: Time)

  function Initial(): State {
    State(Db(map[], []), map[], [], map[], map[])
  }

  function LiveOf(s: State, worker: WorkerId): set<nat> {
    set x | x in s.live && s.live[x].worker == worker
  }

  function ReadOf(p: Phase): Option<Job> {
    match p
    case ToSubmit(r) => Some(r)
    case Answered(r, _) => Some(r)
    case Polling(r) => Some(r)
    case _ => None
  }

  /** Writes that answer a poll: waiting on, completed, failed remotely, cancelled remotely. */
  predicate PollEnding(e: Ending) {
    e.RecordWaiting? || e.Complete? || e.Fail? || e.MarkRemoteCancelled?
  }

  predicate Enabled(cfg: Config, s: State, step: Step) {
    match step
    case DoCreate(id, _, _, _, _) => id !in s.db.jobs
    case DoClaim(x, id, w, _, now) =>
      x !in s.live && id in s.db.jobs && Claimable(s.db.jobs[id], now) && |LiveOf(s, w)| < cfg.concurrency
    case DoRead(x) => x in s.live && s.live[x].phase.JustClaimed?
    case DoRenew(x, _, _) => x in s.live && ReadOf(s.live[x].phase).Some?
    case DoStage(x, _, _) => x in s.live && ReadOf(s.live[x].phase).Some?
    case DoSend(x, _) => x in s.live && s.live[x].phase.ToSubmit?
    case DoRecordSubmission(x, _, _, _) => x in s.live && s.live[x].phase.Answered?
    case DoPolled(x, e, _) => x in s.live && s.live[x].phase.Polling? && PollEnding(e)
    case DoFailure(x, _, _, _, _) => x in s.live && ReadOf(s.live[x].phase).Some?
    case DoFlush(x) => x in s.live && s.live[x].phase.Flushing?
    case DoFlushFails(x) => x in s.live && s.live[x].phase.Flushing? && s.live[x].phase.rescue.Some?
    case DoRescue(x, _, _) => x in s.live && s.live[x].phase.Rescuing?
    case DoAbandon(x) => x in s.live
    case DoCancel(_, _, _) => true
    case DoRecover(_, _, _) => true
  }

  predicate Ends(step: Step) {
    step.DoRecordSubmission? || step.DoPolled? || step.DoFailure? || step.DoRescue?
  }

  /** The write an execution ends with. */
  function EndingOf(cfg: Config, s: State, step: Step): Ending
    requires Enabled(cfg, s, step) && Ends(step)
  {
    var p := s.live[step.exec].phase;
    match step
    case DoRecordSubmission(_, st, at, _) => RecordSubmission(p.remoteJobId, st, at)
    case DoPolled(_, e, _) => e
    case DoFailure(_, retryable, code, delayMs, now) =>
      FailureEnding(ReadOf(p).value, p.Polling?, retryable, code, cfg.maxFailures, delayMs, now)
    case DoRescue(_, code, now) =>
      FailureEnding(p.copy.read, p.copy.polling, false, code, cfg.maxFailures, 0, now)
  }

  /** The statement the step runs against the tables. */
  function Write(cfg: Config, s: State, step: Step): Db
    requires Enabled(cfg, s, step)
  {
    match step
    case DoCreate(id, tenant, src, key, now) => Create(s.db, id, tenant, src, key, now)
    case DoClaim(_, id, w, leaseMs, now) => Acquire(s.db, id, w, leaseMs, now)
    case DoRead(_) => s.db
    case DoRenew(x, leaseMs, now) => var e := s.live[x]; Renew(s.db, e.tenant, e.job, e.worker, leaseMs, now)
    case DoStage(x, stage, now) => var e := s.live[x]; SetStage(s.db, e.tenant, e.job, e.worker, stage, now)
    case DoSend(_, _) => s.db
    case DoRecordSubmission(x, _, _, now) =>
      var e := s.live[x]; EndRow(s.db, e.tenant, e.job, e.worker, EndingOf(cfg, s, step), now)
    case DoPolled(x, _, now) =>
      var e := s.live[x]; EndRow(s.db, e.tenant, e.job, e.worker, EndingOf(cfg, s, step), now)
    case DoFailure(x, _, _, _, now) =>
      var e := s.live[x]; EndRow(s.db, e.tenant, e.job, e.worker, EndingOf(cfg, s, step), now)
    case DoFlush(x) =>
      var p := s.live[x].phase.pending; if p == [] then s.db else s.db.(events := s.db.events + [p[0]])
    case DoFlushFails(_) => s.db
    case DoRescue(x, _, now) =>
      var e := s.live[x]; EndRow(s.db, e.tenant, e.job, e.worker, EndingOf(cfg, s, step), now)
    case DoAbandon(_) => s.db
    case DoCancel(tenant, id, now) => Cancel(s.db, tenant, id, now)
    case DoRecover(id, retryMs, now) => Recover(s.db, id, cfg.maxFailures, retryMs, now)
  }

  predicate Effective(s: State, step: Step)
    requires Ends(step) && step.exec in s.live
  {
    HeldIn(s.db, s.live[step.exec].tenant, s.live[step.exec].job, s.live[step.exec].worker, step.now)
  }

  /** Inside a submission or a poll an error of an event insert is caught and ends in the failure path, as a database error
      that is not retried; on the failure path itself it ends the execution. */
  function RescueOf(step: Step, phase: Phase): Option<Copy> {
    if step.DoRecordSubmission? && ReadOf(phase).Some? then Some(Copy(ReadOf(phase).value, false))
    else if step.DoPolled? && ReadOf(phase).Some? then Some(Copy(ReadOf(phase).value, true))
    else None
  }

  function NextLive(cfg: Config, s: State, step: Step): map<nat, Execution>
    requires Enabled(cfg, s, step)
  {
    if step.DoClaim? then
      s.live[step.exec := Execution(step.id, s.db.jobs[step.id].tenant, step.worker, JustClaimed)]
    else if step.DoRead? then
      var e := s.live[step.exec];
      if !OwnedIn(s.db, e.tenant, e.job, e.worker) then s.live - {step.exec}
      else if s.db.jobs[e.job].remoteJobId.None? then s.live[step.exec := e.(phase := ToSubmit(s.db.jobs[e.job]))]
      else s.live[step.exec := e.(phase := Polling(s.db.jobs[e.job]))]
    else if step.DoSend? && step.answered then
      var e := s.live[step.exec];
      s.live[step.exec := e.(phase := Answered(e.phase.read, cfg.remote(e.phase.read.submissionKey)))]
    else if step.DoFlush? then
      var e := s.live[step.exec];
      if e.phase.pending == [] then s.live - {step.exec}
      else s.live[step.exec := e.(phase := Flushing(e.phase.pending[1..], e.phase.rescue))]
    else if step.DoFlushFails? then
      var e := s.live[step.exec];
      s.live[step.exec := e.(phase := Rescuing(e.phase.rescue.value))]
    else if step.DoAbandon? || (Ends(step) && !Effective(s, step)) then
      s.live - {step.exec}
    else if Ends(step) then
      var e := s.live[step.exec];
      s.live[step.exec := e.(phase := Flushing(EndingEvents(e.job, EndingOf(cfg, s, step), step.now), RescueOf(step, e.phase)))]
    else
      s.live
  }

  function Count(m: map<JobId, nat>, id: JobId): nat {
    if id in m then m[id] else 0
  }

  function Next(cfg: Config, s: State, step: Step): State
    requires Enabled(cfg, s, step)
  {
    State(
      Write(cfg, s, step),
      NextLive(cfg, s, step),
      if step.DoSend? then s.sent + [(s.live[step.exec].job, s.live[step.exec].phase.read.submissionKey)] else s.sent,
      if step.DoRecordSubmission? && Effective(s, step)
        then s.recorded[s.live[step.exec].job := Count(s.recorded, s.live[step.exec].job) + 1] else s.recorded,
      if step.DoClaim? then s.idleClaims[step.id := Count(s.idleClaims, step.id) + 1]
        else if Ends(step) && Effective(s, step) && (EndingOf(cfg, s, step).RecordSubmission? || EndingOf(cfg, s, step).RecordWaiting?)
        then s.idleClaims[s.live[step.exec].job := 0] else s.idleClaims)
  }

  predicate Legal(cfg: Config, s: State, steps: seq<Step>)
    decreases |steps|
  {
    steps == [] || (Enabled(cfg, s, steps[0]) && Legal(cfg, Next(cfg, s, steps[0]), steps[1..]))
  }

  function After(cfg: Config, s: State, steps: seq<Step>): State
    requires Legal(cfg, s, steps)
    decreases |steps|
  {
    if steps == [] then s else After(cfg, Next(cfg, s, steps[0]), steps[1..])
  }

  // ---------------------------------------------------------------- what every reachable row looks like

  predicate Shaped(j: Job) {
    && (j.status.Processing? <==> j.leaseOwner.Some?)
    && (j.status.Processing? <==> j.leaseExpiresAt.Some?)
    && (j.status.Processing? <==> j.heartbeatAt.Some?)
    && (j.status.Queued? ==> j.nextAttemptAt == Some(j.createdAt) && j.attemptCount == 0 && j.failureCount == 0 && j.remoteJobId.None?)
    && (j.status.Retrying? ==> j.nextAttemptAt.Some?)
    && (j.status.Waiting? ==> j.nextAttemptAt.None? && j.nextPollAt.Some? && j.remoteJobId.Some?)
    && (j.completedAt.Some? <==> j.status.Completed? || j.status.Failed?)
    && (j.cancelledAt.Some? <==> j.status.Cancelled?)
  }

  /** The engine's answer for this job's key is the only remote id the row can carry. */
  predicate RemoteAgrees(cfg: Config, j: Job) {
    j.remoteJobId.Some? ==> j.remoteJobId.value == cfg.remote(j.submissionKey)
  }

  function ClaimEvents(events: seq<Event>, id: JobId): nat {
    if events == [] then 0
    else ClaimEvents(events[..|events| - 1], id)
         + (var e := events[|events| - 1]; if e.job == id && e.eventType.JobClaimed? then 1 else 0)
  }

  /** Every copy of its row that an execution may still decide from. */
  function CopyOf(p: Phase): Option<Job> {
    match p
    case Flushing(_, Some(c)) => Some(c.read)
    case Rescuing(c) => Some(c.read)
    case _ => ReadOf(p)
  }

  /** Two readings of a row within one attempt: only the lease, the stage and the clock of the last write may differ. */
  predicate SameAttempt(j: Job, k: Job) {
    k == j.(leaseExpiresAt := k.leaseExpiresAt, heartbeatAt := k.heartbeatAt, stage := k.stage, updatedAt := k.updatedAt)
  }

  /** The copy was read while its worker owned the row, and as long as that attempt goes on it is still the row. */
  predicate CopySound(worker: WorkerId, read: Job, row: Job) {
    && read.status.Processing? && read.leaseOwner == Some(worker)
    && read.tenant == row.tenant && read.sourceJob == row.sourceJob && read.submissionKey == row.submissionKey
    && read.attemptCount <= row.attemptCount
    && (row.status.Processing? && row.attemptCount == read.attemptCount ==> SameAttempt(read, row))
  }

  predicate ExecutionSound(cfg: Config, db: Db, e: Execution) {
    && e.job in db.jobs && e.tenant == db.jobs[e.job].tenant && db.jobs[e.job].attemptCount >= 1
    && (CopyOf(e.phase).Some? ==> CopySound(e.worker, CopyOf(e.phase).value, db.jobs[e.job]))
    && (e.phase.ToSubmit? || e.phase.Answered? ==> ReadOf(e.phase).value.remoteJobId.None?)
    && (e.phase.Answered? ==> e.phase.remoteJobId == cfg.remote(e.phase.read.submissionKey))
    && (e.phase.Polling? ==> db.jobs[e.job].remoteJobId.Some?)
    && (e.phase.Flushing? ==> forall i :: 0 <= i < |e.phase.pending| ==> !e.phase.pending[i].eventType.JobClaimed?)
  }

  ghost predicate Sound(cfg: Config, s: State) {
    && (forall id :: id in s.db.jobs ==>
          Shaped(s.db.jobs[id]) && RemoteAgrees(cfg, s.db.jobs[id])
          && s.db.jobs[id].attemptCount == ClaimEvents(s.db.events, id))
    && (forall id: JobId :: id !in s.db.jobs ==>
          ClaimEvents(s.db.events, id) == 0 && Count(s.recorded, id) == 0 && Count(s.idleClaims, id) == 0)
    && (forall x :: x in s.live ==> ExecutionSound(cfg, s.db, s.live[x]))
    && (forall i :: 0 <= i < |s.sent| ==> s.sent[i].0 in s.db.jobs && s.sent[i].1 == s.db.jobs[s.sent[i].0].submissionKey)
  }

  /** How one step may change one row. */
  predicate RowMoves(j: Job, k: Job) {
    && k.tenant == j.tenant && k.sourceJob == j.sourceJob && k.submissionKey == j.submissionKey && k.createdAt == j.createdAt
    && k.attemptCount == j.attemptCount + (if k.status.Processing? && !j.status.Processing? then 1 else 0)
    && (k.status == j.status || TransitionAllowed(j.status, k.status))
    && (j.remoteJobId.Some? ==> k.remoteJobId == j.remoteJobId)
    && (Terminal(j.status) ==> k == j)
    && (j.status.Processing? && k.status.Processing? ==> SameAttempt(j, k))
  }

  /** An ending as an execution in its phase may write it. */
  predicate EndingFits(cfg: Config, j: Job, ending: Ending) {
    && (ending.RecordSubmission? ==> ending.remoteJobId == cfg.remote(j.submissionKey))
    && (ending.RecordWaiting? ==> j.remoteJobId.Some?)
  }

  lemma EndedRowMoves(cfg: Config, j: Job, ending: Ending, now: Time)
    requires Shaped(j) && RemoteAgrees(cfg, j) && j.status.Processing? && EndingFits(cfg, j, ending)
    ensures RowMoves(j, EndedRow(j, ending, now)) && Shaped(EndedRow(j, ending, now)) && RemoteAgrees(cfg, EndedRow(j, ending, now))
  {
  }

  lemma EndingOfFits(cfg: Config, s: State, step: Step)
    requires Sound(cfg, s) && Enabled(cfg, s, step) && Ends(step)
    ensures s.live[step.exec].job in s.db.jobs && EndingFits(cfg, s.db.jobs[s.live[step.exec].job], EndingOf(cfg, s, step))
  {
    assert ExecutionSound(cfg, s.db, s.live[step.exec]);
  }

  /** One row before and after a write. */
  predicate RowFollows(cfg: Config, j: Job, k: Job) {
    RowMoves(j, k) && Shaped(k) && RemoteAgrees(cfg, k)
  }

  lemma RecoveredRowMoves(cfg: Config, j: Job, retryMs: int, now: Time)
    requires Shaped(j) && RemoteAgrees(cfg, j) && Stale(j, now)
    ensures RowFollows(cfg, j, Recovered(j, cfg.maxFailures, retryMs, now))
  {
  }

  lemma CancelledRowMoves(cfg: Config, j: Job, now: Time)
    requires Shaped(j) && RemoteAgrees(cfg, j) && Cancellable(j)
    ensures RowFollows(cfg, j, CancelledBy(j, now))
  {
  }

  lemma ClaimedRowMoves(cfg: Config, j: Job, worker: WorkerId, leaseMs: int, now: Time)
    requires Shaped(j) && RemoteAgrees(cfg, j) && Claimable(j, now)
    ensures RowFollows(cfg, j, Claimed(j, worker, leaseMs, now))
  {
  }

  /** One row after a step that is no ending write, kind by kind. */
  function RowAfter(s: State, step: Step, id: JobId): Job
    requires id in s.db.jobs
  {
    var j := s.db.jobs[id];
    match step
    case DoClaim(_, c, w, leaseMs, now) => if c == id then Claimed(j, w, leaseMs, now) else j
    case DoRenew(x, leaseMs, now) =>
      if x in s.live && s.live[x].job == id && HeldIn(s.db, s.live[x].tenant, id, s.live[x].worker, now)
      then Renewed(j, leaseMs, now) else j
    case DoStage(x, stage, now) =>
      if x in s.live && s.live[x].job == id && OwnedIn(s.db, s.live[x].tenant, id, s.live[x].worker)
      then j.(stage := stage, updatedAt := now) else j
    case DoCancel(tenant, c, now) => if c == id && j.tenant == tenant && Cancellable(j) then CancelledBy(j, now) else j
    case _ => j
  }

  lemma PlainRowAfter(cfg: Config, s: State, step: Step, id: JobId)
    requires Enabled(cfg, s, step) && !Ends(step) && !step.DoRecover? && id in s.db.jobs
    ensures id in Write(cfg, s, step).jobs && Write(cfg, s, step).jobs[id] == RowAfter(s, step, id)
  {
    hide Claimed, Renewed, CancelledBy, Cancellable, Claimable, Holds, Owns, LiveOf;
  }

  lemma RecoveryRowAfter(cfg: Config, s: State, step: Step, id: JobId)
    requires step.DoRecover? && id in s.db.jobs
    ensures id in Write(cfg, s, step).jobs
    ensures var j := s.db.jobs[id];
            Write(cfg, s, step).jobs[id] ==
            if step.id == id && Stale(j, step.now) then Recovered(j, cfg.maxFailures, step.retryMs, step.now) else j
  {
    hide Recovered, Stale;
  }

  lemma EndRowAfter(cfg: Config, s: State, step: Step, id: JobId)
    requires Enabled(cfg, s, step) && Ends(step) && id in s.db.jobs
    ensures id in Write(cfg, s, step).jobs
    ensures Write(cfg, s, step).jobs[id] ==
            if Effective(s, step) && s.live[step.exec].job == id then EndedRow(s.db.jobs[id], EndingOf(cfg, s, step), step.now)
            else s.db.jobs[id]
  {
    hide EndedRow, FailureEnding, Holds;
    var e := s.live[step.exec];
    assert Write(cfg, s, step) == EndRow(s.db, e.tenant, e.job, e.worker, EndingOf(cfg, s, step), step.now);
  }

  lemma EndedIsOver(j: Job, ending: Ending, now: Time)
    ensures !EndedRow(j, ending, now).status.Processing? && EndedRow(j, ending, now).leaseOwner.None?
    ensures EndedRow(j, ending, now).leaseExpiresAt.None?
  {
  }

  lemma PlainStepMovesRow(cfg: Config, s: State, step: Step, id: JobId)
    requires Enabled(cfg, s, step) && !Ends(step) && id in s.db.jobs
    requires Shaped(s.db.jobs[id]) && RemoteAgrees(cfg, s.db.jobs[id])
    ensures id in Write(cfg, s, step).jobs
    ensures RowFollows(cfg, s.db.jobs[id], Write(cfg, s, step).jobs[id])
  {
    hide Write, Claimed, CancelledBy, Recovered, LiveOf, Claimable;
    var j := s.db.jobs[id];
    if step.DoRecover? {
      RecoveryRowAfter(cfg, s, step, id);
      if Stale(j, step.now) {
        RecoveredRowMoves(cfg, j, step.retryMs, step.now);
      }
    } else {
      PlainRowAfter(cfg, s, step, id);
      if step.DoCancel? && Cancellable(j) {
        CancelledRowMoves(cfg, j, step.now);
      } else if step.DoClaim? && step.id == id {
        ClaimedRowMoves(cfg, j, step.worker, step.leaseMs, step.now);
      }
    }
  }

  lemma EndStepMovesRow(cfg: Config, s: State, step: Step, id: JobId)
    requires Enabled(cfg, s, step) && Ends(step) && id in s.db.jobs
    requires Shaped(s.db.jobs[id]) && RemoteAgrees(cfg, s.db.jobs[id])
    requires s.live[step.exec].job == id ==> EndingFits(cfg, s.db.jobs[id], EndingOf(cfg, s, step))
    ensures id in Write(cfg, s, step).jobs
    ensures RowMoves(s.db.jobs[id], Write(cfg, s, step).jobs[id])
    ensures Shaped(Write(cfg, s, step).jobs[id]) && RemoteAgrees(cfg, Write(cfg, s, step).jobs[id])
  {
    hide Write, EndedRow, EndingFits;
    EndRowAfter(cfg, s, step, id);
    if Effective(s, step) && s.live[step.exec].job == id {
      EndedRowMoves(cfg, s.db.jobs[id], EndingOf(cfg, s, step), step.now);
    }
  }

  lemma StepMovesRow(cfg: Config, s: State, step: Step, id: JobId)
    requires Sound(cfg, s) && Enabled(cfg, s, step) && id in s.db.jobs
    ensures id in Write(cfg, s, step).jobs
    ensures RowMoves(s.db.jobs[id], Write(cfg, s, step).jobs[id])
    ensures Shaped(Write(cfg, s, step).jobs[id]) && RemoteAgrees(cfg, Write(cfg, s, step).jobs[id])
  {
    if Ends(step) {
      EndingOfFits(cfg, s, step);
      EndStepMovesRow(cfg, s, step, id);
    } else {
      PlainStepMovesRow(cfg, s, step, id);
    }
  }

  lemma ClaimEventsAppend(events: seq<Event>, e: Event, id: JobId)
    ensures ClaimEvents(events + [e], id) == ClaimEvents(events, id) + (if e.job == id && e.eventType.JobClaimed? then 1 else 0)
  {
    assert (events + [e])[..|events|] == events;
  }

  lemma StepCountsClaims(cfg: Config, s: State, step: Step, id: JobId)
    requires Sound(cfg, s) && Enabled(cfg, s, step)
    ensures ClaimEvents(Write(cfg, s, step).events, id)
      == ClaimEvents(s.db.events, id) + (if step.DoClaim? && step.id == id then 1 else 0)
  {
    var db := Write(cfg, s, step);
    if db.events != s.db.events {
      var e := db.events[|db.events| - 1];
      assert db.events == s.db.events + [e];
      if step.DoFlush? {
        assert ExecutionSound(cfg, s.db, s.live[step.exec]);
      }
      ClaimEventsAppend(s.db.events, e, id);
    }
  }

  lemma MovedRowKeepsExecution(cfg: Config, db: Db, after: Db, e: Execution)
    requires ExecutionSound(cfg, db, e) && e.job in db.jobs && e.job in after.jobs && RowMoves(db.jobs[e.job], after.jobs[e.job])
    ensures ExecutionSound(cfg, after, e)
  {
  }

  /** Reading makes the row as it is the copy. */
  lemma ReadAdvances(cfg: Config, s: State, step: Step)
    requires Enabled(cfg, s, step) && step.DoRead? && ExecutionSound(cfg, s.db, s.live[step.exec])
    ensures step.exec in NextLive(cfg, s, step) ==>
              && NextLive(cfg, s, step)[step.exec].job == s.live[step.exec].job
              && ExecutionSound(cfg, s.db, NextLive(cfg, s, step)[step.exec])
  {
    hide Write, EndingOf, LiveOf;
  }

  /** An ending write leaves the copy with the failure path, or drops it. */
  lemma EndAdvances(cfg: Config, s: State, step: Step)
    requires Enabled(cfg, s, step) && Ends(step) && ExecutionSound(cfg, s.db, s.live[step.exec])
    ensures step.exec in NextLive(cfg, s, step) ==>
              && NextLive(cfg, s, step)[step.exec].job == s.live[step.exec].job
              && ExecutionSound(cfg, s.db, NextLive(cfg, s, step)[step.exec])
  {
    hide Write, EndingOf, LiveOf, CopySound, HeldIn;
  }

  /** Sending and flushing keep the copy. */
  lemma OtherAdvances(cfg: Config, s: State, step: Step)
    requires Enabled(cfg, s, step) && (step.DoSend? || step.DoFlush? || step.DoFlushFails?)
    requires ExecutionSound(cfg, s.db, s.live[step.exec])
    ensures step.exec in NextLive(cfg, s, step) ==>
              && NextLive(cfg, s, step)[step.exec].job == s.live[step.exec].job
              && ExecutionSound(cfg, s.db, NextLive(cfg, s, step)[step.exec])
  {
    hide Write, EndingOf, LiveOf, HeldIn;
  }

  /** What the step makes of the execution's phase is sound against the row as it was. */
  lemma PhaseAdvances(cfg: Config, s: State, step: Step, x: nat)
    requires Enabled(cfg, s, step) && x in s.live && ExecutionSound(cfg, s.db, s.live[x])
    requires x in NextLive(cfg, s, step)
    ensures var e := NextLive(cfg, s, step)[x]; e.job == s.live[x].job && e.job in s.db.jobs && ExecutionSound(cfg, s.db, e)
  {
    hide Write, EndingOf, LiveOf, CopySound, Effective, OwnedIn;
    if NextLive(cfg, s, step)[x] != s.live[x] {
      if step.DoRead? {
        ReadAdvances(cfg, s, step);
      } else if Ends(step) {
        EndAdvances(cfg, s, step);
      } else {
        OtherAdvances(cfg, s, step);
      }
    }
  }

  /** A new execution has claimed its row and read nothing. */
  lemma BornSound(cfg: Config, s: State, step: Step, x: nat)
    requires Enabled(cfg, s, step) && x in NextLive(cfg, s, step) && x !in s.live
    ensures ExecutionSound(cfg, Write(cfg, s, step), NextLive(cfg, s, step)[x])
  {
    hide EndingOf, LiveOf, CopySound;
  }

  lemma StepKeepsExecution(cfg: Config, s: State, step: Step, x: nat)
    requires Sound(cfg, s) && Enabled(cfg, s, step) && x in NextLive(cfg, s, step)
    ensures ExecutionSound(cfg, Write(cfg, s, step), NextLive(cfg, s, step)[x])
  {
    hide Write, NextLive, ExecutionSound, Shaped;
    if x in s.live {
      PhaseAdvances(cfg, s, step, x);
      var e := NextLive(cfg, s, step)[x];
      StepMovesRow(cfg, s, step, e.job);
      MovedRowKeepsExecution(cfg, s.db, Write(cfg, s, step), e);
    } else {
      BornSound(cfg, s, step, x);
    }
  }

  /** Only a claim turns a row to processing. */
  lemma OnlyClaimsStart(cfg: Config, s: State, step: Step, id: JobId)
    requires Enabled(cfg, s, step) && id in s.db.jobs && id in Write(cfg, s, step).jobs
    ensures step.DoClaim? && step.id == id <==> !s.db.jobs[id].status.Processing? && Write(cfg, s, step).jobs[id].status.Processing?
  {
    hide Write, EndedRow;
    if Ends(step) {
      EndRowAfter(cfg, s, step, id);
      EndedIsOver(s.db.jobs[id], EndingOf(cfg, s, step), step.now);
    } else if step.DoRecover? {
      RecoveryRowAfter(cfg, s, step, id);
    } else {
      PlainRowAfter(cfg, s, step, id);
    }
  }

  lemma NewRowIsQueued(cfg: Config, s: State, step: Step, id: JobId)
    requires Enabled(cfg, s, step) && id !in s.db.jobs && id in Write(cfg, s, step).jobs
    ensures step.DoCreate? && step.id == id && Write(cfg, s, step).jobs[id] == NewJob(step.tenant, step.sourceJob, step.key, step.now)
  {
  }

  /** Attempts and claim events are counted together. */
  lemma StepKeepsCount(cfg: Config, s: State, step: Step, id: JobId, before: nat, after: nat)
    requires Enabled(cfg, s, step) && id in s.db.jobs && id in Write(cfg, s, step).jobs
    requires RowMoves(s.db.jobs[id], Write(cfg, s, step).jobs[id]) && s.db.jobs[id].attemptCount == before
    requires after == before + (if step.DoClaim? && step.id == id then 1 else 0)
    ensures Write(cfg, s, step).jobs[id].attemptCount == after
  {
    OnlyClaimsStart(cfg, s, step, id);
  }

  lemma StepKeepsRowSound(cfg: Config, s: State, step: Step, id: JobId)
    requires Sound(cfg, s) && Enabled(cfg, s, step) && id in Write(cfg, s, step).jobs
    ensures var db := Write(cfg, s, step);
            Shaped(db.jobs[id]) && RemoteAgrees(cfg, db.jobs[id]) && db.jobs[id].attemptCount == ClaimEvents(db.events, id)
  {
    StepCountsClaims(cfg, s, step, id);
    if id in s.db.jobs {
      StepMovesRow(cfg, s, step, id);
      StepKeepsCount(cfg, s, step, id, ClaimEvents(s.db.events, id), ClaimEvents(Write(cfg, s, step).events, id));
    } else {
      NewRowIsQueued(cfg, s, step, id);
    }
  }

  lemma StepKeepsAbsent(cfg: Config, s: State, step: Step, id: JobId)
    requires Sound(cfg, s) && Enabled(cfg, s, step) && id !in Next(cfg, s, step).db.jobs
    ensures var n := Next(cfg, s, step); ClaimEvents(n.db.events, id) == 0 && Count(n.recorded, id) == 0 && Count(n.idleClaims, id) == 0
  {
    hide Write, NextLive, ExecutionSound, Shaped, RemoteAgrees;
    StepCountsClaims(cfg, s, step, id);
    if id in s.db.jobs {
      StepMovesRow(cfg, s, step, id);
    }
  }

  lemma StepKeepsSent(cfg: Config, s: State, step: Step, i: nat)
    requires Sound(cfg, s) && Enabled(cfg, s, step) && i < |Next(cfg, s, step).sent|
    ensures var n := Next(cfg, s, step); n.sent[i].0 in n.db.jobs && n.sent[i].1 == n.db.jobs[n.sent[i].0].submissionKey
  {
    if i < |s.sent| {
      StepMovesRow(cfg, s, step, s.sent[i].0);
    } else {
      assert ExecutionSound(cfg, s.db, s.live[step.exec]);
    }
  }

  lemma StepKeepsSound(cfg: Config, s: State, step: Step)
    requires Sound(cfg, s) && Enabled(cfg, s, step)
    ensures Sound(cfg, Next(cfg, s, step))
  {
    var n := Next(cfg, s, step);
    forall id | id in n.db.jobs
      ensures Shaped(n.db.jobs[id]) && RemoteAgrees(cfg, n.db.jobs[id])
      ensures n.db.jobs[id].attemptCount == ClaimEvents(n.db.events, id)
    {
      StepKeepsRowSound(cfg, s, step, id);
    }
    forall id: JobId | id !in n.db.jobs
      ensures ClaimEvents(n.db.events, id) == 0 && Count(n.recorded, id) == 0 && Count(n.idleClaims, id) == 0
    {
      StepKeepsAbsent(cfg, s, step, id);
    }
    forall x | x in n.live ensures ExecutionSound(cfg, n.db, n.live[x]) {
      StepKeepsExecution(cfg, s, step, x);
    }
    forall i | 0 <= i < |n.sent|
      ensures n.sent[i].0 in n.db.jobs && n.sent[i].1 == n.db.jobs[n.sent[i].0].submissionKey
    {
      StepKeepsSent(cfg, s, step, i);
    }
  }

  lemma {:induction false} RunKeepsSound(cfg: Config, s: State, steps: seq<Step>)
    requires Sound(cfg, s) && Legal(cfg, s, steps)
    ensures Sound(cfg, After(cfg, s, steps))
    decreases |steps|
  {
    if steps != [] {
      StepKeepsSound(cfg, s, steps[0]);
      RunKeepsSound(cfg, Next(cfg, s, steps[0]), steps[1..]);
    }
  }
}
