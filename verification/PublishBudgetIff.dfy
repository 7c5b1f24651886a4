/** Exactly which configurations keep the failure budget and record one submission per publish job. */
module PublishBudgetIff {
  import opened Basics
  import opened PublishJobs
  import opened PublishProtocol
  import opened PublishClock
  import opened PublishBudget

  /** A job that can still move has failures left, and no job is claimed more than maxFailures times without progress. */
  ghost predicate BudgetHolds(cfg: Config) {
    forall steps :: Legal(cfg, Initial(), steps) ==> InBudget(cfg, After(cfg, Initial(), steps))
  }

  ghost predicate BudgetHoldsOnTime(cfg: Config, t: Timing) {
    forall steps :: Legal(cfg, Initial(), steps) && Timed(cfg, t, Initial(), 0, steps) ==> InBudget(cfg, After(cfg, Initial(), steps))
  }

  predicate InBudget(cfg: Config, s: State) {
    forall id :: id in s.db.jobs ==>
      && Count(s.idleClaims, id) <= cfg.maxFailures
      && (!Terminal(s.db.jobs[id].status) ==> s.db.jobs[id].failureCount < cfg.maxFailures)
  }

  ghost predicate SubmissionRecordedOnce(cfg: Config) {
    forall steps :: Legal(cfg, Initial(), steps) ==> RecordedOnce(After(cfg, Initial(), steps))
  }

  ghost predicate SubmissionRecordedOnceOnTime(cfg: Config, t: Timing) {
    forall steps :: Legal(cfg, Initial(), steps) && Timed(cfg, t, Initial(), 0, steps) ==> RecordedOnce(After(cfg, Initial(), steps))
  }

  predicate RecordedOnce(s: State) {
    forall id :: id in s.db.jobs ==> Count(s.recorded, id) <= 1
  }

  // ---------------------------------------------------------------- how two executions of one worker break the budget

  /** Job 0 waits for its next attempt after k failures, while execution 0 of worker 0 still means to submit it. */
  predicate Lingering(s: State, k: nat, next: Time) {
    && 0 in s.db.jobs && s.db.jobs[0].status.Retrying? && s.db.jobs[0].failureCount == k && s.db.jobs[0].tenant == 0
    && s.db.jobs[0].nextAttemptAt == Some(next) && s.db.jobs[0].leaseExpiresAt.None? && s.db.jobs[0].remoteJobId.None?
    && s.live.Keys == {0} && s.live[0].worker == 0 && s.live[0].job == 0 && s.live[0].tenant == 0
    && s.live[0].phase.ToSubmit? && s.live[0].phase.read.failureCount == 0
    && Count(s.recorded, 0) == 0
  }

  lemma OneLive(s: State)
    requires s.live.Keys == {0} && s.live[0].worker == 0
    ensures |LiveOf(s, 0)| == 1 && |LiveOf(s, 1)| == 0
  {
    assert LiveOf(s, 0) == {0} && LiveOf(s, 1) == {};
  }

  /** Worker 0 has claimed job 0 at clock zero and read it. */
  predicate Began(s: State, leaseMs: int) {
    && 0 in s.db.jobs && s.db.jobs[0].status.Processing? && s.db.jobs[0].leaseOwner == Some(0) && s.db.jobs[0].tenant == 0
    && s.db.jobs[0].leaseExpiresAt == Some(leaseMs) && s.db.jobs[0].failureCount == 0 && s.db.jobs[0].remoteJobId.None?
    && s.live.Keys == {0} && s.live[0] == Execution(0, 0, 0, ToSubmit(s.db.jobs[0])) && Count(s.recorded, 0) == 0
  }

  lemma Begin(cfg: Config, t: Timing) returns (s: State)
    requires cfg.concurrency >= 1
    ensures Leads(cfg, t, OneJob(), 0, s, 0) && Began(s, t.leaseMs)
  {
    hide Leads;
    s := OneJob();
    StaysThere(cfg, t, s, 0);
    assert LiveOf(s, 0) == {};
    s := Claims(cfg, t, OneJob(), 0, s, 0, 0, 0, 0, 0);
    s := Reads(cfg, t, OneJob(), 0, s, 0, 0);
  }

  lemma LingerFirst(cfg: Config, t: Timing) returns (s: State, clock: Time, next: Time)
    requires cfg.maxFailures >= 2 && cfg.concurrency >= 2 && t.leaseMs > 0
    ensures Leads(cfg, t, OneJob(), 0, s, clock) && Lingering(s, 1, next) && clock <= next
  {
    hide Leads;
    s := Begin(cfg, t);
    clock, next := t.leaseMs, t.leaseMs + t.delayMs(1);
    s := Recovers(cfg, t, OneJob(), 0, s, 0, 0, clock);
  }

  /** Another worker claims the job and dies, and the sweep notices when its lease has run out. */
  lemma LingerOnce(cfg: Config, t: Timing, lingering: State, start: Time, k: nat, at: Time)
    returns (s: State, clock: Time, next: Time)
    requires Leads(cfg, t, OneJob(), 0, lingering, start) && Lingering(lingering, k, at) && start <= at
    requires k + 1 < cfg.maxFailures && cfg.concurrency >= 2 && t.leaseMs > 0
    ensures Leads(cfg, t, OneJob(), 0, s, clock) && Lingering(s, k + 1, next) && clock <= next
  {
    hide Leads;
    OneLive(lingering);
    s := Claims(cfg, t, OneJob(), 0, lingering, start, 1, 0, 1, at);
    s := Dies(cfg, t, OneJob(), 0, s, at, 1);
    assert s.live == lingering.live;
    clock, next := at + t.leaseMs, at + t.leaseMs + t.delayMs(1);
    s := Recovers(cfg, t, OneJob(), 0, s, at, 0, clock);
  }

  lemma {:induction false} LingerTo(cfg: Config, t: Timing, k: nat) returns (s: State, clock: Time, next: Time)
    requires 1 <= k < cfg.maxFailures && cfg.concurrency >= 2 && t.leaseMs > 0
    ensures Leads(cfg, t, OneJob(), 0, s, clock) && Lingering(s, k, next) && clock <= next
    decreases k
  {
    hide Leads;
    if k == 1 {
      s, clock, next := LingerFirst(cfg, t);
    } else {
      s, clock, next := LingerTo(cfg, t, k - 1);
      s, clock, next := LingerOnce(cfg, t, s, clock, k - 1, next);
    }
  }

  /** A retrying job that has used up its budget. */
  predicate Overspent(cfg: Config, s: State) {
    0 in s.db.jobs && s.db.jobs[0].status.Retrying? && s.db.jobs[0].failureCount == cfg.maxFailures
  }

  /** The worker of the lingering execution claims the job again, and the lingering execution schedules one retry too many,
      from the failure count it read long ago. */
  lemma LingeringRetryOverspends(cfg: Config, t: Timing) returns (s: State, clock: Time)
    requires cfg.maxFailures >= 2 && cfg.concurrency >= 2 && t.leaseMs > 0
    ensures Leads(cfg, t, OneJob(), 0, s, clock) && Overspent(cfg, s)
  {
    hide Leads;
    var at;
    s, clock, at := LingerTo(cfg, t, cfg.maxFailures - 1);
    OneLive(s);
    s := Claims(cfg, t, OneJob(), 0, s, clock, 1, 0, 0, at);
    s := Retries(cfg, t, OneJob(), 0, s, at, 0);
    clock := at;
  }

  lemma SharedClaimsOverspend(cfg: Config, t: Timing) returns (steps: seq<Step>)
    requires cfg.maxFailures >= 2 && cfg.concurrency >= 2 && t.leaseMs > 0
    ensures Legal(cfg, Initial(), steps) && Timed(cfg, t, Initial(), 0, steps)
    ensures Overspent(cfg, After(cfg, Initial(), steps)) && !InBudget(cfg, After(cfg, Initial(), steps))
  {
    hide Leads;
    var s, clock := LingeringRetryOverspends(cfg, t);
    steps := FromInitial(cfg, t, s, clock);
  }

  /** The job waits with one recorded submission, and execution 0 of worker 0 still means to submit it. */
  predicate Rejoinable(s: State, next: Time) {
    && 0 in s.db.jobs && s.db.jobs[0].status.Waiting? && s.db.jobs[0].nextPollAt == Some(next) && s.db.jobs[0].leaseExpiresAt.None?
    && s.db.jobs[0].tenant == 0 && Count(s.recorded, 0) == 1
    && s.live.Keys == {0} && s.live[0].worker == 0 && s.live[0].job == 0 && s.live[0].tenant == 0 && s.live[0].phase.ToSubmit?
  }

  /** Worker 1 has claimed job 0 at some time and read it, while execution 0 of worker 0 goes on. */
  predicate Taken(s: State, live: map<nat, Execution>, expires: Time) {
    && 0 in s.db.jobs && s.db.jobs[0].status.Processing? && s.db.jobs[0].leaseOwner == Some(1)
    && s.db.jobs[0].leaseExpiresAt == Some(expires) && s.db.jobs[0].tenant == 0 && Count(s.recorded, 0) == 0
    && 1 !in live && s.live == live[1 := Execution(0, 0, 1, ToSubmit(s.db.jobs[0]))]
  }

  lemma TakeOver(cfg: Config, t: Timing, lingering: State, start: Time, at: Time) returns (s: State)
    requires Leads(cfg, t, OneJob(), 0, lingering, start) && Lingering(lingering, 1, at) && start <= at && cfg.concurrency >= 1
    ensures Leads(cfg, t, OneJob(), 0, s, at) && Taken(s, lingering.live, at + t.leaseMs)
  {
    hide Leads;
    OneLive(lingering);
    s := Claims(cfg, t, OneJob(), 0, lingering, start, 1, 0, 1, at);
    s := Reads(cfg, t, OneJob(), 0, s, at, 1);
  }

  /** Worker 1 submits the job, records the answer, and dies. */
  lemma SubmitAndDie(cfg: Config, t: Timing, taken: State, live: map<nat, Execution>, at: Time) returns (s: State)
    requires Leads(cfg, t, OneJob(), 0, taken, at) && Taken(taken, live, at + t.leaseMs) && t.leaseMs > 0
    requires live.Keys == {0} && live[0].worker == 0 && live[0].job == 0 && live[0].tenant == 0 && live[0].phase.ToSubmit?
    ensures Leads(cfg, t, OneJob(), 0, s, at) && Rejoinable(s, at + t.pollMs)
  {
    hide Leads;
    s := Sends(cfg, t, OneJob(), 0, taken, at, 1);
    s := Records(cfg, t, OneJob(), 0, s, at, 1);
    s := Dies(cfg, t, OneJob(), 0, s, at, 1);
    assert s.live == live;
  }

  lemma RecordOver(cfg: Config, t: Timing, rejoinable: State, start: Time, at: Time) returns (s: State)
    requires Leads(cfg, t, OneJob(), 0, rejoinable, start) && Rejoinable(rejoinable, at) && start <= at
    requires cfg.concurrency >= 2 && t.leaseMs > 0
    ensures Leads(cfg, t, OneJob(), 0, s, at) && 0 in s.db.jobs && Count(s.recorded, 0) == 2
  {
    hide Leads;
    OneLive(rejoinable);
    s := Claims(cfg, t, OneJob(), 0, rejoinable, start, 2, 0, 0, at);
    s := Sends(cfg, t, OneJob(), 0, s, at, 0);
    s := Records(cfg, t, OneJob(), 0, s, at, 0);
  }

  /** The lingering execution records its own submission over the one that was recorded after it was forgotten. */
  lemma SharedClaimsRecordTwice(cfg: Config, t: Timing) returns (steps: seq<Step>)
    requires cfg.maxFailures >= 2 && cfg.concurrency >= 2 && t.leaseMs > 0
    ensures Legal(cfg, Initial(), steps) && Timed(cfg, t, Initial(), 0, steps)
    ensures 0 in After(cfg, Initial(), steps).db.jobs && Count(After(cfg, Initial(), steps).recorded, 0) == 2
  {
    hide Leads;
    var lingering, start, at := LingerFirst(cfg, t);
    var s := TakeOver(cfg, t, lingering, start, at);
    s := SubmitAndDie(cfg, t, s, lingering.live, at);
    var clock := at + t.pollMs;
    s := RecordOver(cfg, t, s, at, clock);
    steps := FromInitial(cfg, t, s, clock);
  }

  // ---------------------------------------------------------------- an event insert that fails

  /** Job 0 is processing for execution 1 of worker 0, while execution 0 of the same worker goes to its failure path. */
  predicate Rescued(s: State, expires: Time) {
    && s.live.Keys == {0, 1} && s.live[0].worker == s.live[1].worker == 0 && s.live[0].job == s.live[1].job == 0
    && s.live[0].tenant == 0 && s.live[0].phase.Rescuing? && s.live[1].phase.Polling?
    && 0 in s.db.jobs && s.db.jobs[0].status.Processing? && s.db.jobs[0].leaseOwner == Some(0) && s.db.jobs[0].tenant == 0
    && s.db.jobs[0].leaseExpiresAt == Some(expires) && s.db.jobs[0] == s.live[1].phase.read
  }

  /** Job 0 waits, and execution 0 of worker 0 has still to insert the events of the submission it recorded. */
  predicate Unlogged(s: State, next: Time) {
    && s.live.Keys == {0} && s.live[0].worker == 0 && s.live[0].job == 0 && s.live[0].tenant == 0
    && s.live[0].phase.Flushing? && s.live[0].phase.rescue.Some?
    && 0 in s.db.jobs && s.db.jobs[0].status.Waiting? && s.db.jobs[0].nextPollAt == Some(next) && s.db.jobs[0].tenant == 0
    && s.db.jobs[0].leaseExpiresAt.None? && s.db.jobs[0].remoteJobId.Some?
  }

  lemma SubmitUnlogged(cfg: Config, t: Timing) returns (s: State)
    requires cfg.concurrency >= 2 && t.leaseMs > 0
    ensures Leads(cfg, t, OneJob(), 0, s, 0) && Unlogged(s, t.pollMs)
  {
    hide Leads;
    s := Begin(cfg, t);
    s := Sends(cfg, t, OneJob(), 0, s, 0, 0);
    s := Records(cfg, t, OneJob(), 0, s, 0, 0);
  }

  lemma ClaimUnlogged(cfg: Config, t: Timing, unlogged: State) returns (s: State)
    requires cfg.concurrency >= 2 && Leads(cfg, t, OneJob(), 0, unlogged, 0) && Unlogged(unlogged, t.pollMs)
    ensures Leads(cfg, t, OneJob(), 0, s, t.pollMs) && Rescued(s, t.pollMs + t.leaseMs)
  {
    hide Leads;
    OneLive(unlogged);
    s := Claims(cfg, t, OneJob(), 0, unlogged, 0, 1, 0, 0, t.pollMs);
    s := Reads(cfg, t, OneJob(), 0, s, t.pollMs, 1);
    s := FlushFails(cfg, t, OneJob(), 0, s, t.pollMs, 0);
  }

  lemma RescueFails(cfg: Config, s: State, expires: Time, step: Step)
    requires Rescued(s, expires) && step.DoRescue? && step.exec == 0 && step.now < expires
    ensures Enabled(cfg, s, step) && 0 in Next(cfg, s, step).db.jobs && Next(cfg, s, step).db.jobs[0].status.Failed?
  {
  }

  /** Whatever the budget, an execution whose event insert fails can fail the next claim of its own worker. */
  lemma LateRescueFailsNewClaim(cfg: Config, t: Timing) returns (steps: seq<Step>, step: Step)
    requires cfg.concurrency >= 2 && t.leaseMs > 0
    ensures Legal(cfg, Initial(), steps) && Timed(cfg, t, Initial(), 0, steps)
    ensures var s := After(cfg, Initial(), steps);
            && Rescued(s, t.pollMs + t.leaseMs) && step.DoRescue? && Fits(cfg, t, s, ClockAfter(0, steps), step)
            && 0 in Next(cfg, s, step).db.jobs && Next(cfg, s, step).db.jobs[0].status.Failed?
  {
    hide Leads;
    var s := SubmitUnlogged(cfg, t);
    s := ClaimUnlogged(cfg, t, s);
    steps := FromInitial(cfg, t, s, t.pollMs);
    step := DoRescue(0, Reported(0), t.pollMs);
    RescueFails(cfg, s, t.pollMs + t.leaseMs, step);
  }

  // ---------------------------------------------------------------- exactly when

  lemma DisciplinedReach(cfg: Config, steps: seq<Step>)
    requires cfg.maxFailures >= 1 && (cfg.concurrency <= 1 || cfg.maxFailures == 1)
    requires Legal(cfg, Initial(), steps)
    ensures Disciplined(cfg, After(cfg, Initial(), steps))
  {
    if cfg.concurrency <= 1 {
      SerialWorkersNeverShare(cfg, Initial(), steps);
    } else {
      BudgetOfOneNeverShares(cfg, Initial(), steps);
    }
    UnsharedRunsStayWithin(cfg, Initial(), steps);
  }

  /** The failure budget is kept exactly by serial workers, or when the first failure is final anyway; and configured schedules
      are no better than others. */
  lemma FailureBudgetIff(cfg: Config, t: Timing)
    requires cfg.maxFailures >= 1 && t.leaseMs > 0
    ensures BudgetHolds(cfg) <==> cfg.concurrency <= 1 || cfg.maxFailures == 1
    ensures BudgetHoldsOnTime(cfg, t) <==> cfg.concurrency <= 1 || cfg.maxFailures == 1
  {
    if cfg.concurrency <= 1 || cfg.maxFailures == 1 {
      forall steps | Legal(cfg, Initial(), steps) ensures InBudget(cfg, After(cfg, Initial(), steps)) {
        DisciplinedReach(cfg, steps);
        var s := After(cfg, Initial(), steps);
        forall id | id in s.db.jobs ensures JobWithin(cfg, s, id) {
        }
      }
    } else {
      var steps := SharedClaimsOverspend(cfg, t);
    }
  }

  /** One submission is recorded per publish job exactly under the same condition. */
  lemma OneSubmissionIff(cfg: Config, t: Timing)
    requires cfg.maxFailures >= 1 && t.leaseMs > 0
    ensures SubmissionRecordedOnce(cfg) <==> cfg.concurrency <= 1 || cfg.maxFailures == 1
    ensures SubmissionRecordedOnceOnTime(cfg, t) <==> cfg.concurrency <= 1 || cfg.maxFailures == 1
  {
    if cfg.concurrency <= 1 || cfg.maxFailures == 1 {
      forall steps | Legal(cfg, Initial(), steps) ensures RecordedOnce(After(cfg, Initial(), steps)) {
        DisciplinedReach(cfg, steps);
        var s := After(cfg, Initial(), steps);
        forall id | id in s.db.jobs ensures JobWithin(cfg, s, id) {
        }
      }
    } else {
      var steps := SharedClaimsRecordTwice(cfg, t);
    }
  }
}
