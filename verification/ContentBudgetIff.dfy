/** Exactly which configurations keep the attempt limit and what follows from it, on configured schedules as on all others. */
module ContentBudgetIff {
  import opened Basics
  import opened ContentJobs
  import opened ContentProtocol
  import opened ContentClock
  import opened ContentBudget
  import opened ContentScheduler

  // ---------------------------------------------------------------- what a configuration may keep

  /** Every reachable state of the configuration respects the limit. */
  ghost predicate LimitHolds(cfg: Config) {
    forall steps :: Legal(cfg, Initial(), steps) ==> Within(cfg, After(cfg, Initial(), steps))
  }

  ghost predicate LimitHoldsOnTime(cfg: Config, t: Timing) {
    forall steps :: Legal(cfg, Initial(), steps) && Timed(cfg, t, Initial(), 0, steps) ==> Within(cfg, After(cfg, Initial(), steps))
  }

  predicate FewChanges(cfg: Config, s: State, id: JobId) {
    Changes(s.db.events, id) <= 2 * cfg.maxAttempts
  }

  /** Every reachable state of the configuration keeps the bound on status changes. */
  ghost predicate ChangesBounded(cfg: Config) {
    forall steps, id: JobId :: Legal(cfg, Initial(), steps) ==> FewChanges(cfg, After(cfg, Initial(), steps), id)
  }

  ghost predicate ChangesBoundedOnTime(cfg: Config, t: Timing) {
    forall steps, id: JobId ::
      Legal(cfg, Initial(), steps) && Timed(cfg, t, Initial(), 0, steps) ==> FewChanges(cfg, After(cfg, Initial(), steps), id)
  }

  /** No job that is still queued has been passed over more than maxAttempts times for each job ahead of it. */
  ghost predicate FewPassOver(cfg: Config, s: State, steps: seq<Step>)
    requires Legal(cfg, s, steps)
  {
    var end := After(cfg, s, steps);
    forall id :: id in s.db.jobs && id in end.db.jobs && end.db.jobs[id].status.Queued? ==>
      Claims(steps) <= |AheadOf(end.db, id)| * cfg.maxAttempts
  }

  /** On no oldest-first schedule that goes on from a reachable state. */
  ghost predicate NoneStarves(cfg: Config) {
    forall before, steps ::
      Legal(cfg, Initial(), before) && Legal(cfg, After(cfg, Initial(), before), steps)
      && AllOldestFirst(cfg, After(cfg, Initial(), before), steps)
      ==> FewPassOver(cfg, After(cfg, Initial(), before), steps)
  }

  ghost predicate NoneStarvesOnTime(cfg: Config, t: Timing) {
    forall before, steps ::
      Legal(cfg, Initial(), before) && Timed(cfg, t, Initial(), 0, before) && Legal(cfg, After(cfg, Initial(), before), steps)
      && Timed(cfg, t, After(cfg, Initial(), before), ClockAfter(0, before), steps)
      && AllOldestFirst(cfg, After(cfg, Initial(), before), steps)
      ==> FewPassOver(cfg, After(cfg, Initial(), before), steps)
  }

  // ---------------------------------------------------------------- runs that are built step by step

  /** A configured oldest-first schedule from one state and clock to another, with so many claims. */
  ghost predicate Run(cfg: Config, t: Timing, from: State, start: Time, steps: seq<Step>, to: State, clock: Time, claims: nat) {
    && Legal(cfg, from, steps) && Timed(cfg, t, from, start, steps) && AllOldestFirst(cfg, from, steps)
    && After(cfg, from, steps) == to && ClockAfter(start, steps) == clock && Claims(steps) == claims
  }

  function ClaimCount(step: Step): nat {
    if step.DoClaim? then 1 else 0
  }

  predicate Fits(cfg: Config, t: Timing, s: State, clock: Time, step: Step) {
    Enabled(cfg, s, step) && OnTime(t, s, clock, step) && OldestFirst(s, step)
  }

  lemma Stay(cfg: Config, t: Timing, s: State, clock: Time)
    ensures Run(cfg, t, s, clock, [], s, clock, 0)
  {
  }

  lemma Prepend(cfg: Config, t: Timing, from: State, start: Time, step: Step, steps: seq<Step>, to: State, clock: Time, claims: nat)
    requires Fits(cfg, t, from, start, step)
    requires Run(cfg, t, Next(cfg, from, step), Tick(start, step), steps, to, clock, claims)
    ensures Run(cfg, t, from, start, [step] + steps, to, clock, claims + ClaimCount(step))
  {
    assert ([step] + steps)[1..] == steps;
  }

  lemma {:induction false} Extend(cfg: Config, t: Timing, from: State, start: Time, steps: seq<Step>, to: State, clock: Time,
                                  claims: nat, step: Step)
    requires Run(cfg, t, from, start, steps, to, clock, claims) && Fits(cfg, t, to, clock, step)
    ensures Run(cfg, t, from, start, steps + [step], Next(cfg, to, step), Tick(clock, step), claims + ClaimCount(step))
    decreases |steps|
  {
    if steps == [] {
      Stay(cfg, t, Next(cfg, to, step), Tick(clock, step));
      Prepend(cfg, t, from, start, step, [], Next(cfg, to, step), Tick(clock, step), 0);
      assert [] + [step] == [step] + [];
    } else {
      var next, rest := Next(cfg, from, steps[0]), steps[1..];
      var few := claims - ClaimCount(steps[0]);
      Extend(cfg, t, next, Tick(start, steps[0]), rest, to, clock, few, step);
      Prepend(cfg, t, from, start, steps[0], rest + [step], Next(cfg, to, step), Tick(clock, step), few + ClaimCount(step));
      assert steps + [step] == [steps[0]] + (rest + [step]);
    }
  }

  // ---------------------------------------------------------------- how two executions of one worker break the limit

  /** Two queued jobs of one age. */
  function TwoJobs(): Db {
    Create(Create(Initial().db, 0, 0, 0, 0), 1, 0, 0, 0)
  }

  function Start(): State {
    State(TwoJobs(), map[])
  }

  /** Job 0 waits for its next attempt after k of them, while execution 0 of worker 0 still runs from the first. */
  predicate Lingering(s: State, k: nat, next: Time) {
    && s.db.jobs.Keys == {0, 1} && s.db.jobs[1] == NewJob(0, 0, 0)
    && s.db.jobs[0].status.Retrying? && s.db.jobs[0].attemptCount == k && s.db.jobs[0].tenant == 0 && s.db.jobs[0].createdAt == 0
    && s.db.jobs[0].nextAttemptAt == Some(next) && s.db.jobs[0].leaseExpiresAt.None?
    && s.live.Keys == {0} && s.live[0].worker == 0 && s.live[0].job == 0
    && s.live[0].claim.attemptCount == 1 && s.live[0].claim.tenant == 0
  }

  lemma OneLive(s: State)
    requires s.live.Keys == {0} && s.live[0].worker == 0
    ensures |LiveOf(s, 0)| == 1 && |LiveOf(s, 1)| == 0
  {
    assert LiveOf(s, 0) == {0} && LiveOf(s, 1) == {};
  }

  /** One attempt of the job by some worker that dies, and the sweep that notices when the lease has run out. */
  lemma LingerFirst(cfg: Config, t: Timing) returns (steps: seq<Step>, s: State, clock: Time, next: Time)
    requires cfg.maxAttempts >= 2 && cfg.concurrency >= 2 && t.leaseMs > 0
    ensures Run(cfg, t, Start(), 0, steps, s, clock, 1) && Lingering(s, 1, next) && clock <= next
  {
    hide Run;
    var claim, recover := DoClaim(0, 0, 0, t.leaseMs, 0), DoRecover(0, 0, t.leaseMs + t.delayMs(2), t.leaseMs);
    steps, s, clock := [], Start(), 0;
    Stay(cfg, t, s, clock);
    assert LiveOf(s, 0) == {};
    Extend(cfg, t, Start(), 0, steps, s, clock, 0, claim);
    steps, s, clock := steps + [claim], Next(cfg, s, claim), 0;
    Extend(cfg, t, Start(), 0, steps, s, clock, 1, recover);
    steps, s, clock := steps + [recover], Next(cfg, s, recover), t.leaseMs;
    next := t.leaseMs + t.delayMs(2);
  }

  /** Another worker claims the job and dies, and the sweep schedules the next attempt. */
  lemma LingerOnce(cfg: Config, t: Timing, before: seq<Step>, lingering: State, start: Time, k: nat, at: Time)
    returns (steps: seq<Step>, s: State, clock: Time, next: Time)
    requires Run(cfg, t, Start(), 0, before, lingering, start, k) && Lingering(lingering, k, at) && start <= at
    requires k + 1 < cfg.maxAttempts && cfg.concurrency >= 2 && t.leaseMs > 0
    ensures Run(cfg, t, Start(), 0, steps, s, clock, k + 1) && Lingering(s, k + 1, next) && clock <= next
  {
    hide Run;
    var claim, die := DoClaim(1, 0, 1, t.leaseMs, at), DoAbandon(1);
    clock, next := at + t.leaseMs, at + t.leaseMs + t.delayMs(k + 2);
    var recover := DoRecover(0, 0, next, clock);
    OneLive(lingering);
    Extend(cfg, t, Start(), 0, before, lingering, start, k, claim);
    steps, s := before + [claim], Next(cfg, lingering, claim);
    Extend(cfg, t, Start(), 0, steps, s, at, k + 1, die);
    steps, s := steps + [die], Next(cfg, s, die);
    assert s.live == lingering.live;
    Extend(cfg, t, Start(), 0, steps, s, at, k + 1, recover);
    steps, s := steps + [recover], Next(cfg, s, recover);
  }

  lemma {:induction false} LingerTo(cfg: Config, t: Timing, k: nat) returns (steps: seq<Step>, s: State, clock: Time, next: Time)
    requires 1 <= k < cfg.maxAttempts && cfg.concurrency >= 2 && t.leaseMs > 0
    ensures Run(cfg, t, Start(), 0, steps, s, clock, k) && Lingering(s, k, next) && clock <= next
    decreases k
  {
    if k == 1 {
      steps, s, clock, next := LingerFirst(cfg, t);
    } else {
      steps, s, clock, next := LingerTo(cfg, t, k - 1);
      steps, s, clock, next := LingerOnce(cfg, t, steps, s, clock, k - 1, next);
    }
  }

  /** Job 0 has been attempted once too often, and job 1 is still queued. */
  predicate Overrun(cfg: Config, s: State) {
    && s.db.jobs.Keys == {0, 1} && s.db.jobs[1] == NewJob(0, 0, 0)
    && s.db.jobs[0].attemptCount == cfg.maxAttempts + 1 && s.db.jobs[0].status.Processing? && s.db.jobs[0].createdAt == 0
  }

  /** The first worker claims the job again, its lingering execution schedules a retry from its outdated count, and the retry
      is claimed. */
  lemma LingeringRetryOverruns(cfg: Config, t: Timing) returns (steps: seq<Step>, s: State, clock: Time)
    requires cfg.maxAttempts >= 2 && cfg.concurrency >= 2 && t.leaseMs > 0
    ensures Run(cfg, t, Start(), 0, steps, s, clock, cfg.maxAttempts + 1) && Overrun(cfg, s)
  {
    hide Run;
    var at, k := 0, cfg.maxAttempts - 1;
    steps, s, clock, at := LingerTo(cfg, t, k);
    var next := at + t.delayMs(2);
    var claim, retry, again :=
      DoClaim(1, 0, 0, t.leaseMs, at), DoRetryOrFail(0, Reported(0), next, at), DoClaim(2, 0, 0, t.leaseMs, next);
    OneLive(s);
    Extend(cfg, t, Start(), 0, steps, s, clock, k, claim);
    steps, s := steps + [claim], Next(cfg, s, claim);
    Extend(cfg, t, Start(), 0, steps, s, at, k + 1, retry);
    steps, s := steps + [retry], Next(cfg, s, retry);
    assert LiveOf(s, 0) == {1};
    Extend(cfg, t, Start(), 0, steps, s, at, k + 1, again);
    steps, s, clock := steps + [again], Next(cfg, s, again), next;
  }

  function Creations(): seq<Step> {
    [DoCreate(0, 0, 0, 0), DoCreate(1, 0, 0, 0)]
  }

  lemma Created(cfg: Config, t: Timing)
    ensures Run(cfg, t, Initial(), 0, Creations(), Start(), 0, 0)
  {
    var one := Next(cfg, Initial(), Creations()[0]);
    Stay(cfg, t, Start(), 0);
    Prepend(cfg, t, one, 0, Creations()[1], [], Start(), 0, 0);
    Prepend(cfg, t, Initial(), 0, Creations()[0], [Creations()[1]], Start(), 0, 0);
    assert [Creations()[1]] + [] == [Creations()[1]];
    assert [Creations()[0]] + [Creations()[1]] == Creations();
  }

  lemma FromInitial(cfg: Config, t: Timing, steps: seq<Step>, s: State, clock: Time, claims: nat)
    requires Run(cfg, t, Start(), 0, steps, s, clock, claims)
    ensures Run(cfg, t, Initial(), 0, Creations() + steps, s, clock, claims)
  {
    var one := Next(cfg, Initial(), Creations()[0]);
    Prepend(cfg, t, one, 0, Creations()[1], steps, s, clock, claims);
    Prepend(cfg, t, Initial(), 0, Creations()[0], [Creations()[1]] + steps, s, clock, claims);
    assert [Creations()[0]] + ([Creations()[1]] + steps) == Creations() + steps;
  }

  /** For any lease duration and delays, a configured schedule that attempts a job once too often. */
  lemma SharedClaimsOverrun(cfg: Config, t: Timing) returns (steps: seq<Step>)
    requires cfg.maxAttempts >= 2 && cfg.concurrency >= 2 && t.leaseMs > 0
    ensures Legal(cfg, Initial(), steps) && Timed(cfg, t, Initial(), 0, steps)
    ensures Overrun(cfg, After(cfg, Initial(), steps)) && !Within(cfg, After(cfg, Initial(), steps))
  {
    var s, clock;
    steps, s, clock := LingeringRetryOverruns(cfg, t);
    FromInitial(cfg, t, steps, s, clock, cfg.maxAttempts + 1);
    steps := Creations() + steps;
    assert !RowWithin(cfg, s.db.jobs[0]);
  }

  /** Serial workers and single attempts keep the limit on every schedule. */
  lemma LimitKept(cfg: Config, steps: seq<Step>)
    requires cfg.maxAttempts >= 1 && (cfg.concurrency <= 1 || cfg.maxAttempts == 1) && Legal(cfg, Initial(), steps)
    ensures Sound(After(cfg, Initial(), steps)) && Within(cfg, After(cfg, Initial(), steps))
  {
    if cfg.concurrency <= 1 {
      SerialWorkersNeverShare(cfg, Initial(), steps);
      UnsharedRunsStayWithin(cfg, Initial(), steps);
    } else {
      SingleShotRuns(cfg, Initial(), steps);
    }
  }

  /** The attempt limit is a limit exactly for serial workers, or when there is only one attempt anyway; and configured
      schedules are no better than others. */
  lemma AttemptLimitIff(cfg: Config, t: Timing)
    requires cfg.maxAttempts >= 1 && t.leaseMs > 0
    ensures LimitHolds(cfg) <==> cfg.concurrency <= 1 || cfg.maxAttempts == 1
    ensures LimitHoldsOnTime(cfg, t) <==> cfg.concurrency <= 1 || cfg.maxAttempts == 1
  {
    if cfg.concurrency <= 1 || cfg.maxAttempts == 1 {
      forall steps | Legal(cfg, Initial(), steps) ensures Within(cfg, After(cfg, Initial(), steps)) {
        LimitKept(cfg, steps);
      }
    } else {
      var steps := SharedClaimsOverrun(cfg, t);
    }
  }

  /** With shared claims a job can change status once too often. */
  lemma SharedClaimsChangeTooOften(cfg: Config, t: Timing) returns (steps: seq<Step>)
    requires cfg.maxAttempts >= 2 && cfg.concurrency >= 2 && t.leaseMs > 0
    ensures Legal(cfg, Initial(), steps) && Timed(cfg, t, Initial(), 0, steps)
    ensures Changes(After(cfg, Initial(), steps).db.events, 0) == 2 * cfg.maxAttempts + 1
  {
    steps := SharedClaimsOverrun(cfg, t);
    RunKeepsSound(cfg, Initial(), steps);
    assert Replays(After(cfg, Initial(), steps).db);
  }

  /** The bound on status changes holds exactly when the attempt limit does. */
  lemma ChangesBoundedIff(cfg: Config, t: Timing)
    requires cfg.maxAttempts >= 1 && t.leaseMs > 0
    ensures ChangesBounded(cfg) <==> cfg.concurrency <= 1 || cfg.maxAttempts == 1
    ensures ChangesBoundedOnTime(cfg, t) <==> cfg.concurrency <= 1 || cfg.maxAttempts == 1
  {
    if cfg.concurrency <= 1 || cfg.maxAttempts == 1 {
      forall steps, id: JobId | Legal(cfg, Initial(), steps) ensures FewChanges(cfg, After(cfg, Initial(), steps), id) {
        LimitKept(cfg, steps);
        ChangesWithin(cfg, After(cfg, Initial(), steps), id);
      }
    } else {
      var steps := SharedClaimsChangeTooOften(cfg, t);
      assert !FewChanges(cfg, After(cfg, Initial(), steps), 0);
    }
  }

  /** And a queued job can be passed over once too often for a job of its own age, though claims take the oldest job first. */
  lemma SharedClaimsPassOverTooOften(cfg: Config, t: Timing) returns (steps: seq<Step>)
    requires cfg.maxAttempts >= 2 && cfg.concurrency >= 2 && t.leaseMs > 0
    ensures Legal(cfg, Start(), steps) && Timed(cfg, t, Start(), 0, steps) && AllOldestFirst(cfg, Start(), steps)
    ensures !FewPassOver(cfg, Start(), steps)
  {
    var s, clock;
    steps, s, clock := LingeringRetryOverruns(cfg, t);
    assert AheadOf(s.db, 1) == {0};
  }

  lemma LimitKeptPassesOver(cfg: Config, before: seq<Step>, steps: seq<Step>)
    requires cfg.maxAttempts >= 1 && (cfg.concurrency <= 1 || cfg.maxAttempts == 1)
    requires Legal(cfg, Initial(), before) && Legal(cfg, After(cfg, Initial(), before), steps)
    requires AllOldestFirst(cfg, After(cfg, Initial(), before), steps)
    ensures FewPassOver(cfg, After(cfg, Initial(), before), steps)
  {
    var s := After(cfg, Initial(), before);
    LimitKept(cfg, before);
    Joined(cfg, Initial(), before, steps);
    LimitKept(cfg, before + steps);
    forall id | id in s.db.jobs && id in After(cfg, s, steps).db.jobs && After(cfg, s, steps).db.jobs[id].status.Queued?
      ensures Claims(steps) <= |AheadOf(After(cfg, s, steps).db, id)| * cfg.maxAttempts
    {
      WithinPassesOverBoundedly(cfg, s, steps, id);
    }
  }

  lemma {:induction false} Joined(cfg: Config, s: State, first: seq<Step>, second: seq<Step>)
    requires Legal(cfg, s, first) && Legal(cfg, After(cfg, s, first), second)
    ensures Legal(cfg, s, first + second)
    ensures After(cfg, s, first + second) == After(cfg, After(cfg, s, first), second)
    decreases |first|
  {
    if first == [] {
      assert first + second == second;
    } else {
      assert (first + second)[1..] == first[1..] + second;
      Joined(cfg, Next(cfg, s, first[0]), first[1..], second);
    }
  }

  /** Queued jobs are passed over boundedly on all oldest-first schedules exactly under the same condition. */
  lemma PassedOverIff(cfg: Config, t: Timing)
    requires cfg.maxAttempts >= 1 && t.leaseMs > 0
    ensures NoneStarves(cfg) <==> cfg.concurrency <= 1 || cfg.maxAttempts == 1
    ensures NoneStarvesOnTime(cfg, t) <==> cfg.concurrency <= 1 || cfg.maxAttempts == 1
  {
    if cfg.concurrency <= 1 || cfg.maxAttempts == 1 {
      forall before, steps | Legal(cfg, Initial(), before) && Legal(cfg, After(cfg, Initial(), before), steps) &&
                             AllOldestFirst(cfg, After(cfg, Initial(), before), steps)
        ensures FewPassOver(cfg, After(cfg, Initial(), before), steps)
      {
        LimitKeptPassesOver(cfg, before, steps);
      }
    } else {
      var steps := SharedClaimsPassOverTooOften(cfg, t);
      Created(cfg, t);
    }
  }
}
