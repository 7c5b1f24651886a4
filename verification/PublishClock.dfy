/**
 Publish schedules as configured workers produce them: one clock that does not run back, one lease duration, one poll
 interval, and every retry put off by the delay of the retry policy.
 */
module PublishClock {
  import opened Basics
  import opened PublishJobs
  import opened PublishProtocol

  /** The delay is a function of how many failures there have been; recovery uses the first. */
  datatype Timing = Timing(leaseMs: int, pollMs: nat, delayMs: nat -> nat)

  predicate HasClock(step: Step) {
    !step.DoRead? && !step.DoSend? && !step.DoFlush? && !step.DoFlushFails? && !step.DoAbandon?
  }

  function Tick(clock: Time, step: Step): Time {
    if HasClock(step) then step.now else clock
  }

  predicate OnTime(t: Timing, s: State, clock: Time, step: Step) {
    && clock <= Tick(clock, step)
    && match step
       case DoClaim(_, _, _, leaseMs, _) => leaseMs == t.leaseMs
       case DoRenew(_, leaseMs, _) => leaseMs == t.leaseMs
       case DoRecordSubmission(_, _, nextPollAt, now) => nextPollAt == now + t.pollMs
       case DoPolled(_, ending, now) => ending.RecordWaiting? ==> ending.nextPollAt == now + t.pollMs
       case DoFailure(x, retryable, _, delayMs, _) =>
         x in s.live && ReadOf(s.live[x].phase).Some? && retryable
         ==> delayMs == t.delayMs(ReadOf(s.live[x].phase).value.failureCount + 1)
       case DoRecover(_, retryMs, _) => retryMs == t.delayMs(1)
       case _ => true
  }

  predicate Timed(cfg: Config, t: Timing, s: State, clock: Time, steps: seq<Step>)
    requires Legal(cfg, s, steps)
    decreases |steps|
  {
    steps == []
    || (OnTime(t, s, clock, steps[0]) && Timed(cfg, t, Next(cfg, s, steps[0]), Tick(clock, steps[0]), steps[1..]))
  }

  function ClockAfter(clock: Time, steps: seq<Step>): Time
    decreases |steps|
  {
    if steps == [] then clock else ClockAfter(Tick(clock, steps[0]), steps[1..])
  }

  /** A configured schedule from one state and clock to another. */
  ghost predicate Run(cfg: Config, t: Timing, from: State, start: Time, steps: seq<Step>, to: State, clock: Time) {
    && Legal(cfg, from, steps) && Timed(cfg, t, from, start, steps)
    && After(cfg, from, steps) == to && ClockAfter(start, steps) == clock
  }

  predicate Fits(cfg: Config, t: Timing, s: State, clock: Time, step: Step) {
    Enabled(cfg, s, step) && OnTime(t, s, clock, step)
  }

  lemma Stay(cfg: Config, t: Timing, s: State, clock: Time)
    ensures Run(cfg, t, s, clock, [], s, clock)
  {
  }

  lemma Prepend(cfg: Config, t: Timing, from: State, start: Time, step: Step, steps: seq<Step>, to: State, clock: Time)
    requires Fits(cfg, t, from, start, step) && Run(cfg, t, Next(cfg, from, step), Tick(start, step), steps, to, clock)
    ensures Run(cfg, t, from, start, [step] + steps, to, clock)
  {
    assert ([step] + steps)[1..] == steps;
  }

  lemma {:induction false} Extend(cfg: Config, t: Timing, from: State, start: Time, steps: seq<Step>, to: State, clock: Time, step: Step)
    requires Run(cfg, t, from, start, steps, to, clock) && Fits(cfg, t, to, clock, step)
    ensures Run(cfg, t, from, start, steps + [step], Next(cfg, to, step), Tick(clock, step))
    decreases |steps|
  {
    if steps == [] {
      Stay(cfg, t, Next(cfg, to, step), Tick(clock, step));
      Prepend(cfg, t, from, start, step, [], Next(cfg, to, step), Tick(clock, step));
      assert [] + [step] == [step] + [];
    } else {
      var next, rest := Next(cfg, from, steps[0]), steps[1..];
      Extend(cfg, t, next, Tick(start, steps[0]), rest, to, clock, step);
      Prepend(cfg, t, from, start, steps[0], rest + [step], Next(cfg, to, step), Tick(clock, step));
      assert steps + [step] == [steps[0]] + (rest + [step]);
    }
  }

  // ---------------------------------------------------------------- reachable states, one kind of step at a time

  predicate NoCreates(steps: seq<Step>) {
    forall i :: 0 <= i < |steps| ==> !steps[i].DoCreate?
  }

  /** Some configured schedule that creates no job leads from the one state and clock to the other. */
  ghost predicate Leads(cfg: Config, t: Timing, from: State, start: Time, s: State, clock: Time) {
    exists steps :: Run(cfg, t, from, start, steps, s, clock) && NoCreates(steps)
  }

  lemma StaysThere(cfg: Config, t: Timing, s: State, clock: Time)
    ensures Leads(cfg, t, s, clock, s, clock)
  {
    Stay(cfg, t, s, clock);
  }

  lemma LeadsOn(cfg: Config, t: Timing, from: State, start: Time, s: State, clock: Time, step: Step)
    requires Leads(cfg, t, from, start, s, clock) && Fits(cfg, t, s, clock, step) && !step.DoCreate?
    ensures Leads(cfg, t, from, start, Next(cfg, s, step), Tick(clock, step))
  {
    var steps :| Run(cfg, t, from, start, steps, s, clock) && NoCreates(steps);
    Extend(cfg, t, from, start, steps, s, clock, step);
    assert NoCreates(steps + [step]);
  }

  /** One queued job. */
  function OneJob(): State {
    State(Create(Initial().db, 0, 0, 0, "", 0), map[], [], map[], map[])
  }

  /** What starts with one job starts with its creation. */
  lemma FromInitial(cfg: Config, t: Timing, s: State, clock: Time) returns (steps: seq<Step>)
    requires Leads(cfg, t, OneJob(), 0, s, clock)
    ensures Run(cfg, t, Initial(), 0, steps, s, clock)
  {
    var rest :| Run(cfg, t, OneJob(), 0, rest, s, clock) && NoCreates(rest);
    var create := DoCreate(0, 0, 0, "", 0);
    Prepend(cfg, t, Initial(), 0, create, rest, s, clock);
    steps := [create] + rest;
  }

  lemma Claims(cfg: Config, t: Timing, from: State, start: Time, s: State, clock: Time, x: nat, id: JobId, worker: WorkerId, at: Time)
    returns (n: State)
    requires Leads(cfg, t, from, start, s, clock) && clock <= at && x !in s.live && id in s.db.jobs && Claimable(s.db.jobs[id], at)
    requires |LiveOf(s, worker)| < cfg.concurrency
    ensures Leads(cfg, t, from, start, n, at) && n.db.jobs == s.db.jobs[id := Claimed(s.db.jobs[id], worker, t.leaseMs, at)]
    ensures n.live == s.live[x := Execution(id, s.db.jobs[id].tenant, worker, JustClaimed)] && n.recorded == s.recorded
  {
    var step := DoClaim(x, id, worker, t.leaseMs, at);
    LeadsOn(cfg, t, from, start, s, clock, step);
    n := Next(cfg, s, step);
  }

  function AsRead(j: Job): Phase {
    if j.remoteJobId.None? then ToSubmit(j) else Polling(j)
  }

  lemma Reads(cfg: Config, t: Timing, from: State, start: Time, s: State, clock: Time, x: nat) returns (n: State)
    requires Leads(cfg, t, from, start, s, clock) && x in s.live && s.live[x].phase.JustClaimed?
    requires OwnedIn(s.db, s.live[x].tenant, s.live[x].job, s.live[x].worker)
    ensures Leads(cfg, t, from, start, n, clock)
    ensures n == s.(live := s.live[x := s.live[x].(phase := AsRead(s.db.jobs[s.live[x].job]))])
  {
    LeadsOn(cfg, t, from, start, s, clock, DoRead(x));
    n := Next(cfg, s, DoRead(x));
  }

  lemma Dies(cfg: Config, t: Timing, from: State, start: Time, s: State, clock: Time, x: nat) returns (n: State)
    requires Leads(cfg, t, from, start, s, clock) && x in s.live
    ensures Leads(cfg, t, from, start, n, clock) && n == s.(live := s.live - {x})
  {
    LeadsOn(cfg, t, from, start, s, clock, DoAbandon(x));
    n := Next(cfg, s, DoAbandon(x));
  }

  lemma Recovers(cfg: Config, t: Timing, from: State, start: Time, s: State, clock: Time, id: JobId, at: Time)
    returns (n: State)
    requires Leads(cfg, t, from, start, s, clock) && clock <= at && id in s.db.jobs && Stale(s.db.jobs[id], at)
    ensures Leads(cfg, t, from, start, n, at) && n.db.jobs == s.db.jobs[id := Recovered(s.db.jobs[id], cfg.maxFailures, t.delayMs(1), at)]
    ensures n.live == s.live && n.recorded == s.recorded
  {
    var step := DoRecover(id, t.delayMs(1), at);
    LeadsOn(cfg, t, from, start, s, clock, step);
    n := Next(cfg, s, step);
  }

  lemma Sends(cfg: Config, t: Timing, from: State, start: Time, s: State, clock: Time, x: nat) returns (n: State)
    requires Leads(cfg, t, from, start, s, clock) && x in s.live && s.live[x].phase.ToSubmit?
    ensures Leads(cfg, t, from, start, n, clock) && n.db == s.db && n.recorded == s.recorded
    ensures var read := s.live[x].phase.read;
            n.live == s.live[x := s.live[x].(phase := Answered(read, cfg.remote(read.submissionKey)))]
  {
    LeadsOn(cfg, t, from, start, s, clock, DoSend(x, true));
    n := Next(cfg, s, DoSend(x, true));
  }

  lemma Records(cfg: Config, t: Timing, from: State, start: Time, s: State, clock: Time, x: nat) returns (n: State)
    requires Leads(cfg, t, from, start, s, clock) && x in s.live && s.live[x].phase.Answered?
    requires HeldIn(s.db, s.live[x].tenant, s.live[x].job, s.live[x].worker, clock)
    ensures Leads(cfg, t, from, start, n, clock)
    ensures var e := s.live[x];
            && n.db.jobs == s.db.jobs[e.job := SubmittedAs(s.db.jobs[e.job], e.phase.remoteJobId, 0, clock + t.pollMs, clock)]
            && n.live.Keys == s.live.Keys && (forall y :: y in s.live && y != x ==> n.live[y] == s.live[y])
            && n.live[x] == e.(phase := n.live[x].phase) && n.live[x].phase.Flushing? && n.live[x].phase.rescue.Some?
            && n.recorded == s.recorded[e.job := Count(s.recorded, e.job) + 1]
  {
    hide Legal, Timed, After, Leads;
    var step := DoRecordSubmission(x, 0, clock + t.pollMs, clock);
    LeadsOn(cfg, t, from, start, s, clock, step);
    n := Next(cfg, s, step);
  }

  lemma Retries(cfg: Config, t: Timing, from: State, start: Time, s: State, clock: Time, x: nat) returns (n: State)
    requires Leads(cfg, t, from, start, s, clock) && x in s.live && ReadOf(s.live[x].phase).Some?
    requires ReadOf(s.live[x].phase).value.failureCount + 1 < cfg.maxFailures
    requires HeldIn(s.db, s.live[x].tenant, s.live[x].job, s.live[x].worker, clock)
    ensures Leads(cfg, t, from, start, n, clock)
    ensures var e := s.live[x];
            e.job in n.db.jobs && n.db.jobs[e.job].status.Retrying? && n.db.jobs[e.job].failureCount == s.db.jobs[e.job].failureCount + 1
  {
    var step := DoFailure(x, true, Reported(0), t.delayMs(ReadOf(s.live[x].phase).value.failureCount + 1), clock);
    LeadsOn(cfg, t, from, start, s, clock, step);
    n := Next(cfg, s, step);
  }

  lemma FlushFails(cfg: Config, t: Timing, from: State, start: Time, s: State, clock: Time, x: nat) returns (n: State)
    requires Leads(cfg, t, from, start, s, clock) && x in s.live && s.live[x].phase.Flushing? && s.live[x].phase.rescue.Some?
    ensures Leads(cfg, t, from, start, n, clock)
    ensures n == s.(live := s.live[x := s.live[x].(phase := Rescuing(s.live[x].phase.rescue.value))])
  {
    LeadsOn(cfg, t, from, start, s, clock, DoFlushFails(x));
    n := Next(cfg, s, DoFlushFails(x));
  }
}
