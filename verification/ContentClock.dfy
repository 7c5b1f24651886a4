/**
 Schedules as configured workers produce them: one clock that does not run back, one lease duration, and every next attempt
 put off by the delay of the retry policy.
 */
module ContentClock {
  import opened Basics
  import opened ContentJobs
  import opened ContentProtocol

  /** The delay is a function of the attempt that is to come. */
  datatype Timing = Timing(leaseMs: int, delayMs: nat -> nat)

  function Tick(clock: Time, step: Step): Time {
    if step.DoAbandon? then clock else step.now
  }

  predicate OnTime(t: Timing, s: State, clock: Time, step: Step) {
    && clock <= Tick(clock, step)
    && match step
       case DoClaim(_, _, _, leaseMs, _) => leaseMs == t.leaseMs
       case DoRenew(_, leaseMs, _) => leaseMs == t.leaseMs
       case DoRetryOrFail(x, _, at, now) => x in s.live ==> at == now + t.delayMs(s.live[x].claim.attemptCount + 1)
       case DoRecover(_, id, at, now) => id in s.db.jobs ==> at == now + t.delayMs(s.db.jobs[id].attemptCount + 1)
       case _ => true
  }

  predicate Timed(cfg: Config, t: Timing, s: State, clock: Time, steps: seq<Step>)
    requires Legal(cfg, s, steps)
    decreases |steps|
  {
    steps == []
    || (OnTime(t, s, clock, steps[0]) && Timed(cfg, t, Next(cfg, s, steps[0]), Tick(clock, steps[0]), steps[1..]))
  }

  function ClockAfter(clock: Time, steps: seq<Step>): Time
    decreases |steps|
  {
    if steps == [] then clock else ClockAfter(Tick(clock, steps[0]), steps[1..])
  }
}
