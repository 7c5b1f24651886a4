/** Waiting for a remote job: polls until it ends or the wait is over. */
module WaitLoop {
  import opened Basics

  /** What a poll answers; Refused stands for the request itself throwing. */
  datatype RemoteState = StillRunning | Succeeded | Failed | Cancelled | Refused

  /** Per poll: whether the caller has cancelled before it, the answer, how long it takes, and how much longer than asked the
      sleep after it is. Time does not run back. */
  datatype Remote = Remote(aborted: nat -> bool, state: nat -> RemoteState, took: nat -> nat, overslept: nat -> nat)

  datatype WaitResult = Done(state: RemoteState) | TimedOut(elapsedMs: int) | CancelledByCaller

  datatype Wait = Wait(startedAt: Time, pollIntervalMs: int, maxWaitMs: int) {
    function Deadline(): Time {
      startedAt + maxWaitMs
    }
  }

  /** The poll after the one at `polledAt`: one interval after its answer, or at the deadline if that is sooner. */
  function NextPoll(r: Remote, wait: Wait, polledAt: Time, n: nat): Time {
    polledAt + r.took(n) + Min(wait.pollIntervalMs, wait.Deadline() - (polledAt + r.took(n))) + r.overslept(n)
  }

  /** All polls but the last found the job running before the deadline, and each falls due after the one before. */
  predicate Polled(r: Remote, wait: Wait, polls: seq<Time>) {
    && (polls != [] ==> polls[0] == wait.startedAt)
    && forall i :: 0 <= i < |polls| - 1 ==> GoesOn(r, wait, polls[i], i) && polls[i + 1] == NextPoll(r, wait, polls[i], i)
  }

  predicate GoesOn(r: Remote, wait: Wait, polledAt: Time, n: nat) {
    !r.aborted(n) && r.state(n).StillRunning? && polledAt + r.took(n) < wait.Deadline()
  }

  lemma PolledMore(r: Remote, wait: Wait, polls: seq<Time>, at: Time)
    requires Polled(r, wait, polls)
    requires if polls == [] then at == wait.startedAt
             else GoesOn(r, wait, polls[|polls| - 1], |polls| - 1) && at == NextPoll(r, wait, polls[|polls| - 1], |polls| - 1)
    ensures Polled(r, wait, polls + [at])
  {
    var more := polls + [at];
    forall i | 0 <= i < |more| - 1 ensures GoesOn(r, wait, more[i], i) && more[i + 1] == NextPoll(r, wait, more[i], i) {
      assert more[i] == polls[i];
      if i < |polls| - 1 {
        assert more[i + 1] == polls[i + 1];
      }
    }
  }

  method WaitForJob(r: Remote, wait: Wait) returns (result: WaitResult, polls: seq<Time>, finishedAt: Time)
    requires wait.pollIntervalMs > 0
    ensures Polled(r, wait, polls)
    ensures result.CancelledByCaller? ==>
              && r.aborted(|polls|)
              && (polls != [] ==>
                    GoesOn(r, wait, polls[|polls| - 1], |polls| - 1)
                    && finishedAt == NextPoll(r, wait, polls[|polls| - 1], |polls| - 1))
    ensures !result.CancelledByCaller? ==>
              && polls != [] && !r.aborted(|polls| - 1) && finishedAt == polls[|polls| - 1] + r.took(|polls| - 1)
              && (result.Done? <==> !r.state(|polls| - 1).StillRunning?)
              && (result.Done? ==> result.state == r.state(|polls| - 1))
              && (result.TimedOut? ==> result.elapsedMs == finishedAt - wait.startedAt >= wait.maxWaitMs)
  {
    var now := wait.startedAt;
    polls := [];
    while true
      invariant Polled(r, wait, polls)
      invariant if polls == [] then now == wait.startedAt
                else GoesOn(r, wait, polls[|polls| - 1], |polls| - 1) && now == NextPoll(r, wait, polls[|polls| - 1], |polls| - 1)
      decreases Max(wait.Deadline(), wait.startedAt) + 1 - now
    {
      var n := |polls|;
      if r.aborted(n) {
        return CancelledByCaller, polls, now;
      }
      PolledMore(r, wait, polls, now);
      polls := polls + [now];
      now := now + r.took(n);
      if !r.state(n).StillRunning? {
        return Done(r.state(n)), polls, now;
      }
      var elapsedMs := now - wait.startedAt;
      var remainingMs := wait.maxWaitMs - elapsedMs;
      if remainingMs <= 0 {
        return TimedOut(elapsedMs), polls, now;
      }
      var delayMs := Min(wait.pollIntervalMs, remainingMs);
      now := now + delayMs + r.overslept(n);
    }
  }

  /** With exact sleeps every poll starts by the deadline, and there are at most as many as intervals fit, plus two. */
  lemma {:induction false} PollsFit(r: Remote, wait: Wait, polls: seq<Time>, i: nat)
    requires wait.pollIntervalMs > 0 && wait.maxWaitMs >= 0 && Polled(r, wait, polls) && i < |polls|
    requires forall n :: r.overslept(n) == 0
    ensures polls[i] <= wait.Deadline()
    ensures i == |polls| - 1 || polls[i] >= wait.startedAt + i * wait.pollIntervalMs
    decreases i
  {
    if i > 0 {
      PollsFit(r, wait, polls, i - 1);
      assert polls[i] == NextPoll(r, wait, polls[i - 1], i - 1) && GoesOn(r, wait, polls[i - 1], i - 1);
      if i < |polls| - 1 {
        assert GoesOn(r, wait, polls[i], i);
        assert (i - 1) * wait.pollIntervalMs + wait.pollIntervalMs == i * wait.pollIntervalMs;
      }
    }
  }

  lemma PollCount(r: Remote, wait: Wait, polls: seq<Time>)
    requires wait.pollIntervalMs > 0 && wait.maxWaitMs >= 0 && Polled(r, wait, polls)
    requires forall n :: r.overslept(n) == 0
    ensures |polls| >= 2 ==> (|polls| - 2) * wait.pollIntervalMs <= wait.maxWaitMs
  {
    if |polls| >= 2 {
      PollsFit(r, wait, polls, |polls| - 2);
    }
  }
}
