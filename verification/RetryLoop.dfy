/** The HTTP retry loop against an arbitrary server, clock and random source. */
module RetryLoop {
  import opened Basics
  import opened RetryPolicy

  datatype OperationType = Submission | Read

  datatype RetryContext = RetryContext(operationType: OperationType, hasIdempotencyKey: bool)

  /** How one request ends. Permanent stands for the errors that are never retried: conflicts, protocol, authentication, cancellation. */
  datatype Outcome = Success | Remote(status: int, retryAfter: RetryAfter) | TimedOut | Transport | Permanent

  predicate ShouldRetryOperation(context: RetryContext) {
    context.operationType.Read? || context.hasIdempotencyKey
  }

  predicate IsRetryableStatus(status: int) {
    status == 408 || status == 429 || status == 502 || status == 503 || status == 504
  }

  predicate Retryable(outcome: Outcome, context: RetryContext) {
    match outcome
    case Success => false
    case Remote(status, _) =>
      !(status == 409 || status == 400 || status == 401 || status == 403 || status == 404 || status == 422) &&
      IsRetryableStatus(status) && ShouldRetryOperation(context)
    case TimedOut => ShouldRetryOperation(context)
    case Transport => ShouldRetryOperation(context)
    case Permanent => false
  }

  /** The answers after which another request can help. */
  predicate Transient(outcome: Outcome) {
    outcome == TimedOut || outcome == Transport || (outcome.Remote? && outcome.status in {408, 429, 502, 503, 504})
  }

  /** Asking twice does no harm: a read, or a submission whose key makes it one. */
  predicate SafeToRepeat(context: RetryContext) {
    context.operationType == Read || context.hasIdempotencyKey
  }

  lemma RetryableIff(outcome: Outcome, context: RetryContext)
    ensures Retryable(outcome, context) <==> Transient(outcome) && SafeToRepeat(context)
  {
  }

  function RetryAfterOf(outcome: Outcome): RetryAfter {
    if outcome.Remote? then outcome.retryAfter else Absent
  }

  /**
   * What the loop meets, per attempt: the answer and how long it takes given its timeout, and what the clock does between
   * its readings: before an attempt, before the budget is checked again, while a header is read, and beyond the sleep asked for.
   */
  datatype World = World(
    outcome: nat -> Outcome, took: (nat, int) -> int, idle: nat -> int, handling: nat -> int, reading: nat -> int,
    overslept: nat -> int, random: nat -> real)

  /** One request: its start, its timeout, its answer, when the loop looked at the budget again and read the header, and the sleep. */
  datatype Attempt = Attempt(startedAt: Time, timeoutMs: int, outcome: Outcome, checkedAt: Time, readAt: Time, delayMs: int)

  datatype Result = Returned | Thrown(outcome: Outcome) | Exhausted(attempts: int) | BudgetSpent(attempts: int) | FellThrough

  /** The call: who asks, under which policy, since when and for how long at most. */
  datatype Call = Call(context: RetryContext, config: RetryPolicyConfig, startedAt: Time, totalTimeoutMs: int) {
    function Deadline(): Time {
      startedAt + totalTimeoutMs
    }
  }

  /** Requests take no longer than their timeout, sleeps are exact and nothing else takes time. */
  ghost predicate Honest(w: World) {
    && (forall n, t :: t > 0 ==> 0 <= w.took(n, t) <= t)
    && (forall n :: w.idle(n) == 0)
    && (forall n :: w.handling(n) == 0)
    && (forall n :: w.reading(n) == 0)
    && (forall n :: w.overslept(n) == 0)
  }

  /** A request starts before the deadline and may take what is left until then. */
  predicate InBudget(a: Attempt, call: Call) {
    a.startedAt < call.Deadline() && a.timeoutMs == call.Deadline() - a.startedAt
  }

  /** After a transient failure with budget left the loop sleeps the resolved delay, and then asks again. */
  predicate Retried(w: World, call: Call, a: Attempt, attempt: nat) {
    && Transient(a.outcome) && SafeToRepeat(call.context)
    && a.checkedAt < call.Deadline()
    && a.delayMs ==
       ResolveRetryDelayMs(attempt, ParseRetryAfterMs(RetryAfterOf(a.outcome), a.readAt), call.config, w.random(attempt),
                           call.Deadline() - a.checkedAt)
  }

  function Asleep(w: World, a: Attempt, attempt: nat): int {
    if a.delayMs > 0 then a.delayMs + w.overslept(attempt) else 0
  }

  predicate Logged(w: World, call: Call, log: seq<Attempt>) {
    && (forall i :: 0 <= i < |log| ==> InBudget(log[i], call) && log[i].outcome == w.outcome(i + 1))
    && (log != [] ==> log[0].startedAt == call.startedAt + w.idle(1))
    && (forall i :: 0 <= i < |log| - 1 ==>
          && Retried(w, call, log[i], i + 1)
          && log[i + 1].startedAt == log[i].readAt + Asleep(w, log[i], i + 1) + w.idle(i + 2))
  }

  /** How the loop may end, given the requests it made and when: with an answer, with a failure that is not to be repeated,
      or, after a transient failure, for want of attempts or of time. */
  predicate EndsAs(result: Result, log: seq<Attempt>, call: Call, finishedAt: Time) {
    match result
    case Returned => log != [] && log[|log| - 1].outcome.Success?
    case Thrown(o) =>
      log != [] && log[|log| - 1].outcome == o && !o.Success? && !(Transient(o) && SafeToRepeat(call.context))
    case Exhausted(n) => n == |log| == call.config.maxAttempts && n > 0 && Transient(log[n - 1].outcome) && SafeToRepeat(call.context)
    case BudgetSpent(n) =>
      && n == |log| < call.config.maxAttempts && (n > 0 ==> Transient(log[n - 1].outcome) && SafeToRepeat(call.context))
      && finishedAt >= call.startedAt + call.totalTimeoutMs
    case FellThrough => log == []
  }

  /** The clock when the next attempt begins to be considered. */
  function Resumes(w: World, call: Call, log: seq<Attempt>): Time {
    if log == [] then call.startedAt else log[|log| - 1].readAt + Asleep(w, log[|log| - 1], |log|)
  }

  /** The loop goes on: all requests so far were answered by retryable failures, and there are attempts left. */
  predicate GoesOn(w: World, call: Call, log: seq<Attempt>) {
    && Logged(w, call, log)
    && (log != [] ==>
          Retried(w, call, log[|log| - 1], |log|) && |log| < call.config.maxAttempts && SafeToRepeat(call.context))
  }

  lemma LoggedMore(w: World, call: Call, log: seq<Attempt>, a: Attempt)
    requires GoesOn(w, call, log) && InBudget(a, call)
    requires a.outcome == w.outcome(|log| + 1) && a.startedAt == Resumes(w, call, log) + w.idle(|log| + 1)
    ensures Logged(w, call, log + [a])
  {
    var longer := log + [a];
    forall i | 0 <= i < |longer| - 1
      ensures Retried(w, call, longer[i], i + 1)
      ensures longer[i + 1].startedAt == longer[i].readAt + Asleep(w, longer[i], i + 1) + w.idle(i + 2)
    {
      assert longer[i] == log[i];
      if i < |log| - 1 {
        assert longer[i + 1] == log[i + 1];
      }
    }
  }

  /** The loop goes on after one more retryable failure. */
  lemma GoesOnMore(w: World, call: Call, log: seq<Attempt>, a: Attempt)
    requires GoesOn(w, call, log) && InBudget(a, call)
    requires a.outcome == w.outcome(|log| + 1) && a.startedAt == Resumes(w, call, log) + w.idle(|log| + 1)
    requires Retried(w, call, a, |log| + 1) && |log| + 1 < call.config.maxAttempts
    ensures GoesOn(w, call, log + [a]) && Resumes(w, call, log + [a]) == a.readAt + Asleep(w, a, |log| + 1)
  {
    LoggedMore(w, call, log, a);
    assert (log + [a])[|log|] == a;
  }

  lemma Begins(w: World, call: Call)
    ensures GoesOn(w, call, []) && Resumes(w, call, []) == call.startedAt
  {
  }

  /** What the loop has found out before an attempt. */
  lemma SoFar(w: World, call: Call, log: seq<Attempt>)
    requires GoesOn(w, call, log)
    ensures Logged(w, call, log)
    ensures log != [] ==> |log| < call.config.maxAttempts && Transient(log[|log| - 1].outcome) && SafeToRepeat(call.context)
  {
  }

  lemma AskedAgain(w: World, call: Call, log: seq<Attempt>)
    requires Logged(w, call, log)
    ensures forall i :: 0 <= i < |log| - 1 ==> Transient(log[i].outcome)
    ensures |log| > 1 ==> SafeToRepeat(call.context)
  {
    forall i | 0 <= i < |log| - 1 ensures Transient(log[i].outcome) && SafeToRepeat(call.context) {
      assert Retried(w, call, log[i], i + 1);
    }
  }

  lemma NextDelay(w: World, call: Call, a: Attempt, attempt: nat)
    requires Transient(a.outcome) && SafeToRepeat(call.context) && a.checkedAt < call.Deadline()
    requires a.delayMs == ResolveRetryDelayMs(attempt, ParseRetryAfterMs(RetryAfterOf(a.outcome), a.readAt), call.config,
                                              w.random(attempt), call.Deadline() - a.checkedAt)
    ensures Retried(w, call, a, attempt) && 0 <= a.delayMs <= Max(0, call.Deadline() - a.checkedAt)
  {
  }

  method RequestWithRetry(w: World, call: Call) returns (result: Result, log: seq<Attempt>, finishedAt: Time)
    ensures |log| <= Max(0, call.config.maxAttempts)
    ensures Logged(w, call, log)
    ensures EndsAs(result, log, call, finishedAt)
    ensures result.FellThrough? <==> call.config.maxAttempts <= 0
    ensures call.context.operationType.Submission? && !call.context.hasIdempotencyKey ==> |log| <= 1
    ensures forall i :: 0 <= i < |log| - 1 ==>
      log[i].outcome in {TimedOut, Transport} || (log[i].outcome.Remote? && log[i].outcome.status in {408, 429, 502, 503, 504})
    ensures log != [] && Transient(log[|log| - 1].outcome) && SafeToRepeat(call.context) ==>
      |log| == call.config.maxAttempts || finishedAt >= call.startedAt + call.totalTimeoutMs
    ensures Honest(w) ==> call.startedAt <= finishedAt <= call.startedAt + Max(0, call.totalTimeoutMs)
  {
    hide GoesOn, Logged, Retried, Resumes, ResolveRetryDelayMs, ParseRetryAfterMs, Retryable;
    var now, maxAttempts := call.startedAt, call.config.maxAttempts;
    log := [];
    var attempt: nat := 1;
    Begins(w, call);
    while attempt <= maxAttempts
      invariant attempt == |log| + 1 && GoesOn(w, call, log) && now == Resumes(w, call, log)
      invariant Honest(w) ==> call.startedAt <= now <= call.startedAt + Max(0, call.totalTimeoutMs)
    {
      SoFar(w, call, log);
      AskedAgain(w, call, log);
      now := now + w.idle(attempt);
      var elapsedMs := now - call.startedAt;
      var remainingBudgetMs := call.totalTimeoutMs - elapsedMs;
      if remainingBudgetMs <= 0 {
        return BudgetSpent(attempt - 1), log, now;
      }
      var requestedAt := now;
      now := now + w.took(attempt, remainingBudgetMs);
      var outcome := w.outcome(attempt);
      var record := Attempt(requestedAt, remainingBudgetMs, outcome, now, now, 0);
      LoggedMore(w, call, log, record);
      RetryableIff(outcome, call.context);
      AskedAgain(w, call, log + [record]);
      if outcome.Success? {
        return Returned, log + [record], now;
      }
      if !Retryable(outcome, call.context) {
        return Thrown(outcome), log + [record], now;
      }
      if attempt >= maxAttempts {
        return Exhausted(attempt), log + [record], now;
      }
      now := now + w.handling(attempt);
      var elapsedAfterErrorMs := now - call.startedAt;
      var remainingAfterErrorMs := call.totalTimeoutMs - elapsedAfterErrorMs;
      if remainingAfterErrorMs <= 0 {
        return BudgetSpent(attempt), log + [record], now;
      }
      var checkedAt := now;
      now := now + w.reading(attempt);
      var retryAfterMs := ParseRetryAfterMs(RetryAfterOf(outcome), now);
      var delayMs := ResolveRetryDelayMs(attempt, retryAfterMs, call.config, w.random(attempt), remainingAfterErrorMs);
      record := record.(checkedAt := checkedAt, readAt := now, delayMs := delayMs);
      NextDelay(w, call, record, attempt);
      GoesOnMore(w, call, log, record);
      log := log + [record];
      if delayMs > 0 {
        now := now + delayMs + w.overslept(attempt);
      }
      attempt := attempt + 1;
    }
    SoFar(w, call, log);
    AskedAgain(w, call, log);
    result, finishedAt := FellThrough, now;
  }

  /** What a server's header asks for at the instant it is read: a number of seconds, in whole milliseconds, or the time left
      until a date, which is nothing once it has passed. */
  predicate AsksFor(header: RetryAfter, readAt: Time, afterMs: int) {
    match header
    case Seconds(s) => s >= 0.0 && afterMs == (s * 1000.0).Floor
    case Date(at) => afterMs == if at > readAt then at - readAt else 0
    case Absent => false
    case Unreadable => false
  }

  lemma ParsedIs(header: RetryAfter, readAt: Time)
    ensures var parsed := ParseRetryAfterMs(header, readAt);
      forall afterMs: int :: parsed == Some(afterMs) <==> AsksFor(header, readAt, afterMs)
  {
  }

  /** What a logged request waited before the next one: what its answer asked for, or else the delay of the policy, but never
      more than the cap and the budget left. */
  lemma WaitAfter(w: World, call: Call, log: seq<Attempt>, i: nat, afterMs: int)
    requires Logged(w, call, log) && i + 1 < |log|
    requires log[i].outcome.Remote? && AsksFor(log[i].outcome.retryAfter, log[i].readAt, afterMs)
    ensures afterMs >= 0 && log[i].checkedAt < call.Deadline()
    ensures log[i].delayMs == Max(0, Min(afterMs, Min(call.config.maxDelayMs, call.Deadline() - log[i].checkedAt)))
    ensures log[i + 1].startedAt == log[i].readAt + Asleep(w, log[i], i + 1) + w.idle(i + 2)
  {
    assert Retried(w, call, log[i], i + 1);
    ParsedIs(log[i].outcome.retryAfter, log[i].readAt);
  }

  /** A Retry-After is waited out before the next request if it fits under the cap and in the budget; and with exact sleeps
      only then, since otherwise the next request comes before it is due. */
  lemma RetryAfterHonoured(w: World, call: Call, log: seq<Attempt>, i: nat, afterMs: int)
    requires Logged(w, call, log) && i + 1 < |log| && w.overslept(i + 1) >= 0 && w.idle(i + 2) >= 0
    requires log[i].outcome.Remote? && AsksFor(log[i].outcome.retryAfter, log[i].readAt, afterMs)
    ensures afterMs <= Max(0, Min(call.config.maxDelayMs, call.Deadline() - log[i].checkedAt)) ==>
              log[i + 1].startedAt >= log[i].readAt + afterMs
    ensures w.overslept(i + 1) == w.idle(i + 2) == 0 ==>
              (log[i + 1].startedAt >= log[i].readAt + afterMs <==>
               afterMs <= Max(0, Min(call.config.maxDelayMs, call.Deadline() - log[i].checkedAt)))
  {
    WaitAfter(w, call, log, i, afterMs);
  }
}
