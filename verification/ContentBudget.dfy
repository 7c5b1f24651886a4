/** How often a content job can be attempted, and for which configurations the configured maximum really is one. */
module ContentBudget {
  import opened Basics
  import opened ContentJobs
  import opened ContentProtocol

  /** No worker claims a job while an execution of that same job is still running under its id. */
  predicate Unshared(s: State, step: Step) {
    step.DoClaim? ==> forall x :: x in s.live && s.live[x].worker == step.worker ==> s.live[x].job != step.id
  }

  predicate AllUnshared(cfg: Config, s: State, steps: seq<Step>)
    requires Legal(cfg, s, steps)
    decreases |steps|
  {
    steps == [] || (Unshared(s, steps[0]) && AllUnshared(cfg, Next(cfg, s, steps[0]), steps[1..]))
  }

  /** The attempt limit: reached at most, and never by a job that could be attempted again or was cancelled instead. */
  predicate Within(cfg: Config, s: State) {
    forall id :: id in s.db.jobs ==> RowWithin(cfg, s.db.jobs[id])
  }

  predicate RowWithin(cfg: Config, j: Job) {
    && j.attemptCount <= cfg.maxAttempts
    && (j.status in {Queued, Retrying, Cancelled} ==> j.attemptCount < cfg.maxAttempts)
  }

  /** An execution whose worker still owns the row still has the row's attempt count in its hands. */
  predicate SnapshotsCurrent(s: State) {
    forall x :: x in s.live ==>
      var e := s.live[x];
      && e.job in s.db.jobs
      && (s.db.jobs[e.job].leaseOwner == Some(e.worker) ==> s.db.jobs[e.job].attemptCount == e.claim.attemptCount)
  }

  predicate NoTwins(s: State) {
    forall x, y :: x in s.live && y in s.live && s.live[x].job == s.live[y].job && s.live[x].worker == s.live[y].worker
      ==> x == y
  }

  ghost predicate Disciplined(cfg: Config, s: State) {
    Sound(s) && Within(cfg, s) && SnapshotsCurrent(s) && NoTwins(s)
  }

  lemma StepKeepsRowWithin(cfg: Config, s: State, step: Step, id: JobId)
    requires Disciplined(cfg, s) && Enabled(cfg, s, step) && id in s.db.jobs
    ensures id in Next(cfg, s, step).db.jobs && RowWithin(cfg, Next(cfg, s, step).db.jobs[id])
  {
    hide Write, Replays, LiveOf, Claimable;
    StepMovesRows(cfg, s, step, id);
    RowIs(cfg, s, step, id);
    assert RowWithin(cfg, s.db.jobs[id]);
  }

  lemma NewRowWithin(cfg: Config, s: State, step: Step, id: JobId)
    requires Enabled(cfg, s, step) && cfg.maxAttempts >= 1 && id !in s.db.jobs && id in Write(cfg, s, step).jobs
    ensures RowWithin(cfg, Write(cfg, s, step).jobs[id])
  {
    hide LiveOf, Claimable;
  }

  lemma StepKeepsWithin(cfg: Config, s: State, step: Step)
    requires Disciplined(cfg, s) && Enabled(cfg, s, step) && cfg.maxAttempts >= 1
    ensures Within(cfg, Next(cfg, s, step))
  {
    hide Disciplined, RowWithin;
    forall id | id in Next(cfg, s, step).db.jobs ensures RowWithin(cfg, Next(cfg, s, step).db.jobs[id]) {
      if id in s.db.jobs {
        StepKeepsRowWithin(cfg, s, step, id);
      } else {
        NewRowWithin(cfg, s, step, id);
      }
    }
  }

  lemma SnapshotStaysCurrent(cfg: Config, s: State, step: Step, x: nat)
    requires Disciplined(cfg, s) && Enabled(cfg, s, step) && Unshared(s, step) && x in s.live
    ensures var e, jobs := s.live[x], Write(cfg, s, step).jobs;
      e.job in jobs && (jobs[e.job].leaseOwner == Some(e.worker) ==> jobs[e.job].attemptCount == e.claim.attemptCount)
  {
    hide Replays, LiveOf;
    var e := s.live[x];
    StepMovesRows(cfg, s, step, e.job);
    var j, k := s.db.jobs[e.job], Write(cfg, s, step).jobs[e.job];
    if k.leaseOwner == Some(e.worker) && j.leaseOwner != k.leaseOwner {
      assert false;
    }
  }

  lemma StepKeepsSnapshots(cfg: Config, s: State, step: Step)
    requires Disciplined(cfg, s) && Enabled(cfg, s, step) && Unshared(s, step)
    ensures SnapshotsCurrent(Next(cfg, s, step)) && NoTwins(Next(cfg, s, step))
  {
    hide Sound, Within, LiveOf, Claimable;
    forall x | x in s.live
      ensures var e, jobs := s.live[x], Write(cfg, s, step).jobs;
        e.job in jobs && (jobs[e.job].leaseOwner == Some(e.worker) ==> jobs[e.job].attemptCount == e.claim.attemptCount)
    {
      SnapshotStaysCurrent(cfg, s, step, x);
    }
  }

  /** The attempt limit holds on every schedule without shared claims. */
  lemma {:induction false} UnsharedRunsStayWithin(cfg: Config, s: State, steps: seq<Step>)
    requires Disciplined(cfg, s) && cfg.maxAttempts >= 1
    requires Legal(cfg, s, steps) && AllUnshared(cfg, s, steps)
    ensures Disciplined(cfg, After(cfg, s, steps))
    decreases |steps|
  {
    if steps != [] {
      StepKeepsSound(cfg, s, steps[0]);
      StepKeepsWithin(cfg, s, steps[0]);
      StepKeepsSnapshots(cfg, s, steps[0]);
      UnsharedRunsStayWithin(cfg, Next(cfg, s, steps[0]), steps[1..]);
    }
  }

  /** A worker loop with concurrency one waits for its execution before claiming again. */
  lemma {:induction false} SerialWorkersNeverShare(cfg: Config, s: State, steps: seq<Step>)
    requires cfg.concurrency <= 1 && Legal(cfg, s, steps)
    ensures AllUnshared(cfg, s, steps)
    decreases |steps|
  {
    if steps != [] {
      if steps[0].DoClaim? {
        assert LiveOf(s, steps[0].worker) == {};
        assert forall x :: x in s.live && s.live[x].worker == steps[0].worker ==> x in LiveOf(s, steps[0].worker);
      }
      SerialWorkersNeverShare(cfg, Next(cfg, s, steps[0]), steps[1..]);
    }
  }

  /** With a limit of one no job is ever retried, shared claims or not. */
  predicate SingleShot(s: State) {
    && (forall id :: id in s.db.jobs ==> RowSingleShot(s.db.jobs[id]))
    && (forall x :: x in s.live ==> s.live[x].claim.attemptCount >= 1)
  }

  predicate RowSingleShot(j: Job) {
    j.attemptCount <= 1 && !j.status.Retrying? && (j.status.Cancelled? ==> j.attemptCount == 0)
  }

  lemma StepKeepsRowSingleShot(cfg: Config, s: State, step: Step, id: JobId)
    requires cfg.maxAttempts == 1 && Sound(s) && SingleShot(s) && Enabled(cfg, s, step) && id in s.db.jobs
    ensures id in Write(cfg, s, step).jobs && RowSingleShot(Write(cfg, s, step).jobs[id])
  {
    hide Write, Replays, LiveOf;
    StepMovesRows(cfg, s, step, id);
    RowIs(cfg, s, step, id);
    assert Shaped(s.db.jobs[id]) && RowSingleShot(s.db.jobs[id]);
  }

  lemma NewRowSingleShot(cfg: Config, s: State, step: Step, id: JobId)
    requires Enabled(cfg, s, step) && id !in s.db.jobs && id in Write(cfg, s, step).jobs
    ensures RowSingleShot(Write(cfg, s, step).jobs[id])
  {
    hide LiveOf, Claimable;
  }

  lemma StepKeepsSingleShot(cfg: Config, s: State, step: Step)
    requires cfg.maxAttempts == 1 && Sound(s) && SingleShot(s) && Enabled(cfg, s, step)
    ensures SingleShot(Next(cfg, s, step))
  {
    hide Write, Replays, RowSingleShot, LiveOf;
    var n := Next(cfg, s, step);
    forall id | id in n.db.jobs ensures RowSingleShot(n.db.jobs[id]) {
      if id in s.db.jobs {
        StepKeepsRowSingleShot(cfg, s, step, id);
      } else {
        NewRowSingleShot(cfg, s, step, id);
      }
    }
    forall x | x in n.live ensures n.live[x].claim.attemptCount >= 1 {
      if x !in s.live {
        ClaimCounts(cfg, s, step);
      }
    }
  }

  lemma ClaimCounts(cfg: Config, s: State, step: Step)
    requires Enabled(cfg, s, step) && step.DoClaim?
    ensures step.id in Write(cfg, s, step).jobs && Write(cfg, s, step).jobs[step.id].attemptCount >= 1
  {
    hide LiveOf, Claimable;
  }

  lemma {:induction false} SingleShotRuns(cfg: Config, s: State, steps: seq<Step>)
    requires cfg.maxAttempts == 1 && Sound(s) && SingleShot(s) && Legal(cfg, s, steps)
    ensures Sound(After(cfg, s, steps)) && SingleShot(After(cfg, s, steps))
    decreases |steps|
  {
    if steps != [] {
      StepKeepsSound(cfg, s, steps[0]);
      StepKeepsSingleShot(cfg, s, steps[0]);
      SingleShotRuns(cfg, Next(cfg, s, steps[0]), steps[1..]);
    }
  }

  /** The log of a job within its limit: two changes per attempt, the last one still missing while it is processing. */
  lemma ChangesWithin(cfg: Config, s: State, id: JobId)
    requires cfg.maxAttempts >= 1 && Sound(s) && Within(cfg, s)
    ensures Changes(s.db.events, id) <= 2 * cfg.maxAttempts
    ensures id in s.db.jobs && !Terminal(s.db.jobs[id].status) ==> Changes(s.db.events, id) < 2 * cfg.maxAttempts
  {
    assert Replays(s.db);
    if id in s.db.jobs {
      assert Shaped(s.db.jobs[id]) && RowWithin(cfg, s.db.jobs[id]);
    } else {
      assert LastStatus(s.db.events, id) == None;
    }
  }

  /** Termination: on every schedule without shared claims a job changes status at most 2 * maxAttempts times after its
      creation, and strictly fewer times while it is not over. */
  lemma StatusChangesBounded(cfg: Config, steps: seq<Step>, id: JobId)
    requires cfg.maxAttempts >= 1 && Legal(cfg, Initial(), steps) && AllUnshared(cfg, Initial(), steps)
    ensures var s := After(cfg, Initial(), steps);
            && Changes(s.db.events, id) <= 2 * cfg.maxAttempts
            && (id in s.db.jobs && !Terminal(s.db.jobs[id].status) ==> Changes(s.db.events, id) < 2 * cfg.maxAttempts)
  {
    UnsharedRunsStayWithin(cfg, Initial(), steps);
    ChangesWithin(cfg, After(cfg, Initial(), steps), id);
  }
}
