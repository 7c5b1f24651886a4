/** Claims take an oldest eligible row first, so no queued job is passed over for long. */
module ContentScheduler {
  import opened Basics
  import opened ContentJobs
  import opened ContentProtocol
  import opened ContentBudget

  /** The order by created_at of the claim query, with no row locked by another transaction. */
  predicate OldestFirst(s: State, step: Step) {
    step.DoClaim? && step.id in s.db.jobs ==>
      forall k :: k in s.db.jobs && Claimable(s.db.jobs[k], step.now) ==> s.db.jobs[step.id].createdAt <= s.db.jobs[k].createdAt
  }

  predicate AllOldestFirst(cfg: Config, s: State, steps: seq<Step>)
    requires Legal(cfg, s, steps)
    decreases |steps|
  {
    steps == [] || (OldestFirst(s, steps[0]) && AllOldestFirst(cfg, Next(cfg, s, steps[0]), steps[1..]))
  }

  function Claims(steps: seq<Step>): nat {
    if steps == [] then 0 else (if steps[0].DoClaim? then 1 else 0) + Claims(steps[1..])
  }

  predicate Ahead(db: Db, id: JobId, k: JobId)
    requires id in db.jobs
  {
    k in db.jobs && k != id && db.jobs[k].createdAt <= db.jobs[id].createdAt
  }

  /** The other jobs created no later than this one. */
  function AheadOf(db: Db, id: JobId): set<JobId>
    requires id in db.jobs
  {
    set k | k in db.jobs && Ahead(db, id, k)
  }

  function AheadBelow(db: Db, id: JobId, n: nat): set<JobId>
    requires id in db.jobs
  {
    set k | k in db.jobs && k < n && Ahead(db, id, k)
  }

  /** Attempts made so far by the jobs ahead whose id is below n. */
  function Work(db: Db, id: JobId, n: nat): nat
    requires id in db.jobs
  {
    if n == 0 then 0
    else Work(db, id, n - 1) + (if Ahead(db, id, n - 1) then db.jobs[n - 1].attemptCount else 0)
  }

  lemma OneMore(count: nat, limit: nat)
    ensures (count + 1) * limit == count * limit + limit
  {
  }

  lemma {:induction false} WorkIsBounded(cfg: Config, s: State, id: JobId, n: nat)
    requires Within(cfg, s) && id in s.db.jobs
    ensures Work(s.db, id, n) <= |AheadBelow(s.db, id, n)| * cfg.maxAttempts
  {
    if n > 0 {
      WorkIsBounded(cfg, s, id, n - 1);
      var before := AheadBelow(s.db, id, n - 1);
      if Ahead(s.db, id, n - 1) {
        assert AheadBelow(s.db, id, n) == before + {n - 1};
        OneMore(|before|, cfg.maxAttempts);
      } else {
        assert AheadBelow(s.db, id, n) == before;
      }
    }
  }

  /** Every claim made while the job is queued adds to the work of the jobs ahead of it; no step takes any away. */
  lemma {:induction false} StepAddsWork(cfg: Config, s: State, step: Step, id: JobId, n: nat)
    requires Sound(s) && Enabled(cfg, s, step) && OldestFirst(s, step)
    requires id in s.db.jobs && s.db.jobs[id].status.Queued? && (step.DoClaim? ==> step.id != id)
    ensures id in Write(cfg, s, step).jobs && Write(cfg, s, step).jobs[id].createdAt == s.db.jobs[id].createdAt
    ensures Work(s.db, id, n) + (if step.DoClaim? && step.id < n then 1 else 0) <= Work(Write(cfg, s, step), id, n)
  {
    hide Write, Replays, LiveOf;
    StepMovesRows(cfg, s, step, id);
    if n > 0 {
      StepAddsWork(cfg, s, step, id, n - 1);
      if n - 1 in s.db.jobs {
        StepMovesRows(cfg, s, step, n - 1);
        RowIs(cfg, s, step, n - 1);
      }
      if step.DoClaim? && step.id == n - 1 {
        assert Claimable(s.db.jobs[id], step.now);
        assert Ahead(s.db, id, n - 1);
      }
    }
  }

  lemma {:induction false} QueuedIsOnlyAStart(cfg: Config, s: State, steps: seq<Step>, id: JobId)
    requires Sound(s) && Legal(cfg, s, steps) && id in s.db.jobs
    ensures id in After(cfg, s, steps).db.jobs
    ensures After(cfg, s, steps).db.jobs[id].status.Queued? ==> s.db.jobs[id].status.Queued?
    decreases |steps|
  {
    if steps != [] {
      StepKeepsSound(cfg, s, steps[0]);
      StepMovesRows(cfg, s, steps[0], id);
      QueuedIsOnlyAStart(cfg, Next(cfg, s, steps[0]), steps[1..], id);
    }
  }

  lemma {:induction false} ClaimsAreWork(cfg: Config, s: State, steps: seq<Step>, id: JobId, n: nat)
    requires Sound(s) && Legal(cfg, s, steps) && AllOldestFirst(cfg, s, steps)
    requires id in s.db.jobs && id in After(cfg, s, steps).db.jobs && After(cfg, s, steps).db.jobs[id].status.Queued?
    requires forall k :: k in After(cfg, s, steps).db.jobs ==> k < n
    ensures Work(s.db, id, n) + Claims(steps) <= Work(After(cfg, s, steps).db, id, n)
    decreases |steps|
  {
    if steps != [] {
      var next := Next(cfg, s, steps[0]);
      QueuedIsOnlyAStart(cfg, s, steps, id);
      StepKeepsSound(cfg, s, steps[0]);
      StepMovesRows(cfg, s, steps[0], id);
      QueuedIsOnlyAStart(cfg, next, steps[1..], id);
      if steps[0].DoClaim? {
        QueuedIsOnlyAStart(cfg, next, steps[1..], steps[0].id);
      }
      StepAddsWork(cfg, s, steps[0], id, n);
      ClaimsAreWork(cfg, next, steps[1..], id, n);
    }
  }

  lemma IdsAreBounded(ids: set<JobId>) returns (n: nat)
    ensures forall k :: k in ids ==> k < n
  {
    n := 0;
    if ids != {} {
      var k :| k in ids;
      var rest := IdsAreBounded(ids - {k});
      n := Max(rest, k + 1);
      assert forall x :: x in ids ==> x == k || x in ids - {k};
    }
  }

  /** Who stays within the attempt limit passes a queued job over only so often. */
  lemma WithinPassesOverBoundedly(cfg: Config, s: State, steps: seq<Step>, id: JobId)
    requires Sound(s) && Legal(cfg, s, steps) && AllOldestFirst(cfg, s, steps) && Within(cfg, After(cfg, s, steps))
    requires id in s.db.jobs
    ensures id in After(cfg, s, steps).db.jobs
    ensures After(cfg, s, steps).db.jobs[id].status.Queued?
        ==> Claims(steps) <= |AheadOf(After(cfg, s, steps).db, id)| * cfg.maxAttempts
  {
    var end := After(cfg, s, steps);
    QueuedIsOnlyAStart(cfg, s, steps, id);
    if end.db.jobs[id].status.Queued? {
      var n := IdsAreBounded(end.db.jobs.Keys);
      ClaimsAreWork(cfg, s, steps, id, n);
      WorkIsBounded(cfg, end, id, n);
      assert AheadBelow(end.db, id, n) == AheadOf(end.db, id);
    }
  }

  /** No starvation: a job still queued after a schedule has been passed over by at most maxAttempts claims for each of
      the other jobs created no later than it. One claim more, and it has been claimed or cancelled. */
  lemma QueuedJobsArePassedOverBoundedly(cfg: Config, s: State, steps: seq<Step>, id: JobId)
    requires cfg.maxAttempts >= 1 && Disciplined(cfg, s) && Legal(cfg, s, steps)
    requires AllUnshared(cfg, s, steps) && AllOldestFirst(cfg, s, steps)
    requires id in s.db.jobs
    ensures id in After(cfg, s, steps).db.jobs
    ensures After(cfg, s, steps).db.jobs[id].status.Queued?
        ==> Claims(steps) <= |AheadOf(After(cfg, s, steps).db, id)| * cfg.maxAttempts
  {
    UnsharedRunsStayWithin(cfg, s, steps);
    WithinPassesOverBoundedly(cfg, s, steps, id);
  }
}
