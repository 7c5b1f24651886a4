/** The failure budget and the single remote submission of a publish job, and the configurations that really have them. */
module PublishBudget {
  import opened Basics
  import opened PublishJobs
  import opened PublishProtocol

  // ---------------------------------------------------------------- holds on every schedule

  /** The remote job of a publish job, once recorded, is the same for good, and every submission ever sent for the job
      carried its one submission key; workers, crashes, recoveries and shared claims notwithstanding. */
  lemma {:induction false} RemoteJobNeverChanges(cfg: Config, s: State, steps: seq<Step>, id: JobId)
    requires Sound(cfg, s) && Legal(cfg, s, steps) && id in s.db.jobs
    ensures id in After(cfg, s, steps).db.jobs
    ensures After(cfg, s, steps).db.jobs[id].submissionKey == s.db.jobs[id].submissionKey
    ensures s.db.jobs[id].remoteJobId.Some? ==> After(cfg, s, steps).db.jobs[id].remoteJobId == s.db.jobs[id].remoteJobId
    ensures Terminal(s.db.jobs[id].status) ==> After(cfg, s, steps).db.jobs[id] == s.db.jobs[id]
    ensures forall i :: 0 <= i < |After(cfg, s, steps).sent| && After(cfg, s, steps).sent[i].0 == id
              ==> After(cfg, s, steps).sent[i].1 == s.db.jobs[id].submissionKey
    decreases |steps|
  {
    if steps != [] {
      StepKeepsSound(cfg, s, steps[0]);
      StepMovesRow(cfg, s, steps[0], id);
      RemoteJobNeverChanges(cfg, Next(cfg, s, steps[0]), steps[1..], id);
    }
  }

  /** In any sound state two jobs with one key that both have a remote job have the same one. */
  lemma EqualKeysShareRemoteJob(cfg: Config, s: State, a: JobId, b: JobId)
    requires Sound(cfg, s) && a in s.db.jobs && b in s.db.jobs && s.db.jobs[a].submissionKey == s.db.jobs[b].submissionKey
    requires s.db.jobs[a].remoteJobId.Some? && s.db.jobs[b].remoteJobId.Some?
    ensures s.db.jobs[a].remoteJobId == s.db.jobs[b].remoteJobId
  {
    assert RemoteAgrees(cfg, s.db.jobs[a]) && RemoteAgrees(cfg, s.db.jobs[b]);
  }

  // ---------------------------------------------------------------- holds without shared claims

  /** An execution that can still write more than a failure. One whose events are being flushed can not: if an insert fails
      it goes to the failure path with an error that is never retried. */
  predicate Deciding(e: Execution) {
    !e.phase.Flushing? && !e.phase.Rescuing?
  }

  /** No worker claims a job while an execution of its own could still write more than a failure to that job's row. */
  predicate Unshared(s: State, step: Step) {
    step.DoClaim? ==>
      forall x :: x in s.live && s.live[x].worker == step.worker && Deciding(s.live[x]) ==> s.live[x].job != step.id
  }

  predicate AllUnshared(cfg: Config, s: State, steps: seq<Step>)
    requires Legal(cfg, s, steps)
    decreases |steps|
  {
    steps == [] || (Unshared(s, steps[0]) && AllUnshared(cfg, Next(cfg, s, steps[0]), steps[1..]))
  }

  /** Failures are claims without progress, and a job that can still move has budget left. */
  predicate RowWithin(maxFailures: nat, j: Job, idle: nat, recorded: nat) {
    && (!Terminal(j.status) ==> j.failureCount < maxFailures && idle == j.failureCount + (if j.status.Processing? then 1 else 0))
    && idle <= maxFailures
    && recorded == (if j.remoteJobId.Some? then 1 else 0)
  }

  predicate JobWithin(cfg: Config, s: State, id: JobId)
    requires id in s.db.jobs
  {
    RowWithin(cfg.maxFailures, s.db.jobs[id], Count(s.idleClaims, id), Count(s.recorded, id))
  }

  predicate Within(cfg: Config, s: State) {
    forall id :: id in s.db.jobs ==> JobWithin(cfg, s, id)
  }

  /** While its worker owns the row, an execution's copy agrees with the row on what its decisions depend on. */
  predicate Current(db: Db, e: Execution) {
    && e.job in db.jobs
    && (Deciding(e) && ReadOf(e.phase).Some? && db.jobs[e.job].leaseOwner == Some(e.worker) ==>
          && db.jobs[e.job].failureCount == ReadOf(e.phase).value.failureCount
          && db.jobs[e.job].remoteJobId == ReadOf(e.phase).value.remoteJobId)
  }

  predicate NoTwins(s: State) {
    forall x, y | x in s.live && y in s.live && Deciding(s.live[x]) && Deciding(s.live[y]) ::
      s.live[x].job == s.live[y].job && s.live[x].worker == s.live[y].worker ==> x == y
  }

  ghost predicate Disciplined(cfg: Config, s: State) {
    Sound(cfg, s) && Within(cfg, s) && NoTwins(s) && forall x :: x in s.live ==> Current(s.db, s.live[x])
  }

  /** What a write may do to a row while an execution of its owner holds a copy of it: nothing the copy depends on. */
  predicate KeepsCopies(j: Job, k: Job) {
    k.leaseOwner.Some? && j.leaseOwner == k.leaseOwner ==> k.failureCount == j.failureCount && k.remoteJobId == j.remoteJobId
  }

  lemma StepKeepsCopies(cfg: Config, s: State, step: Step, id: JobId)
    requires Enabled(cfg, s, step) && id in s.db.jobs && Shaped(s.db.jobs[id])
    ensures id in Write(cfg, s, step).jobs && KeepsCopies(s.db.jobs[id], Write(cfg, s, step).jobs[id])
    ensures var j, k := s.db.jobs[id], Write(cfg, s, step).jobs[id];
      k.leaseOwner.Some? && k.leaseOwner != j.leaseOwner ==> step.DoClaim? && step.id == id && k.leaseOwner == Some(step.worker)
  {
    hide Write, EndedRow, LiveOf;
    if Ends(step) {
      EndRowAfter(cfg, s, step, id);
      EndedIsOver(s.db.jobs[id], EndingOf(cfg, s, step), step.now);
    } else if step.DoRecover? {
      RecoveryRowAfter(cfg, s, step, id);
    } else {
      PlainRowAfter(cfg, s, step, id);
    }
  }

  /** The phase of an execution moves on with the same copy, or with the row itself as its copy. */
  lemma PhaseKeepsCopy(cfg: Config, s: State, step: Step, x: nat)
    requires Enabled(cfg, s, step) && x in s.live && x in NextLive(cfg, s, step)
    ensures var e, f := s.live[x], NextLive(cfg, s, step)[x];
      && f.job == e.job && f.worker == e.worker && (Deciding(f) ==> Deciding(e))
      && (Deciding(f) && ReadOf(f.phase).Some? ==>
            ReadOf(f.phase) == ReadOf(e.phase) || (f.job in s.db.jobs && ReadOf(f.phase) == Some(s.db.jobs[f.job])))
  {
  }

  lemma StepKeepsCurrent(cfg: Config, s: State, step: Step, x: nat)
    requires Disciplined(cfg, s) && Enabled(cfg, s, step) && Unshared(s, step) && x in NextLive(cfg, s, step)
    ensures Current(Write(cfg, s, step), NextLive(cfg, s, step)[x])
  {
    hide Write, NextLive, ExecutionSound, Shaped;
    if x in s.live {
      assert Current(s.db, s.live[x]) && Shaped(s.db.jobs[s.live[x].job]);
      StillCurrent(cfg, s, step, x);
    } else {
      BornCurrent(cfg, s, step, x);
    }
  }

  lemma BornCurrent(cfg: Config, s: State, step: Step, x: nat)
    requires Enabled(cfg, s, step) && x !in s.live && x in NextLive(cfg, s, step)
    ensures Current(Write(cfg, s, step), NextLive(cfg, s, step)[x])
  {
    hide EndingOf, LiveOf;
  }

  lemma StillCurrent(cfg: Config, s: State, step: Step, x: nat)
    requires Disciplined(cfg, s) && Enabled(cfg, s, step) && Unshared(s, step) && x in s.live && x in NextLive(cfg, s, step)
    requires Current(s.db, s.live[x])
    ensures Current(Write(cfg, s, step), NextLive(cfg, s, step)[x])
  {
    PhaseKeepsCopy(cfg, s, step, x);
    StepKeepsCopies(cfg, s, step, s.live[x].job);
  }

  lemma StepKeepsNoTwins(cfg: Config, s: State, step: Step)
    requires NoTwins(s) && Enabled(cfg, s, step) && Unshared(s, step)
    ensures NoTwins(Next(cfg, s, step))
  {
    hide Write, EndingOf, Claimable, LiveOf;
  }

  /** A retry counts as one more failure of a budget that still had room; an answer of the engine starts it afresh. */
  predicate EndingWithin(maxFailures: nat, j: Job, ending: Ending) {
    && (ending.RecordRetry? ==> j.failureCount + 1 < maxFailures)
    && (ending.RecordSubmission? ==> j.remoteJobId.None?)
    && (ending.RecordWaiting? ==> j.remoteJobId.Some?)
  }

  lemma EndedRowWithin(maxFailures: nat, j: Job, ending: Ending, idle: nat, recorded: nat, now: Time)
    requires maxFailures >= 1 && j.status.Processing? && RowWithin(maxFailures, j, idle, recorded)
    requires EndingWithin(maxFailures, j, ending)
    ensures RowWithin(maxFailures, EndedRow(j, ending, now),
                      if ending.RecordSubmission? || ending.RecordWaiting? then 0 else idle,
                      if ending.RecordSubmission? then recorded + 1 else recorded)
  {
  }

  lemma EndingOfWithin(cfg: Config, s: State, step: Step)
    requires Enabled(cfg, s, step) && Ends(step) && Effective(s, step)
    requires Current(s.db, s.live[step.exec]) && ExecutionSound(cfg, s.db, s.live[step.exec])
    ensures EndingWithin(cfg.maxFailures, s.db.jobs[s.live[step.exec].job], EndingOf(cfg, s, step))
    ensures EndingOf(cfg, s, step).RecordSubmission? <==> step.DoRecordSubmission?
  {
  }

  /** What an ending write does to a row and to its counts. */
  lemma EndStepWrites(cfg: Config, s: State, step: Step, id: JobId)
    requires Enabled(cfg, s, step) && Ends(step) && id in s.db.jobs
    ensures id in Next(cfg, s, step).db.jobs
    ensures var n, ending := Next(cfg, s, step), EndingOf(cfg, s, step);
            if Effective(s, step) && s.live[step.exec].job == id then
              && n.db.jobs[id] == EndedRow(s.db.jobs[id], ending, step.now)
              && Count(n.idleClaims, id) == (if ending.RecordSubmission? || ending.RecordWaiting? then 0 else Count(s.idleClaims, id))
              && Count(n.recorded, id) == (if step.DoRecordSubmission? then Count(s.recorded, id) + 1 else Count(s.recorded, id))
            else
              && n.db.jobs[id] == s.db.jobs[id]
              && Count(n.idleClaims, id) == Count(s.idleClaims, id) && Count(n.recorded, id) == Count(s.recorded, id)
  {
    hide Write, NextLive, EndedRow, FailureEnding;
    EndRowAfter(cfg, s, step, id);
  }

  lemma EndStepKeepsWithin(cfg: Config, s: State, step: Step, id: JobId)
    requires Enabled(cfg, s, step) && cfg.maxFailures >= 1 && Ends(step) && id in s.db.jobs && JobWithin(cfg, s, id)
    requires Current(s.db, s.live[step.exec]) && ExecutionSound(cfg, s.db, s.live[step.exec])
    ensures id in Next(cfg, s, step).db.jobs && JobWithin(cfg, Next(cfg, s, step), id)
  {
    hide EndedRow, Next, Current, ExecutionSound, Count;
    EndStepWrites(cfg, s, step, id);
    if Effective(s, step) && s.live[step.exec].job == id {
      EndingOfWithin(cfg, s, step);
      EndedRowWithin(cfg.maxFailures, s.db.jobs[id], EndingOf(cfg, s, step), Count(s.idleClaims, id), Count(s.recorded, id), step.now);
    }
  }

  lemma PlainStepKeepsWithin(cfg: Config, s: State, step: Step, id: JobId)
    requires Enabled(cfg, s, step) && cfg.maxFailures >= 1 && !Ends(step)
    requires id in s.db.jobs && JobWithin(cfg, s, id) && Shaped(s.db.jobs[id])
    ensures id in Next(cfg, s, step).db.jobs && JobWithin(cfg, Next(cfg, s, step), id)
  {
    hide Write, NextLive, LiveOf;
    if step.DoRecover? {
      RecoveryRowAfter(cfg, s, step, id);
    } else {
      PlainRowAfter(cfg, s, step, id);
    }
  }

  lemma StepKeepsWithin(cfg: Config, s: State, step: Step)
    requires Disciplined(cfg, s) && Enabled(cfg, s, step) && cfg.maxFailures >= 1
    ensures Within(cfg, Next(cfg, s, step))
  {
    var n := Next(cfg, s, step);
    forall id | id in n.db.jobs ensures JobWithin(cfg, n, id) {
      if id !in s.db.jobs {
        NewIdsAreCreated(cfg, s, step, id);
      } else if Ends(step) {
        assert JobWithin(cfg, s, id) && Current(s.db, s.live[step.exec]) && ExecutionSound(cfg, s.db, s.live[step.exec]);
        EndStepKeepsWithin(cfg, s, step, id);
      } else {
        assert JobWithin(cfg, s, id) && Shaped(s.db.jobs[id]);
        PlainStepKeepsWithin(cfg, s, step, id);
      }
    }
  }

  lemma NewIdsAreCreated(cfg: Config, s: State, step: Step, id: JobId)
    requires Enabled(cfg, s, step) && id !in s.db.jobs && id in Write(cfg, s, step).jobs
    ensures step.DoCreate? && step.id == id
  {
  }

  lemma {:induction false} UnsharedRunsStayWithin(cfg: Config, s: State, steps: seq<Step>)
    requires Disciplined(cfg, s) && cfg.maxFailures >= 1
    requires Legal(cfg, s, steps) && AllUnshared(cfg, s, steps)
    ensures Disciplined(cfg, After(cfg, s, steps))
    decreases |steps|
  {
    if steps != [] {
      var n := Next(cfg, s, steps[0]);
      StepKeepsSound(cfg, s, steps[0]);
      StepKeepsWithin(cfg, s, steps[0]);
      StepKeepsNoTwins(cfg, s, steps[0]);
      forall x | x in n.live ensures Current(n.db, n.live[x]) {
        StepKeepsCurrent(cfg, s, steps[0], x);
      }
      UnsharedRunsStayWithin(cfg, n, steps[1..]);
    }
  }

  // ---------------------------------------------------------------- which configurations never share claims

  lemma {:induction false} SerialWorkersNeverShare(cfg: Config, s: State, steps: seq<Step>)
    requires cfg.concurrency <= 1 && Legal(cfg, s, steps)
    ensures AllUnshared(cfg, s, steps)
    decreases |steps|
  {
    if steps != [] {
      if steps[0].DoClaim? {
        assert LiveOf(s, steps[0].worker) == {};
        assert forall x :: x in s.live && s.live[x].worker == steps[0].worker ==> x in LiveOf(s, steps[0].worker);
      }
      SerialWorkersNeverShare(cfg, Next(cfg, s, steps[0]), steps[1..]);
    }
  }

  /** With a budget of one, an execution that can still decide either owns its row alone or the job is over. */
  predicate SoleAt(s: State, x: nat)
    requires x in s.live
  {
    var id := s.live[x].job;
    && id in s.db.jobs
    && (|| Terminal(s.db.jobs[id].status)
        || (s.db.jobs[id].leaseOwner == Some(s.live[x].worker) && Alone(s.live, x)))
  }

  predicate Alone(live: map<nat, Execution>, x: nat)
    requires x in live
  {
    forall y | y in live && Deciding(live[y]) :: live[y].job == live[x].job ==> y == x
  }

  predicate Sole(s: State) {
    forall x | x in s.live && Deciding(s.live[x]) :: SoleAt(s, x)
  }

  /** What becomes of the owner of a row: it stays, the job ends, or the owner itself writes its ending. */
  predicate OwnerFollows(s: State, step: Step, j: Job, k: Job, id: JobId) {
    || k.leaseOwner == j.leaseOwner
    || Terminal(k.status)
    || (Ends(step) && step.exec in s.live && s.live[step.exec].job == id && Some(s.live[step.exec].worker) == j.leaseOwner
        && Effective(s, step))
  }

  lemma PlainOwnerMoves(cfg: Config, s: State, step: Step, id: JobId)
    requires cfg.maxFailures == 1 && Enabled(cfg, s, step) && !Ends(step) && id in s.db.jobs && s.db.jobs[id].status.Processing?
    ensures id in Write(cfg, s, step).jobs && OwnerFollows(s, step, s.db.jobs[id], Write(cfg, s, step).jobs[id], id)
  {
  }

  lemma SoleOwnerMoves(cfg: Config, s: State, step: Step, id: JobId)
    requires cfg.maxFailures == 1 && Enabled(cfg, s, step) && id in s.db.jobs && s.db.jobs[id].status.Processing?
    ensures id in Write(cfg, s, step).jobs && OwnerFollows(s, step, s.db.jobs[id], Write(cfg, s, step).jobs[id], id)
  {
    if Ends(step) {
      var e, ending := s.live[step.exec], EndingOf(cfg, s, step);
      assert Write(cfg, s, step) == EndRow(s.db, e.tenant, e.job, e.worker, ending, step.now);
    } else {
      PlainOwnerMoves(cfg, s, step, id);
    }
  }

  lemma ClaimTakesFreeRow(cfg: Config, s: State, step: Step)
    requires Sound(cfg, s) && Sole(s) && Enabled(cfg, s, step) && step.DoClaim?
    ensures forall y :: y in s.live && Deciding(s.live[y]) ==> s.live[y].job != step.id
  {
    assert Shaped(s.db.jobs[step.id]);
    forall y | y in s.live && Deciding(s.live[y]) ensures s.live[y].job != step.id {
      assert SoleAt(s, y);
    }
  }

  lemma StepKeepsSoleAt(cfg: Config, s: State, step: Step, x: nat)
    requires cfg.maxFailures == 1 && Sound(cfg, s) && Sole(s) && Enabled(cfg, s, step)
    requires x in NextLive(cfg, s, step) && Deciding(NextLive(cfg, s, step)[x])
    requires step.DoClaim? ==> forall y :: y in s.live && Deciding(s.live[y]) ==> s.live[y].job != step.id
    ensures SoleAt(Next(cfg, s, step), x)
  {
    if x in s.live {
      PhaseKeepsCopy(cfg, s, step, x);
      assert SoleAt(s, x);
      StaysAlone(cfg, s, step, x);
      RowStaysSole(cfg, s, step, x);
    } else {
      StaysAlone(cfg, s, step, x);
      StepMovesRow(cfg, s, step, step.id);
    }
  }

  lemma StepKeepsSole(cfg: Config, s: State, step: Step)
    requires cfg.maxFailures == 1 && Sound(cfg, s) && Sole(s) && Enabled(cfg, s, step)
    ensures Sole(Next(cfg, s, step)) && Unshared(s, step)
  {
    if step.DoClaim? {
      ClaimTakesFreeRow(cfg, s, step);
    }
    forall x | x in NextLive(cfg, s, step) && Deciding(NextLive(cfg, s, step)[x]) ensures SoleAt(Next(cfg, s, step), x) {
      StepKeepsSoleAt(cfg, s, step, x);
    }
  }

  lemma StaysAlone(cfg: Config, s: State, step: Step, x: nat)
    requires Enabled(cfg, s, step) && x in NextLive(cfg, s, step)
    requires if x in s.live then Deciding(s.live[x]) else step.DoClaim? && x == step.exec
    requires step.DoClaim? ==> forall y :: y in s.live && Deciding(s.live[y]) ==> s.live[y].job != step.id
    ensures x in s.live ==> NextLive(cfg, s, step)[x].job == s.live[x].job
    ensures (x in s.live ==> Alone(s.live, x)) ==> Alone(NextLive(cfg, s, step), x)
  {
    var live := NextLive(cfg, s, step);
    forall y | y in live && y in s.live
      ensures live[y].job == s.live[y].job && (Deciding(live[y]) ==> Deciding(s.live[y]))
    {
      PhaseKeepsCopy(cfg, s, step, y);
    }
  }

  lemma RescueOnlyFails(cfg: Config, s: State, step: Step)
    requires Enabled(cfg, s, step) && step.DoRescue? && Effective(s, step)
    ensures s.live[step.exec].job in Write(cfg, s, step).jobs && Write(cfg, s, step).jobs[s.live[step.exec].job].status.Failed?
  {
  }

  lemma RowStaysSole(cfg: Config, s: State, step: Step, x: nat)
    requires cfg.maxFailures == 1 && Sound(cfg, s) && Enabled(cfg, s, step)
    requires x in s.live && Deciding(s.live[x]) && SoleAt(s, x)
    requires x in NextLive(cfg, s, step) && Deciding(NextLive(cfg, s, step)[x])
    ensures s.live[x].job in Write(cfg, s, step).jobs
    ensures var k := Write(cfg, s, step).jobs[s.live[x].job];
      Terminal(k.status) || (k.leaseOwner == Some(s.live[x].worker) && Alone(s.live, x))
  {
    hide Write, NextLive, ExecutionSound, RemoteAgrees;
    var id := s.live[x].job;
    assert Shaped(s.db.jobs[id]);
    StepMovesRow(cfg, s, step, id);
    if !Terminal(s.db.jobs[id].status) {
      SoleOwnerMoves(cfg, s, step, id);
      if Ends(step) && s.live[step.exec].job == id && Effective(s, step) {
        if step.DoRescue? {
          RescueOnlyFails(cfg, s, step);
        } else {
          EnderDecides(cfg, s, step, x);
        }
      }
    }
  }

  /** An execution that writes an ending decides no more, so it is not the one that still does; but that one is alone. */
  lemma EnderDecides(cfg: Config, s: State, step: Step, x: nat)
    requires Enabled(cfg, s, step) && Ends(step) && !step.DoRescue? && x in s.live && s.live[step.exec].job == s.live[x].job
    requires x in NextLive(cfg, s, step) && Deciding(NextLive(cfg, s, step)[x])
    ensures !Alone(s.live, x)
  {
    hide Write, EndingOf, LiveOf;
    assert Deciding(s.live[step.exec]) && step.exec != x;
  }

  lemma {:induction false} BudgetOfOneNeverShares(cfg: Config, s: State, steps: seq<Step>)
    requires cfg.maxFailures == 1 && Sound(cfg, s) && Sole(s) && Legal(cfg, s, steps)
    ensures AllUnshared(cfg, s, steps)
    decreases |steps|
  {
    if steps != [] {
      StepKeepsSound(cfg, s, steps[0]);
      StepKeepsSole(cfg, s, steps[0]);
      BudgetOfOneNeverShares(cfg, Next(cfg, s, steps[0]), steps[1..]);
    }
  }
}
