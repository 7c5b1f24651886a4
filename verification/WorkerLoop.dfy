/**
 * The claim loops of the two worker processes, which bound how many executions of one worker id are alive at a time, and why
 * every schedule of such loops is one of the protocols' schedules.
 */
module WorkerLoop {
  import opened Basics
  import C = ContentJobs
  import CP = ContentProtocol
  import P = PublishJobs
  import PP = PublishProtocol

  datatype Answer = Claimed(exec: nat) | NothingDue | PollFailed

  /** One poll: what it answers, and which executions settle while it is awaited. */
  datatype Poll = Poll(answer: Answer, settled: set<nat>)

  /** Every claim starts an execution of its own. */
  predicate NewExecutions(active: set<nat>, polls: seq<Poll>) {
    && (forall i :: 0 <= i < |polls| && polls[i].answer.Claimed? ==> polls[i].answer.exec !in active)
    && (forall i, k :: 0 <= i < k < |polls| && polls[i].answer.Claimed? && polls[k].answer.Claimed? ==>
          polls[i].answer.exec != polls[k].answer.exec)
  }

  function ClaimedIn(polls: seq<Poll>): set<nat> {
    set i | 0 <= i < |polls| && polls[i].answer.Claimed? :: polls[i].answer.exec
  }

  /** One round of the outer loop: the polls while slots are filled, and what settles in the wait after them. */
  datatype Pass = Pass(polls: seq<Poll>, settled: set<nat>)

  predicate NewInAll(seen: set<nat>, passes: seq<Pass>)
    decreases |passes|
  {
    passes == []
    || (NewExecutions(seen, passes[0].polls) && NewInAll(seen + ClaimedIn(passes[0].polls), passes[1..]))
  }

  // ---------------------------------------------------------------- what a loop does to its active set

  datatype LoopAct = Started(exec: nat) | Forgot(execs: set<nat>)

  function ActiveAfter(active: set<nat>, acts: seq<LoopAct>): set<nat>
    decreases |acts|
  {
    if acts == [] then active
    else ActiveAfter(if acts[0].Started? then active + {acts[0].exec} else active - acts[0].execs, acts[1..])
  }

  /** Executions start only while fewer than `concurrency` are active, and none starts twice. */
  predicate Disciplined(concurrency: nat, active: set<nat>, acts: seq<LoopAct>)
    decreases |acts|
  {
    acts == [] ||
    match acts[0]
    case Started(x) => |active| < concurrency && x !in active && Disciplined(concurrency, active + {x}, acts[1..])
    case Forgot(xs) => Disciplined(concurrency, active - xs, acts[1..])
  }

  function StartsIn(acts: seq<LoopAct>): seq<nat> {
    if acts == [] then []
    else StartsIn(acts[..|acts| - 1]) + (if acts[|acts| - 1].Started? then [acts[|acts| - 1].exec] else [])
  }

  lemma {:induction false} DisciplinedMore(concurrency: nat, active: set<nat>, first: seq<LoopAct>, second: seq<LoopAct>)
    requires Disciplined(concurrency, active, first) && Disciplined(concurrency, ActiveAfter(active, first), second)
    ensures Disciplined(concurrency, active, first + second)
    ensures ActiveAfter(active, first + second) == ActiveAfter(ActiveAfter(active, first), second)
    decreases |first|
  {
    if first == [] {
      assert first + second == second;
    } else {
      assert (first + second)[1..] == first[1..] + second;
      DisciplinedMore(concurrency, if first[0].Started? then active + {first[0].exec} else active - first[0].execs, first[1..], second);
    }
  }

  lemma AfterOne(active: set<nat>, act: LoopAct)
    ensures ActiveAfter(active, [act]) == if act.Started? then active + {act.exec} else active - act.execs
  {
    assert [act][1..] == [];
  }

  lemma OneAct(concurrency: nat, active: set<nat>, act: LoopAct)
    requires act.Started? ==> |active| < concurrency && act.exec !in active
    ensures Disciplined(concurrency, active, [act])
  {
    assert [act][1..] == [];
  }

  /** What filling slots does for these polls: after each it forgets what has settled, and starts what the poll claimed. */
  function ActsFor(polls: seq<Poll>): seq<LoopAct> {
    if polls == [] then []
    else
      var last := polls[|polls| - 1];
      ActsFor(polls[..|polls| - 1]) + [Forgot(last.settled)] + if last.answer.Claimed? then [Started(last.answer.exec)] else []
  }

  /** It stops for want of a slot, of polls or of due jobs, and not before. */
  ghost predicate StopsAt(concurrency: nat, active: set<nat>, polls: seq<Poll>, used: nat) {
    && used <= |polls| && (forall i :: 0 <= i < used - 1 ==> polls[i].answer.Claimed?)
    && (|active| >= concurrency || used == |polls| || (used > 0 && !polls[used - 1].answer.Claimed?))
  }

  /** One round: slots are filled, and what settled in the wait after that is forgotten. */
  ghost predicate Round(concurrency: nat, before: set<nat>, pass: Pass, acts: seq<LoopAct>) {
    exists used: nat ::
      && StopsAt(concurrency, ActiveAfter(before, ActsFor(pass.polls[..if used <= |pass.polls| then used else 0])), pass.polls, used)
      && acts == ActsFor(pass.polls[..used]) + [Forgot(pass.settled)]
  }

  ghost predicate Rounds(concurrency: nat, before: set<nat>, passes: seq<Pass>, acts: seq<LoopAct>)
    decreases |passes|
  {
    if passes == [] then acts == []
    else
      exists k :: 0 <= k <= |acts| && Rounds(concurrency, before, passes[..|passes| - 1], acts[..k])
        && Round(concurrency, ActiveAfter(before, acts[..k]), passes[|passes| - 1], acts[k..])
  }

  lemma ActsForMore(polls: seq<Poll>, k: nat)
    requires k < |polls|
    ensures ActsFor(polls[..k + 1]) ==
            ActsFor(polls[..k]) + [Forgot(polls[k].settled)] + if polls[k].answer.Claimed? then [Started(polls[k].answer.exec)] else []
  {
    assert polls[..k + 1][..k] == polls[..k];
  }

  lemma NoRounds(concurrency: nat, before: set<nat>)
    ensures Rounds(concurrency, before, [], [])
  {
  }

  lemma OneMoreRound(concurrency: nat, before: set<nat>, passes: seq<Pass>, k: nat, acts: seq<LoopAct>, used: nat, filled: seq<LoopAct>)
    requires k < |passes| && Rounds(concurrency, before, passes[..k], acts) && used <= |passes[k].polls|
    requires filled == ActsFor(passes[k].polls[..used])
    requires StopsAt(concurrency, ActiveAfter(ActiveAfter(before, acts), filled), passes[k].polls, used)
    ensures Rounds(concurrency, before, passes[..k + 1], acts + filled + [Forgot(passes[k].settled)])
  {
    var all := acts + filled + [Forgot(passes[k].settled)];
    assert passes[..k + 1][..k] == passes[..k];
    assert all[..|acts|] == acts && all[|acts|..] == filled + [Forgot(passes[k].settled)];
    assert Round(concurrency, ActiveAfter(before, acts), passes[k], filled + [Forgot(passes[k].settled)]);
  }

  /** One more act at the end. */
  lemma DisciplinedOn(concurrency: nat, active: set<nat>, acts: seq<LoopAct>, act: LoopAct)
    requires Disciplined(concurrency, active, acts)
    requires act.Started? ==> |ActiveAfter(active, acts)| < concurrency && act.exec !in ActiveAfter(active, acts)
    ensures Disciplined(concurrency, active, acts + [act])
    ensures ActiveAfter(active, acts + [act]) ==
            if act.Started? then ActiveAfter(active, acts) + {act.exec} else ActiveAfter(active, acts) - act.execs
    ensures StartsIn(acts + [act]) == StartsIn(acts) + if act.Started? then [act.exec] else []
  {
    OneAct(concurrency, ActiveAfter(active, acts), act);
    AfterOne(ActiveAfter(active, acts), act);
    DisciplinedMore(concurrency, active, acts, [act]);
    assert (acts + [act])[..|acts|] == acts;
  }

  // ---------------------------------------------------------------- the loop

  /** What filling slots has done by the time it has seen these polls. */
  ghost predicate Filled(concurrency: nat, before: set<nat>, acts: seq<LoopAct>, active: set<nat>, started: seq<nat>, polls: seq<Poll>) {
    && Disciplined(concurrency, before, acts) && ActiveAfter(before, acts) == active && StartsIn(acts) == started
    && active <= before + ClaimedIn(polls)
  }

  lemma FilledParts(concurrency: nat, before: set<nat>, acts: seq<LoopAct>, active: set<nat>, started: seq<nat>, polls: seq<Poll>)
    requires Filled(concurrency, before, acts, active, started, polls)
    ensures Disciplined(concurrency, before, acts) && ActiveAfter(before, acts) == active && StartsIn(acts) == started
    ensures active <= before + ClaimedIn(polls)
  {
  }

  lemma NothingFilled(concurrency: nat, active: set<nat>)
    ensures Filled(concurrency, active, [], active, [], []) && ActsFor([]) == []
  {
  }

  /** A poll is awaited, and executions settle meanwhile. */
  lemma FilledSettles(concurrency: nat, before: set<nat>, acts: seq<LoopAct>, active: set<nat>, started: seq<nat>, polls: seq<Poll>, k: nat)
    requires k < |polls| && Filled(concurrency, before, acts, active, started, polls[..k])
    ensures Filled(concurrency, before, acts + [Forgot(polls[k].settled)], active - polls[k].settled, started, polls[..k + 1])
    ensures |active - polls[k].settled| <= |active|
    ensures active - polls[k].settled <= before + ClaimedIn(polls[..k])
  {
    ClaimedMore(polls, k);
    Fewer(active, polls[k].settled);
    DisciplinedOn(concurrency, before, acts, Forgot(polls[k].settled));
  }

  /** The poll was answered by a claim, which starts a new execution. */
  lemma FilledStarts(concurrency: nat, before: set<nat>, acts: seq<LoopAct>, active: set<nat>, started: seq<nat>, polls: seq<Poll>, k: nat)
    requires k < |polls| && Filled(concurrency, before, acts, active, started, polls[..k + 1]) && |active| < concurrency
    requires NewExecutions(before, polls) && polls[k].answer.Claimed? && active <= before + ClaimedIn(polls[..k])
    ensures Filled(concurrency, before, acts + [Started(polls[k].answer.exec)], active + {polls[k].answer.exec},
                   started + [polls[k].answer.exec], polls[..k + 1])
  {
    ClaimedMore(polls, k);
    NotYetActive(before, polls, k);
    DisciplinedOn(concurrency, before, acts, Started(polls[k].answer.exec));
  }

  class WorkerLoop {
    const concurrency: nat
    var activeExecutions: set<nat>

    constructor (concurrency: nat)
      ensures activeExecutions == {} && this.concurrency == concurrency
    {
      this.concurrency := concurrency;
      activeExecutions := {};
    }

    /** Polls while there is a free slot; the stop signal comes after the last of the given polls. Executions start only below
        the concurrency and leave the set only by settling, and it stops for want of a slot, of due jobs or of polls. */
    method FillSlots(polls: seq<Poll>) returns (started: seq<nat>, used: nat, ghost acts: seq<LoopAct>)
      requires NewExecutions(activeExecutions, polls)
      modifies this`activeExecutions
      ensures Disciplined(concurrency, old(activeExecutions), acts)
      ensures ActiveAfter(old(activeExecutions), acts) == activeExecutions && StartsIn(acts) == started
      ensures used <= |polls| && activeExecutions <= old(activeExecutions) + ClaimedIn(polls[..used])
      ensures acts == ActsFor(polls[..used]) && StopsAt(concurrency, activeExecutions, polls, used)
    {
      hide Filled, ActsFor, NewExecutions, Disciplined, ActiveAfter, StartsIn, ClaimedIn;
      started, used, acts := [], 0, [];
      NothingFilled(concurrency, activeExecutions);
      assert polls[..0] == [];
      while |activeExecutions| < concurrency && used < |polls|
        invariant 0 <= used <= |polls|
        invariant Filled(concurrency, old(activeExecutions), acts, activeExecutions, started, polls[..used])
        invariant acts == ActsFor(polls[..used]) && forall i :: 0 <= i < used ==> polls[i].answer.Claimed?
        decreases |polls| - used
      {
        var poll := polls[used];
        ActsForMore(polls, used);
        FilledSettles(concurrency, old(activeExecutions), acts, activeExecutions, started, polls, used);
        acts := acts + [Forgot(poll.settled)];
        activeExecutions := activeExecutions - poll.settled;
        used := used + 1;
        if !poll.answer.Claimed? {
          break;
        }
        FilledStarts(concurrency, old(activeExecutions), acts, activeExecutions, started, polls, used - 1);
        acts := acts + [Started(poll.answer.exec)];
        activeExecutions := activeExecutions + {poll.answer.exec};
        started := started + [poll.answer.exec];
      }
      FilledParts(concurrency, old(activeExecutions), acts, activeExecutions, started, polls[..used]);
    }

    /** The outer loop: fill the slots, wait, and drop what has settled in the meantime. */
    method Run(passes: seq<Pass>) returns (ghost acts: seq<LoopAct>)
      requires NewInAll(activeExecutions, passes)
      modifies this`activeExecutions
      ensures Disciplined(concurrency, old(activeExecutions), acts)
      ensures ActiveAfter(old(activeExecutions), acts) == activeExecutions
      ensures Rounds(concurrency, old(activeExecutions), passes, acts)
    {
      hide Rounds, StopsAt;
      acts := [];
      NoRounds(concurrency, activeExecutions);
      assert passes[..0] == [];
      ghost var seen := activeExecutions;
      for k := 0 to |passes|
        invariant NewInAll(seen, passes[k..]) && activeExecutions <= seen
        invariant Disciplined(concurrency, old(activeExecutions), acts)
        invariant ActiveAfter(old(activeExecutions), acts) == activeExecutions
        invariant Rounds(concurrency, old(activeExecutions), passes[..k], acts)
      {
        assert passes[k..][0] == passes[k] && passes[k..][1..] == passes[k + 1..];
        var polls := passes[k].polls;
        var started, used;
        ghost var filled;
        started, used, filled := FillSlots(polls);
        assert ClaimedIn(polls[..used]) <= ClaimedIn(polls);
        OneMoreRound(concurrency, old(activeExecutions), passes, k, acts, used, filled);
        DisciplinedMore(concurrency, old(activeExecutions), acts, filled);
        DisciplinedOn(concurrency, old(activeExecutions), acts + filled, Forgot(passes[k].settled));
        acts := acts + filled + [Forgot(passes[k].settled)];
        activeExecutions := activeExecutions - passes[k].settled;
        seen := seen + ClaimedIn(polls);
      }
      assert passes[..|passes|] == passes;
    }
  }

  lemma ClaimedMore(polls: seq<Poll>, k: nat)
    requires k < |polls|
    ensures ClaimedIn(polls[..k + 1]) ==
            ClaimedIn(polls[..k]) + if polls[k].answer.Claimed? then {polls[k].answer.exec} else {}
  {
    assert forall i :: 0 <= i < k ==> polls[..k + 1][i] == polls[..k][i];
    assert polls[..k + 1][k] == polls[k];
  }

  lemma NotYetActive(active: set<nat>, polls: seq<Poll>, k: nat)
    requires NewExecutions(active, polls) && k < |polls| && polls[k].answer.Claimed?
    ensures polls[k].answer.exec !in active + ClaimedIn(polls[..k])
  {
  }

  lemma Fewer(a: set<nat>, b: set<nat>)
    ensures |a - b| <= |a|
  {
    assert a == (a - b) + (a * b);
  }

  lemma SubsetCount(a: set<nat>, b: set<nat>)
    requires a <= b
    ensures |a| <= |b|
  {
    Fewer(b, b - a);
    assert b - (b - a) == a;
  }

  // ---------------------------------------------------------------- schedules of loops

  /** A step of the machine, or a loop noticing that some of its executions have settled. */
  datatype Act<S> = Took(step: S) | Settled(worker: WorkerId, execs: set<nat>)

  datatype Claim = Claim(worker: WorkerId, exec: nat)

  function StepsOf<S>(acts: seq<Act<S>>): seq<S> {
    if acts == [] then [] else (if acts[0].Took? then [acts[0].step] else []) + StepsOf(acts[1..])
  }

  /** What one worker's loop does in the course of the acts. */
  function LoopActsOf<S>(claim: S -> Option<Claim>, acts: seq<Act<S>>, worker: WorkerId): seq<LoopAct> {
    if acts == [] then [] else LoopActOf(claim, acts[0], worker) + LoopActsOf(claim, acts[1..], worker)
  }

  function LoopActOf<S>(claim: S -> Option<Claim>, act: Act<S>, worker: WorkerId): seq<LoopAct> {
    match act
    case Settled(w, xs) => if w == worker then [Forgot(xs)] else []
    case Took(step) =>
      if claim(step).Some? && claim(step).value.worker == worker then [Started(claim(step).value.exec)] else []
  }

  /** Every worker's part in the acts is one of a loop that starts with these executions. */
  ghost predicate AllDisciplined<S(!new)>(claim: S -> Option<Claim>, concurrency: nat, active: WorkerId -> set<nat>, acts: seq<Act<S>>) {
    forall w: WorkerId :: Disciplined(concurrency, active(w), LoopActsOf(claim, acts, w))
  }

  /** The executions of each worker after the act. */
  function ActiveNow<S>(claim: S -> Option<Claim>, active: WorkerId -> set<nat>, act: Act<S>): WorkerId -> set<nat> {
    w => ActiveAfter(active(w), LoopActOf(claim, act, w))
  }

  lemma ActsUnfold<S>(claim: S -> Option<Claim>, concurrency: nat, active: WorkerId -> set<nat>, acts: seq<Act<S>>, w: WorkerId)
    requires acts != [] && Disciplined(concurrency, active(w), LoopActsOf(claim, acts, w))
    ensures Disciplined(concurrency, ActiveNow(claim, active, acts[0])(w), LoopActsOf(claim, acts[1..], w))
    ensures LoopActOf(claim, acts[0], w) != [] && LoopActOf(claim, acts[0], w)[0].Started? ==> |active(w)| < concurrency
    ensures ActiveNow(claim, active, acts[0])(w) ==
            match acts[0]
            case Settled(v, xs) => if v == w then active(w) - xs else active(w)
            case Took(step) =>
              if claim(step).Some? && claim(step).value.worker == w then active(w) + {claim(step).value.exec} else active(w)
  {
    var one, rest := LoopActOf(claim, acts[0], w), LoopActsOf(claim, acts[1..], w);
    if one == [] {
      assert one + rest == rest;
    } else {
      assert (one + rest)[0] == one[0] && (one + rest)[1..] == rest && one == [one[0]];
      AfterOne(active(w), one[0]);
    }
  }

  lemma AllUnfold<S(!new)>(claim: S -> Option<Claim>, concurrency: nat, active: WorkerId -> set<nat>, acts: seq<Act<S>>)
    requires acts != [] && AllDisciplined(claim, concurrency, active, acts)
    ensures AllDisciplined(claim, concurrency, ActiveNow(claim, active, acts[0]), acts[1..])
  {
    forall w: WorkerId ensures Disciplined(concurrency, ActiveNow(claim, active, acts[0])(w), LoopActsOf(claim, acts[1..], w)) {
      ActsUnfold(claim, concurrency, active, acts, w);
    }
  }

  // ---------------------------------------------------------------- content workers

  function ContentClaim(step: CP.Step): Option<Claim> {
    if step.DoClaim? then Some(Claim(step.worker, step.exec)) else None
  }

  /** A claim is offered by the claim query alone; how many executions its worker has is the loop's business. */
  predicate ContentOffered(cfg: CP.Config, s: CP.State, step: CP.Step) {
    if step.DoClaim? then step.exec !in s.live && step.id in s.db.jobs && C.Claimable(s.db.jobs[step.id], step.now)
    else CP.Enabled(cfg, s, step)
  }

  /** What happens is offered, and only executions that have ended settle. */
  predicate ContentHappens(cfg: CP.Config, s: CP.State, acts: seq<Act<CP.Step>>)
    decreases |acts|
  {
    acts == [] ||
    match acts[0]
    case Settled(_, xs) => xs !! s.live.Keys && ContentHappens(cfg, s, acts[1..])
    case Took(step) => ContentOffered(cfg, s, step) && (CP.Enabled(cfg, s, step) ==> ContentHappens(cfg, CP.Next(cfg, s, step), acts[1..]))
  }

  ghost predicate ContentCovered(s: CP.State, active: WorkerId -> set<nat>) {
    forall w :: CP.LiveOf(s, w) <= active(w)
  }

  lemma ContentStepCovered(cfg: CP.Config, s: CP.State, active: WorkerId -> set<nat>, step: CP.Step)
    requires ContentCovered(s, active) && CP.Enabled(cfg, s, step)
    ensures forall w :: CP.LiveOf(CP.Next(cfg, s, step), w) <=
                        active(w) + if step.DoClaim? && step.worker == w then {step.exec} else {}
  {
    forall w ensures CP.LiveOf(CP.Next(cfg, s, step), w) <= active(w) + if step.DoClaim? && step.worker == w then {step.exec} else {} {
      assert CP.LiveOf(s, w) <= active(w);
    }
  }

  /** Whatever disciplined loops do, what they make of the machine is a schedule of the protocol, with its bound on executions. */
  lemma {:induction false} ContentLoopsAreLegal(cfg: CP.Config, s: CP.State, active: WorkerId -> set<nat>, acts: seq<Act<CP.Step>>)
    requires ContentCovered(s, active) && ContentHappens(cfg, s, acts)
    requires AllDisciplined(ContentClaim, cfg.concurrency, active, acts)
    ensures CP.Legal(cfg, s, StepsOf(acts))
    decreases |acts|
  {
    if acts != [] {
      var now := ActiveNow(ContentClaim, active, acts[0]);
      AllUnfold(ContentClaim, cfg.concurrency, active, acts);
      forall w ensures acts[0].Settled? ==> now(w) == if acts[0].worker == w then active(w) - acts[0].execs else active(w) {
        ActsUnfold(ContentClaim, cfg.concurrency, active, acts, w);
      }
      if acts[0].Settled? {
        forall w ensures CP.LiveOf(s, w) <= now(w) {
          assert CP.LiveOf(s, w) <= active(w);
        }
        ContentLoopsAreLegal(cfg, s, now, acts[1..]);
        assert StepsOf(acts) == StepsOf(acts[1..]);
      } else {
        var step := acts[0].step;
        if step.DoClaim? {
          ActsUnfold(ContentClaim, cfg.concurrency, active, acts, step.worker);
          assert CP.LiveOf(s, step.worker) <= active(step.worker);
          SubsetCount(CP.LiveOf(s, step.worker), active(step.worker));
        }
        ContentStepCovered(cfg, s, active, step);
        forall w ensures CP.LiveOf(CP.Next(cfg, s, step), w) <= now(w) {
          ActsUnfold(ContentClaim, cfg.concurrency, active, acts, w);
        }
        ContentLoopsAreLegal(cfg, CP.Next(cfg, s, step), now, acts[1..]);
        assert StepsOf(acts) == [step] + StepsOf(acts[1..]);
      }
    }
  }

  // ---------------------------------------------------------------- publish workers

  function PublishClaim(step: PP.Step): Option<Claim> {
    if step.DoClaim? then Some(Claim(step.worker, step.exec)) else None
  }

  predicate PublishOffered(cfg: PP.Config, s: PP.State, step: PP.Step) {
    if step.DoClaim? then step.exec !in s.live && step.id in s.db.jobs && P.Claimable(s.db.jobs[step.id], step.now)
    else PP.Enabled(cfg, s, step)
  }

  predicate PublishHappens(cfg: PP.Config, s: PP.State, acts: seq<Act<PP.Step>>)
    decreases |acts|
  {
    acts == [] ||
    match acts[0]
    case Settled(_, xs) => xs !! s.live.Keys && PublishHappens(cfg, s, acts[1..])
    case Took(step) => PublishOffered(cfg, s, step) && (PP.Enabled(cfg, s, step) ==> PublishHappens(cfg, PP.Next(cfg, s, step), acts[1..]))
  }

  ghost predicate PublishCovered(s: PP.State, active: WorkerId -> set<nat>) {
    forall w :: PP.LiveOf(s, w) <= active(w)
  }

  lemma PublishStepKeepsWorkers(cfg: PP.Config, s: PP.State, step: PP.Step, x: nat)
    requires PP.Enabled(cfg, s, step) && x in PP.NextLive(cfg, s, step)
    ensures if step.DoClaim? && x == step.exec then PP.NextLive(cfg, s, step)[x].worker == step.worker
            else x in s.live && PP.NextLive(cfg, s, step)[x].worker == s.live[x].worker
  {
  }

  lemma PublishStepCovered(cfg: PP.Config, s: PP.State, active: WorkerId -> set<nat>, step: PP.Step)
    requires PublishCovered(s, active) && PP.Enabled(cfg, s, step)
    ensures forall w :: PP.LiveOf(PP.Next(cfg, s, step), w) <=
                        active(w) + if step.DoClaim? && step.worker == w then {step.exec} else {}
  {
    forall w ensures PP.LiveOf(PP.Next(cfg, s, step), w) <= active(w) + if step.DoClaim? && step.worker == w then {step.exec} else {} {
      assert PP.LiveOf(s, w) <= active(w);
      forall x | x in PP.LiveOf(PP.Next(cfg, s, step), w)
        ensures x in active(w) + if step.DoClaim? && step.worker == w then {step.exec} else {}
      {
        PublishStepKeepsWorkers(cfg, s, step, x);
      }
    }
  }

  /** The same for publish workers. */
  lemma {:induction false} PublishLoopsAreLegal(cfg: PP.Config, s: PP.State, active: WorkerId -> set<nat>, acts: seq<Act<PP.Step>>)
    requires PublishCovered(s, active) && PublishHappens(cfg, s, acts)
    requires AllDisciplined(PublishClaim, cfg.concurrency, active, acts)
    ensures PP.Legal(cfg, s, StepsOf(acts))
    decreases |acts|
  {
    if acts != [] {
      var now := ActiveNow(PublishClaim, active, acts[0]);
      AllUnfold(PublishClaim, cfg.concurrency, active, acts);
      forall w ensures acts[0].Settled? ==> now(w) == if acts[0].worker == w then active(w) - acts[0].execs else active(w) {
        ActsUnfold(PublishClaim, cfg.concurrency, active, acts, w);
      }
      if acts[0].Settled? {
        forall w ensures PP.LiveOf(s, w) <= now(w) {
          assert PP.LiveOf(s, w) <= active(w);
        }
        PublishLoopsAreLegal(cfg, s, now, acts[1..]);
        assert StepsOf(acts) == StepsOf(acts[1..]);
      } else {
        var step := acts[0].step;
        if step.DoClaim? {
          ActsUnfold(PublishClaim, cfg.concurrency, active, acts, step.worker);
          assert PP.LiveOf(s, step.worker) <= active(step.worker);
          SubsetCount(PP.LiveOf(s, step.worker), active(step.worker));
        }
        PublishStepCovered(cfg, s, active, step);
        forall w ensures PP.LiveOf(PP.Next(cfg, s, step), w) <= now(w) {
          ActsUnfold(PublishClaim, cfg.concurrency, active, acts, w);
        }
        PublishLoopsAreLegal(cfg, PP.Next(cfg, s, step), now, acts[1..]);
        assert StepsOf(acts) == [step] + StepsOf(acts[1..]);
      }
    }
  }
}
