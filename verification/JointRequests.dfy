/** Which publish jobs share a remote job: those of the same request, whatever idempotency keys they were created under. */
module JointRequests {
  import opened Basics
  import opened JsonText
  import opened Canonical
  import opened CanonicalText
  import opened Fingerprints
  import opened SourceEligibility
  import opened JointJobs
  import C = ContentJobs
  import CP = ContentProtocol
  import P = PublishJobs
  import PP = PublishProtocol
  import PB = PublishBudget
  import CK = ContentClock
  import PK = PublishClock

  /** The request a publish job was created from. */
  function RequestFor(cfg: Config, s: State, id: JobId): PublishRequest
    requires id in s.publish.db.jobs && id in s.sources
  {
    RequestOf(cfg, s.publish.db.jobs[id].sourceJob, s.sources[id])
  }

  lemma {:induction false} DecimalIsNumber(n: nat)
    ensures Decimal(n) != "" && forall i :: 0 <= i < |Decimal(n)| ==> '0' <= Decimal(n)[i] <= '9'
  {
    if n >= 10 {
      DecimalIsNumber(n / 10);
    }
  }

  lemma JsonIntegerIsNumber(n: int)
    ensures IsNumber(JsonInteger(n))
  {
    DecimalIsNumber(if n < 0 then -n else n);
  }

  lemma RequestIsValid(cfg: Config, s: State, id: JobId)
    requires Sound(cfg, s) && id in s.sources
    ensures id in s.publish.db.jobs && Valid(RequestFor(cfg, s, id))
    ensures s.publish.db.jobs[id].submissionKey == KeyOf(cfg, s.publish.db.jobs[id].sourceJob, s.sources[id])
  {
    assert SourceSound(cfg, s.content.db, s.publish.db, id, s.sources[id]);
    JsonIntegerIsNumber(s.sources[id].snapshot.byteSize);
  }

  lemma KeysTellFingerprints(a: string, b: string)
    ensures KEY_PREFIX + a == KEY_PREFIX + b <==> a == b
  {
    if KEY_PREFIX + a == KEY_PREFIX + b {
      Cancel(KEY_PREFIX, a, b);
    }
  }

  /** The columns of two publish jobs that make them the same request: one source job, the same artifact, and the same
      options, those that are JSON up to the order of keys. */
  ghost predicate AskTheSame(cfg: Config, s: State, a: JobId, b: JobId)
    requires a in s.publish.db.jobs && b in s.publish.db.jobs && a in s.sources && b in s.sources
  {
    var x, y := s.sources[a], s.sources[b];
    && cfg.idText(s.publish.db.jobs[a].sourceJob) == cfg.idText(s.publish.db.jobs[b].sourceJob)
    && x.snapshot.artifactId == y.snapshot.artifactId && x.snapshot.checksum == y.snapshot.checksum
    && x.snapshot.byteSize == y.snapshot.byteSize
    && x.options.outputFormat == y.options.outputFormat && x.options.publishMode == y.options.publishMode
    && Same(x.options.renderOptions, y.options.renderOptions)
    && Same(x.options.publicationMetadata, y.options.publicationMetadata)
  }

  lemma JsonIntegerTells(m: int, n: int)
    ensures JsonInteger(m) == JsonInteger(n) ==> m == n
  {
    DecimalReads(if m < 0 then -m else m);
    DecimalReads(if n < 0 then -n else n);
    DecimalIsNumber(if m < 0 then -m else m);
    DecimalIsNumber(if n < 0 then -n else n);
    if JsonInteger(m) == JsonInteger(n) {
      assert m < 0 <==> JsonInteger(m)[0] == '-';
      assert n < 0 <==> JsonInteger(n)[0] == '-';
      if m < 0 {
        Cancel("-", Decimal(-m), Decimal(-n));
      }
    }
  }

  lemma AskTheSameIff(cfg: Config, s: State, a: JobId, b: JobId)
    requires a in s.publish.db.jobs && b in s.publish.db.jobs && a in s.sources && b in s.sources
    ensures AskTheSame(cfg, s, a, b) <==> SameRequest(RequestFor(cfg, s, a), RequestFor(cfg, s, b))
  {
    JsonIntegerTells(s.sources[a].snapshot.byteSize, s.sources[b].snapshot.byteSize);
  }

  /** In every reachable state jobs created from the same request carry one submission key, and hence one remote job. */
  lemma SameRequestSharesRemoteJob(cfg: Config, steps: seq<Step>, a: JobId, b: JobId)
    requires IsPreorder(cfg.leq) && NamesApart(cfg.leq) && Legal(cfg, Initial(), steps)
    requires var s := After(cfg, Initial(), steps);
             && a in s.publish.db.jobs && b in s.publish.db.jobs && a in s.sources && b in s.sources
             && AskTheSame(cfg, s, a, b)
             && TieFree(s.sources[a].options.renderOptions, cfg.leq) && TieFree(s.sources[a].options.publicationMetadata, cfg.leq)
    ensures var jobs := After(cfg, Initial(), steps).publish.db.jobs;
            && jobs[a].submissionKey == jobs[b].submissionKey
            && (jobs[a].remoteJobId.Some? && jobs[b].remoteJobId.Some? ==> jobs[a].remoteJobId == jobs[b].remoteJobId)
  {
    InitialSound(cfg);
    RunKeepsSound(cfg, Initial(), steps);
    SameRequestHere(cfg, After(cfg, Initial(), steps), a, b);
  }

  lemma SameRequestHere(cfg: Config, s: State, a: JobId, b: JobId)
    requires IsPreorder(cfg.leq) && NamesApart(cfg.leq) && Sound(cfg, s) && a in s.sources && b in s.sources
    requires a in s.publish.db.jobs && b in s.publish.db.jobs && AskTheSame(cfg, s, a, b)
    requires TieFree(s.sources[a].options.renderOptions, cfg.leq) && TieFree(s.sources[a].options.publicationMetadata, cfg.leq)
    ensures var jobs := s.publish.db.jobs;
            && jobs[a].submissionKey == jobs[b].submissionKey
            && (jobs[a].remoteJobId.Some? && jobs[b].remoteJobId.Some? ==> jobs[a].remoteJobId == jobs[b].remoteJobId)
  {
    hide AskTheSame, SameRequest, IsPreorder, NamesApart;
    RequestIsValid(cfg, s, a);
    RequestIsValid(cfg, s, b);
    AskTheSameIff(cfg, s, a, b);
    FingerprintIgnoresKeyOrder(RequestFor(cfg, s, a), RequestFor(cfg, s, b), cfg.leq, cfg.sha256);
    if s.publish.db.jobs[a].remoteJobId.Some? && s.publish.db.jobs[b].remoteJobId.Some? {
      PB.EqualKeysShareRemoteJob(cfg.publish, s.publish, a, b);
    }
  }

  /** Jobs of different requests have different keys, unless the hash collides. */
  lemma DifferentRequestsDifferInKey(cfg: Config, steps: seq<Step>, a: JobId, b: JobId)
    requires IsPreorder(cfg.leq) && Legal(cfg, Initial(), steps)
    requires var s := After(cfg, Initial(), steps);
             && a in s.publish.db.jobs && b in s.publish.db.jobs && a in s.sources && b in s.sources
             && s.publish.db.jobs[a].submissionKey == s.publish.db.jobs[b].submissionKey
    ensures AskTheSame(cfg, After(cfg, Initial(), steps), a, b) ||
            exists x, y :: x != y && cfg.sha256(x) == cfg.sha256(y)
  {
    hide AskTheSame;
    InitialSound(cfg);
    RunKeepsSound(cfg, Initial(), steps);
    var s := After(cfg, Initial(), steps);
    RequestIsValid(cfg, s, a);
    RequestIsValid(cfg, s, b);
    var x, y := RequestFor(cfg, s, a), RequestFor(cfg, s, b);
    KeysTellFingerprints(PublishFingerprint(x, cfg.leq, cfg.sha256), PublishFingerprint(y, cfg.leq, cfg.sha256));
    FingerprintTellsApart(x, y, cfg.leq, cfg.sha256);
    AskTheSameIff(cfg, s, a, b);
  }

  /** What every reachable job submits under: the prefix and the hash of the JSON text of its source and options. */
  lemma KeyIs(cfg: Config, steps: seq<Step>, id: JobId) returns (text: string)
    requires IsPreorder(cfg.leq) && Legal(cfg, Initial(), steps)
    requires id in After(cfg, Initial(), steps).publish.db.jobs && id in After(cfg, Initial(), steps).sources
    ensures var s := After(cfg, Initial(), steps);
            var job, x := s.publish.db.jobs[id], s.sources[id];
            && job.submissionKey == "publish::submit:" + cfg.sha256(text)
            && Spells(Object([Member("sourceContentJobId", Text(cfg.idText(job.sourceJob))),
                              Member("sourceRenderArtifactId", Text(x.snapshot.artifactId)),
                              Member("sourceArtifactChecksumSha256", Text(x.snapshot.checksum)),
                              Member("sourceArtifactByteSize", Number(JsonInteger(x.snapshot.byteSize))),
                              Member("outputFormat", Text(x.options.outputFormat)),
                              Member("publishMode", Text(x.options.publishMode)),
                              Member("normalizedRenderOptions", x.options.renderOptions),
                              Member("normalizedPublicationMetadata", x.options.publicationMetadata)]), text, cfg.leq)
  {
    hide Spells, IsPreorder;
    InitialSound(cfg);
    RunKeepsSound(cfg, Initial(), steps);
    var s := After(cfg, Initial(), steps);
    RequestIsValid(cfg, s, id);
    text := FingerprintIs(RequestFor(cfg, s, id), cfg.leq, cfg.sha256);
  }

  // ---------------------------------------------------------------- configured schedules of both machines

  /** One clock for both machines, which does not run back, and the durations each is configured with. */
  datatype Timings = Timings(content: CK.Timing, publish: PK.Timing)

  function Tick(clock: Time, step: Step): Time {
    match step
    case ContentStep(c) => CK.Tick(clock, c)
    case PublishStep(p) => PK.Tick(clock, p)
    case InsertJob(_, _, now) => now
    case _ => clock
  }

  predicate OnTime(t: Timings, s: State, clock: Time, step: Step) {
    match step
    case ContentStep(c) => CK.OnTime(t.content, s.content, clock, c)
    case PublishStep(p) => PK.OnTime(t.publish, s.publish, clock, p)
    case InsertJob(_, _, now) => clock <= now
    case _ => true
  }

  predicate Timed(cfg: Config, t: Timings, s: State, clock: Time, steps: seq<Step>)
    requires Legal(cfg, s, steps)
    decreases |steps|
  {
    steps == []
    || (OnTime(t, s, clock, steps[0]) && Timed(cfg, t, Next(cfg, s, steps[0]), Tick(clock, steps[0]), steps[1..]))
  }

  /** From the one state to the other, with the clock the same at both ends. */
  ghost predicate Run(cfg: Config, t: Timings, clock: Time, from: State, steps: seq<Step>, to: State) {
    && Legal(cfg, from, steps) && Timed(cfg, t, from, clock, steps) && After(cfg, from, steps) == to
    && forall i :: 0 <= i < |steps| ==> Tick(clock, steps[i]) == clock
  }

  predicate Fits(cfg: Config, t: Timings, clock: Time, s: State, step: Step) {
    Enabled(cfg, s, step) && OnTime(t, s, clock, step) && Tick(clock, step) == clock
  }

  lemma Prepend(cfg: Config, t: Timings, clock: Time, from: State, step: Step, steps: seq<Step>, to: State)
    requires Fits(cfg, t, clock, from, step) && Run(cfg, t, clock, Next(cfg, from, step), steps, to)
    ensures Run(cfg, t, clock, from, [step] + steps, to)
  {
    assert ([step] + steps)[1..] == steps;
  }

  lemma {:induction false} Joined(cfg: Config, t: Timings, clock: Time, a: State, first: seq<Step>, b: State, second: seq<Step>, c: State)
    requires Run(cfg, t, clock, a, first, b) && Run(cfg, t, clock, b, second, c)
    ensures Run(cfg, t, clock, a, first + second, c)
    decreases |first|
  {
    hide Enabled, Next, OnTime;
    if first == [] {
      assert first + second == second;
    } else {
      var next, rest := Next(cfg, a, first[0]), first[1..];
      assert Run(cfg, t, clock, next, rest, b);
      Joined(cfg, t, clock, next, rest, b, second, c);
      Prepend(cfg, t, clock, a, first[0], rest + second, c);
      assert first + second == [first[0]] + (rest + second);
    }
  }

  /** Some configured schedule leads from the start to this state while the clock stands at zero. */
  ghost predicate Reached(cfg: Config, t: Timings, s: State) {
    exists steps :: Run(cfg, t, 0, Initial(), steps, s)
  }

  lemma Go(cfg: Config, t: Timings, s: State, step: Step) returns (n: State)
    requires Reached(cfg, t, s) && Fits(cfg, t, 0, s, step)
    ensures Reached(cfg, t, n) && n == Next(cfg, s, step)
  {
    var steps :| Run(cfg, t, 0, Initial(), steps, s);
    n := Next(cfg, s, step);
    assert Run(cfg, t, 0, n, [], n);
    Prepend(cfg, t, 0, s, step, [], n);
    Joined(cfg, t, 0, Initial(), steps, s, [step] + [], n);
  }

  function PublishSteps(steps: seq<PP.Step>): seq<Step> {
    if steps == [] then [] else [PublishStep(steps[0])] + PublishSteps(steps[1..])
  }

  /** Publish schedules that create nothing are schedules of both machines. */
  lemma {:induction false} Lifted(cfg: Config, t: Timings, s: State, steps: seq<PP.Step>, q: PP.State)
    requires PK.Run(cfg.publish, t.publish, s.publish, 0, steps, q, 0) && PK.NoCreates(steps)
    ensures Run(cfg, t, 0, s, PublishSteps(steps), s.(publish := q))
    decreases |steps|
  {
    hide PK.Fits;
    if steps == [] {
      assert s == s.(publish := q);
    } else {
      var step := PublishStep(steps[0]);
      ClockStands(cfg.publish, t.publish, PP.Next(cfg.publish, s.publish, steps[0]), PK.Tick(0, steps[0]), steps[1..]);
      Lifted(cfg, t, Next(cfg, s, step), steps[1..], q);
      Prepend(cfg, t, 0, s, step, PublishSteps(steps[1..]), s.(publish := q));
    }
  }

  lemma {:induction false} ClockStands(cfg: PP.Config, t: PK.Timing, s: PP.State, clock: Time, steps: seq<PP.Step>)
    requires PP.Legal(cfg, s, steps) && PK.Timed(cfg, t, s, clock, steps)
    ensures clock <= PK.ClockAfter(clock, steps)
    decreases |steps|
  {
    if steps != [] {
      ClockStands(cfg, t, PP.Next(cfg, s, steps[0]), PK.Tick(clock, steps[0]), steps[1..]);
    }
  }

  lemma PublishGoes(cfg: Config, t: Timings, s: State, q: PP.State) returns (n: State)
    requires Reached(cfg, t, s) && PK.Leads(cfg.publish, t.publish, s.publish, 0, q, 0)
    ensures Reached(cfg, t, n) && n == s.(publish := q)
  {
    var before :| Run(cfg, t, 0, Initial(), before, s);
    var steps :| PK.Run(cfg.publish, t.publish, s.publish, 0, steps, q, 0) && PK.NoCreates(steps);
    n := s.(publish := q);
    Lifted(cfg, t, s, steps, q);
    Joined(cfg, t, 0, Initial(), before, s, PublishSteps(steps), n);
  }

  // ---------------------------------------------------------------- two jobs that do share a remote job

  /** Content job 0 is completed with this artifact, and nothing else has happened. */
  predicate SourceReady(s: State, artifact: C.RenderArtifact) {
    && 0 in s.content.db.jobs && s.content.db.jobs[0].status.Completed?
    && s.content.db.jobs[0].tenant == 0 && s.content.db.jobs[0].project == 0
    && s.content.db.jobs[0].result == Some(C.JobResult(Some(artifact)))
    && s.publish == PP.Initial() && s.pending == map[] && s.sources == map[]
  }

  lemma ClaimSource(cfg: Config, t: Timings) returns (s: State)
    requires cfg.content.concurrency >= 1
    ensures Reached(cfg, t, s) && s == Initial().(content := s.content)
    ensures 0 in s.content.db.jobs && s.content.db.jobs[0].tenant == 0 && s.content.db.jobs[0].project == 0
    ensures 0 in s.content.live && s.content.live[0].job == 0 && s.content.live[0].worker == 0 && s.content.live[0].claim.tenant == 0
    ensures t.content.leaseMs > 0 ==> C.Holds(s.content.db.jobs[0], 0, 0)
  {
    assert Run(cfg, t, 0, Initial(), [], Initial());
    hide Reached;
    s := Go(cfg, t, Initial(), ContentStep(CP.DoCreate(0, 0, 0, 0)));
    assert CP.LiveOf(s.content, 0) == {};
    s := Go(cfg, t, s, ContentStep(CP.DoClaim(0, 0, 0, t.content.leaseMs, 0)));
  }

  lemma CompleteSource(cfg: Config, t: Timings, artifact: C.RenderArtifact) returns (s: State)
    requires cfg.content.concurrency >= 1 && t.content.leaseMs > 0
    ensures Reached(cfg, t, s) && SourceReady(s, artifact)
  {
    hide Reached;
    s := ClaimSource(cfg, t);
    s := Go(cfg, t, s, ContentStep(CP.DoComplete(0, C.JobResult(Some(artifact)), 0)));
  }

  /** Two creations have read one source with one set of options. */
  predicate BothRead(s: State, p: Pending) {
    && s.publish == PP.Initial() && s.sources == map[] && s.pending == map[0 := p, 1 := p]
    && p.tenant == 0 && p.project == 0 && p.sourceJob == 0 && SourceFound(s, p)
  }

  lemma ReadTwice(cfg: Config, t: Timings, ready: State, artifact: C.RenderArtifact, options: Options) returns (s: State, p: Pending)
    requires Reached(cfg, t, ready) && SourceReady(ready, artifact) && ValidOptions(options)
    requires CreatePublishSourceSnapshot(ready.content.db.jobs[0], cfg.idText(0), 0, cfg.sha256).Ok?
    ensures Reached(cfg, t, s) && BothRead(s, p)
  {
    hide Reached;
    var r := CreatePublishSourceSnapshot(ready.content.db.jobs[0], cfg.idText(0), 0, cfg.sha256);
    p := Pending(0, 0, 0, r.snapshot, options);
    s := Go(cfg, t, ready, ReadSource(0, 0, 0, 0, options));
    s := Go(cfg, t, s, ReadSource(1, 0, 0, 0, options));
  }

  /** Publish jobs 0 and 1 are queued under one key. */
  predicate Queued(s: State, key: P.SubmissionKey) {
    s.publish.live == map[] && s.publish.db.jobs == map[0 := P.NewJob(0, 0, key, 0), 1 := P.NewJob(0, 0, key, 0)]
  }

  lemma InsertOne(cfg: Config, t: Timings, read: State, creator: nat, id: JobId) returns (s: State)
    requires Reached(cfg, t, read) && creator in read.pending && id !in read.publish.db.jobs
    requires SourceFound(read, read.pending[creator])
    ensures Reached(cfg, t, s) && s.content == read.content && s.pending == read.pending - {creator}
    ensures var p := read.pending[creator];
            && s.publish.live == read.publish.live
            && s.publish.db.jobs ==
               read.publish.db.jobs[id := P.NewJob(p.tenant, p.sourceJob, KeyOf(cfg, p.sourceJob, SourceOf(p)), 0)]
  {
    hide Reached;
    var step := InsertJob(creator, id, 0);
    CreatedRow(cfg.publish, read.publish, CreationOf(cfg, read, step));
    s := Go(cfg, t, read, step);
  }

  lemma InsertTwice(cfg: Config, t: Timings, read: State, p: Pending) returns (s: State)
    requires Reached(cfg, t, read) && BothRead(read, p)
    ensures Reached(cfg, t, s) && Queued(s, KeyOf(cfg, 0, SourceOf(p)))
  {
    hide Reached;
    s := InsertOne(cfg, t, read, 0, 0);
    s := InsertOne(cfg, t, s, 1, 1);
  }

  /** Worker 0 claims the queued job, reads it, submits it, records the answer and dies, all at clock zero. */
  lemma SubmitJob(cfg: PP.Config, t: PK.Timing, queued: PP.State, id: JobId, key: P.SubmissionKey) returns (s: PP.State)
    requires cfg.concurrency >= 1 && t.leaseMs > 0
    requires queued.live == map[] && id in queued.db.jobs && queued.db.jobs[id] == P.NewJob(0, 0, key, 0)
    ensures PK.Leads(cfg, t, queued, 0, s, 0) && s.live == map[]
    ensures id in s.db.jobs && s.db.jobs[id].remoteJobId == Some(cfg.remote(key))
    ensures s.db.jobs == queued.db.jobs[id := s.db.jobs[id]]
  {
    hide PK.Leads;
    PK.StaysThere(cfg, t, queued, 0);
    assert PP.LiveOf(queued, 0) == {};
    s := PK.Claims(cfg, t, queued, 0, queued, 0, 0, id, 0, 0);
    s := PK.Reads(cfg, t, queued, 0, s, 0, 0);
    s := PK.Sends(cfg, t, queued, 0, s, 0, 0);
    s := PK.Records(cfg, t, queued, 0, s, 0, 0);
    s := PK.Dies(cfg, t, queued, 0, s, 0, 0);
  }

  lemma SubmitBoth(cfg: Config, t: Timings, queued: State, key: P.SubmissionKey) returns (s: State)
    requires cfg.publish.concurrency >= 1 && t.publish.leaseMs > 0 && Reached(cfg, t, queued) && Queued(queued, key)
    ensures Reached(cfg, t, s) && 0 in s.publish.db.jobs && 1 in s.publish.db.jobs
    ensures s.publish.db.jobs[0].remoteJobId == s.publish.db.jobs[1].remoteJobId == Some(cfg.publish.remote(key))
  {
    hide Reached;
    var q := SubmitJob(cfg.publish, t.publish, queued.publish, 0, key);
    s := PublishGoes(cfg, t, queued, q);
    q := SubmitJob(cfg.publish, t.publish, s.publish, 1, key);
    s := PublishGoes(cfg, t, s, q);
  }

  /** For every artifact that can be published and all options, two creations end up with one remote job, on a configured
      schedule of both machines. */
  lemma TwoJobsOneRemoteJob(cfg: Config, t: Timings, artifact: C.RenderArtifact, options: Options) returns (steps: seq<Step>)
    requires cfg.content.concurrency >= 1 && cfg.publish.concurrency >= 1 && ValidOptions(options)
    requires t.content.leaseMs > 0 && t.publish.leaseMs > 0
    requires Publishable(artifact, cfg.sha256)
    ensures Legal(cfg, Initial(), steps) && Timed(cfg, t, Initial(), 0, steps)
    ensures var jobs := After(cfg, Initial(), steps).publish.db.jobs;
            0 in jobs && 1 in jobs && jobs[0].remoteJobId.Some? && jobs[0].remoteJobId == jobs[1].remoteJobId
  {
    HexIs(artifact.checksum);
    var s := CompleteSource(cfg, t, artifact);
    var p;
    s, p := ReadTwice(cfg, t, s, artifact, options);
    s := InsertTwice(cfg, t, s, p);
    s := SubmitBoth(cfg, t, s, KeyOf(cfg, 0, SourceOf(p)));
    steps :| Run(cfg, t, 0, Initial(), steps, s);
  }
}
