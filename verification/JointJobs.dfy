/**
 * Both machines over one database. Creating a publish job reads the content row first and inserts later, with any steps of
 * workers, cancellers and sweeps in between; the snapshot columns are written once, at the insert.
 */
module JointJobs {
  import opened Basics
  import opened JsonText
  import opened Canonical
  import opened Fingerprints
  import opened SourceEligibility
  import C = ContentJobs
  import CP = ContentProtocol
  import P = PublishJobs
  import PP = PublishProtocol

  datatype Config = Config(
    content: CP.Config, publish: PP.Config, sha256: string -> string, leq: Collation, idText: JobId -> string)

  /** The rest of a creation request. */
  datatype Options = Options(outputFormat: string, publishMode: string, renderOptions: Json, publicationMetadata: Json)

  /** Parsed JSON, and metadata where the mode asks for it. */
  predicate ValidOptions(o: Options) {
    WellFormed(o.renderOptions) && WellFormed(o.publicationMetadata) && !(o.publishMode == "cta-guide" && o.publicationMetadata.Null?)
  }

  /** A creation between its read and its insert. */
  datatype Pending = Pending(tenant: TenantId, project: ProjectId, sourceJob: JobId, snapshot: Snapshot, options: Options)

  /** The columns of a publish row that no later write touches. */
  datatype Source = Source(project: ProjectId, snapshot: Snapshot, options: Options)

  /** What makes two creations the same request. */
  function RequestOf(cfg: Config, sourceJob: JobId, source: Source): PublishRequest {
    PublishRequest(cfg.idText(sourceJob), source.snapshot.artifactId, source.snapshot.checksum,
                   JsonInteger(source.snapshot.byteSize), source.options.outputFormat, source.options.publishMode,
                   source.options.renderOptions, source.options.publicationMetadata)
  }

  /** The remote submission key is built from the request's fingerprint. */
  function KeyOf(cfg: Config, sourceJob: JobId, source: Source): P.SubmissionKey {
    KEY_PREFIX + PublishFingerprint(RequestOf(cfg, sourceJob, source), cfg.leq, cfg.sha256)
  }

  const KEY_PREFIX := "publish::submit:"

  datatype State = State(content: CP.State, publish: PP.State, pending: map<nat, Pending>, sources: map<JobId, Source>)

  datatype Step =
    | ContentStep(content: CP.Step)
    | PublishStep(publish: PP.Step)
    | ReadSource(creator: nat, tenant: TenantId, project: ProjectId, sourceJob: JobId, options: Options)
    | InsertJob(creator: nat, id: JobId, now: Time)
    | GiveUp(creator: nat)

  function Initial(): State {
    State(CP.Initial(), PP.Initial(), map[], map[])
  }

  function CreationOf(cfg: Config, s: State, step: Step): PP.Step
    requires step.InsertJob? && step.creator in s.pending
  {
    var p := s.pending[step.creator];
    PP.DoCreate(step.id, p.tenant, p.sourceJob, KeyOf(cfg, p.sourceJob, SourceOf(p)), step.now)
  }

  function SourceOf(p: Pending): Source {
    Source(p.project, p.snapshot, p.options)
  }

  predicate Enabled(cfg: Config, s: State, step: Step) {
    match step
    case ContentStep(c) => CP.Enabled(cfg.content, s.content, c)
    case PublishStep(p) => !p.DoCreate? && PP.Enabled(cfg.publish, s.publish, p)
    case ReadSource(c, tenant, project, source, options) =>
      && c !in s.pending && ValidOptions(options)
      && source in s.content.db.jobs && s.content.db.jobs[source].tenant == tenant
      && CreatePublishSourceSnapshot(s.content.db.jobs[source], cfg.idText(source), project, cfg.sha256).Ok?
    case InsertJob(c, id, _) => c in s.pending && id !in s.publish.db.jobs
    case GiveUp(c) => c in s.pending
  }

  /** The insert's own check that the source job is still there, in its tenant and project. */
  predicate SourceFound(s: State, p: Pending) {
    p.sourceJob in s.content.db.jobs && s.content.db.jobs[p.sourceJob].tenant == p.tenant &&
    s.content.db.jobs[p.sourceJob].project == p.project
  }

  function Next(cfg: Config, s: State, step: Step): State
    requires Enabled(cfg, s, step)
  {
    match step
    case ContentStep(c) => s.(content := CP.Next(cfg.content, s.content, c))
    case PublishStep(p) => s.(publish := PP.Next(cfg.publish, s.publish, p))
    case ReadSource(c, tenant, project, source, options) =>
      var r := CreatePublishSourceSnapshot(s.content.db.jobs[source], cfg.idText(source), project, cfg.sha256);
      s.(pending := s.pending[c := Pending(tenant, project, source, r.snapshot, options)])
    case InsertJob(c, id, now) =>
      var p, rest := s.pending[c], s.pending - {c};
      if SourceFound(s, p) then
        State(s.content, PP.Next(cfg.publish, s.publish, CreationOf(cfg, s, step)), rest,
              s.sources[id := SourceOf(p)])
      else s.(pending := rest)
    case GiveUp(c) => s.(pending := s.pending - {c})
  }

  predicate Legal(cfg: Config, s: State, steps: seq<Step>)
    decreases |steps|
  {
    steps == [] || (Enabled(cfg, s, steps[0]) && Legal(cfg, Next(cfg, s, steps[0]), steps[1..]))
  }

  function After(cfg: Config, s: State, steps: seq<Step>): State
    requires Legal(cfg, s, steps)
    decreases |steps|
  {
    if steps == [] then s else After(cfg, Next(cfg, s, steps[0]), steps[1..])
  }

  // ---------------------------------------------------------------- what every run keeps

  /** The content row is completed, in scope, and creating the snapshot from it now would give this one. */
  predicate Matches(cfg: Config, db: C.Db, tenant: TenantId, sourceJob: JobId, source: Source) {
    && ValidOptions(source.options)
    && sourceJob in db.jobs
    && db.jobs[sourceJob].tenant == tenant && db.jobs[sourceJob].project == source.project
    && db.jobs[sourceJob].status.Completed?
    && CreatePublishSourceSnapshot(db.jobs[sourceJob], cfg.idText(sourceJob), source.project, cfg.sha256) == Ok(source.snapshot)
  }

  ghost predicate Sound(cfg: Config, s: State) {
    && CP.Sound(s.content) && PP.Sound(cfg.publish, s.publish)
    && (forall c :: c in s.pending ==> PendingSound(cfg, s.content.db, s.pending[c]))
    && s.publish.db.jobs.Keys == s.sources.Keys
    && (forall id :: id in s.sources ==> SourceSound(cfg, s.content.db, s.publish.db, id, s.sources[id]))
  }

  predicate PendingSound(cfg: Config, db: C.Db, p: Pending) {
    Matches(cfg, db, p.tenant, p.sourceJob, SourceOf(p))
  }

  predicate SourceSound(cfg: Config, db: C.Db, publish: P.Db, id: JobId, source: Source) {
    && id in publish.jobs
    && Matches(cfg, db, publish.jobs[id].tenant, publish.jobs[id].sourceJob, source)
    && publish.jobs[id].submissionKey == KeyOf(cfg, publish.jobs[id].sourceJob, source)
  }

  /** A completed row is frozen, so what matched it goes on matching. */
  lemma ContentKeepsMatch(cfg: Config, s: CP.State, c: CP.Step, tenant: TenantId, sourceJob: JobId, source: Source)
    requires CP.Sound(s) && CP.Enabled(cfg.content, s, c) && Matches(cfg, s.db, tenant, sourceJob, source)
    ensures Matches(cfg, CP.Next(cfg.content, s, c).db, tenant, sourceJob, source)
  {
    CP.StepMovesRows(cfg.content, s, c, sourceJob);
    assert CP.Next(cfg.content, s, c).db.jobs[sourceJob] == s.db.jobs[sourceJob];
  }

  lemma ContentStepKeepsSound(cfg: Config, s: State, step: Step)
    requires Sound(cfg, s) && Enabled(cfg, s, step) && step.ContentStep?
    ensures Sound(cfg, Next(cfg, s, step))
  {
    CP.StepKeepsSound(cfg.content, s.content, step.content);
    var db := CP.Next(cfg.content, s.content, step.content).db;
    forall c | c in s.pending ensures PendingSound(cfg, db, s.pending[c]) {
      var p := s.pending[c];
      assert PendingSound(cfg, s.content.db, p);
      ContentKeepsMatch(cfg, s.content, step.content, p.tenant, p.sourceJob, SourceOf(p));
    }
    forall id | id in s.sources ensures SourceSound(cfg, db, s.publish.db, id, s.sources[id]) {
      assert SourceSound(cfg, s.content.db, s.publish.db, id, s.sources[id]);
      var row := s.publish.db.jobs[id];
      ContentKeepsMatch(cfg, s.content, step.content, row.tenant, row.sourceJob, s.sources[id]);
    }
  }

  lemma OnlyCreateAdds(cfg: PP.Config, s: PP.State, p: PP.Step, id: JobId)
    requires PP.Enabled(cfg, s, p) && !p.DoCreate? && id in PP.Write(cfg, s, p).jobs
    ensures id in s.db.jobs
  {
  }

  /** Publish steps other than creation keep the rows, each with its tenant, source job and key. */
  lemma RowsKept(cfg: PP.Config, s: PP.State, p: PP.Step)
    requires PP.Sound(cfg, s) && PP.Enabled(cfg, s, p) && !p.DoCreate?
    ensures PP.Write(cfg, s, p).jobs.Keys == s.db.jobs.Keys
    ensures forall id :: id in s.db.jobs ==>
              PP.Write(cfg, s, p).jobs[id].tenant == s.db.jobs[id].tenant &&
              PP.Write(cfg, s, p).jobs[id].sourceJob == s.db.jobs[id].sourceJob &&
              PP.Write(cfg, s, p).jobs[id].submissionKey == s.db.jobs[id].submissionKey
  {
    forall id | id in s.db.jobs
      ensures id in PP.Write(cfg, s, p).jobs
      ensures PP.Write(cfg, s, p).jobs[id].tenant == s.db.jobs[id].tenant
      ensures PP.Write(cfg, s, p).jobs[id].sourceJob == s.db.jobs[id].sourceJob
      ensures PP.Write(cfg, s, p).jobs[id].submissionKey == s.db.jobs[id].submissionKey
    {
      PP.StepMovesRow(cfg, s, p, id);
    }
    forall id | id in PP.Write(cfg, s, p).jobs ensures id in s.db.jobs {
      OnlyCreateAdds(cfg, s, p, id);
    }
  }

  /** Sources only look at the tenant, source job and key of their publish row. */
  lemma SourcesStay(cfg: Config, db: C.Db, before: P.Db, after: P.Db, sources: map<JobId, Source>)
    requires after.jobs.Keys == before.jobs.Keys
    requires forall id :: id in before.jobs ==>
               after.jobs[id].tenant == before.jobs[id].tenant && after.jobs[id].sourceJob == before.jobs[id].sourceJob &&
               after.jobs[id].submissionKey == before.jobs[id].submissionKey
    requires forall id :: id in sources ==> SourceSound(cfg, db, before, id, sources[id])
    ensures forall id :: id in sources ==> SourceSound(cfg, db, after, id, sources[id])
  {
  }

  lemma PublishStepKeepsSound(cfg: Config, s: State, step: Step)
    requires Sound(cfg, s) && Enabled(cfg, s, step) && step.PublishStep?
    ensures Sound(cfg, Next(cfg, s, step))
  {
    PP.StepKeepsSound(cfg.publish, s.publish, step.publish);
    RowsKept(cfg.publish, s.publish, step.publish);
    SourcesStay(cfg, s.content.db, s.publish.db, PP.Write(cfg.publish, s.publish, step.publish), s.sources);
  }

  /** After a publish row is created, its key and its source are stored, and all other rows are as before. */
  lemma SourcesWithNew(cfg: Config, db: C.Db, before: P.Db, after: P.Db, sources: map<JobId, Source>, more: map<JobId, Source>,
                       id: JobId, p: Pending, key: P.SubmissionKey, now: Time)
    requires after.jobs == before.jobs[id := P.NewJob(p.tenant, p.sourceJob, key, now)]
    requires key == KeyOf(cfg, p.sourceJob, SourceOf(p)) && more == sources[id := SourceOf(p)]
    requires PendingSound(cfg, db, p) && before.jobs.Keys == sources.Keys
    requires forall k :: k in sources ==> SourceSound(cfg, db, before, k, sources[k])
    ensures after.jobs.Keys == more.Keys && forall k :: k in more ==> SourceSound(cfg, db, after, k, more[k])
  {
    forall k | k in more ensures SourceSound(cfg, db, after, k, more[k]) {
      if k != id {
        assert SourceSound(cfg, db, before, k, sources[k]);
      }
    }
  }

  lemma CreatedRow(cfg: PP.Config, s: PP.State, p: PP.Step)
    requires PP.Enabled(cfg, s, p) && p.DoCreate?
    ensures PP.Next(cfg, s, p).db.jobs == s.db.jobs[p.id := P.NewJob(p.tenant, p.sourceJob, p.key, p.now)]
  {
  }

  lemma SoundFromParts(cfg: Config, before: State, after: State)
    requires Sound(cfg, before) && after.content == before.content && PP.Sound(cfg.publish, after.publish)
    requires forall c :: c in after.pending ==> c in before.pending && after.pending[c] == before.pending[c]
    requires after.publish.db.jobs.Keys == after.sources.Keys
    requires forall id :: id in after.sources ==> SourceSound(cfg, after.content.db, after.publish.db, id, after.sources[id])
    ensures Sound(cfg, after)
  {
  }

  lemma InsertKeepsSound(cfg: Config, s: State, step: Step)
    requires Sound(cfg, s) && Enabled(cfg, s, step) && step.InsertJob? && SourceFound(s, s.pending[step.creator])
    ensures Sound(cfg, Next(cfg, s, step))
  {
    var p, create, n := s.pending[step.creator], CreationOf(cfg, s, step), Next(cfg, s, step);
    PP.StepKeepsSound(cfg.publish, s.publish, create);
    assert PendingSound(cfg, s.content.db, p);
    CreatedRow(cfg.publish, s.publish, create);
    SourcesWithNew(cfg, s.content.db, s.publish.db, n.publish.db, s.sources, n.sources, step.id, p, create.key, step.now);
    SoundFromParts(cfg, s, n);
  }

  lemma ReadKeepsSound(cfg: Config, s: State, step: Step)
    requires Sound(cfg, s) && Enabled(cfg, s, step) && step.ReadSource?
    ensures Sound(cfg, Next(cfg, s, step))
  {
    var n := Next(cfg, s, step);
    forall c | c in n.pending ensures PendingSound(cfg, n.content.db, n.pending[c]) {
      if c != step.creator {
        assert PendingSound(cfg, s.content.db, s.pending[c]);
      }
    }
  }

  lemma StepKeepsSound(cfg: Config, s: State, step: Step)
    requires Sound(cfg, s) && Enabled(cfg, s, step)
    ensures Sound(cfg, Next(cfg, s, step))
  {
    if step.ContentStep? {
      ContentStepKeepsSound(cfg, s, step);
    } else if step.PublishStep? {
      PublishStepKeepsSound(cfg, s, step);
    } else if step.InsertJob? && SourceFound(s, s.pending[step.creator]) {
      InsertKeepsSound(cfg, s, step);
    } else if step.ReadSource? {
      ReadKeepsSound(cfg, s, step);
    } else {
      SoundFromParts(cfg, s, Next(cfg, s, step));
    }
  }

  lemma {:induction false} RunKeepsSound(cfg: Config, s: State, steps: seq<Step>)
    requires Sound(cfg, s) && Legal(cfg, s, steps)
    ensures Sound(cfg, After(cfg, s, steps))
    decreases |steps|
  {
    if steps != [] {
      StepKeepsSound(cfg, s, steps[0]);
      RunKeepsSound(cfg, Next(cfg, s, steps[0]), steps[1..]);
    }
  }

  lemma InitialSound(cfg: Config)
    ensures Sound(cfg, Initial())
  {
  }

  // ---------------------------------------------------------------- the promise

  /**
   * In every reachable state a publish job's source is a completed content job of its tenant and project whose stored
   * artifact is still the snapshot, and the snapshot passes the checks before submission if and only if its id fits.
   */
  lemma SnapshotsStayTrue(cfg: Config, steps: seq<Step>, id: JobId)
    requires Legal(cfg, Initial(), steps) && id in After(cfg, Initial(), steps).publish.db.jobs
    ensures var s := After(cfg, Initial(), steps);
            var row := s.publish.db.jobs[id];
            && id in s.sources && row.sourceJob in s.content.db.jobs
            && (var job, source := s.content.db.jobs[row.sourceJob], s.sources[id];
                && job.tenant == row.tenant && job.project == source.project && job.status.Completed?
                && job.result.Some? && job.result.value.renderArtifact.Some?
                && (var a := job.result.value.renderArtifact.value;
                    && source.snapshot.payload == a.payload
                    && source.snapshot.byteSize == a.byteSize
                    && source.snapshot.checksum == a.checksum)
                && (PassesSubmission(source.snapshot, cfg.sha256) <==>
                    Utf16Length(source.snapshot.artifactId) <= 120))
  {
    hide Sound;
    InitialSound(cfg);
    RunKeepsSound(cfg, Initial(), steps);
    var s := After(cfg, Initial(), steps);
    var row := s.publish.db.jobs[id];
    assert SourceSound(cfg, s.content.db, s.publish.db, id, s.sources[id]);
    SnapshotPassesIff(s.content.db.jobs[row.sourceJob], cfg.idText(row.sourceJob), s.sources[id].project, cfg.sha256);
  }

  /** However long a creation pauses between read and insert, the insert finds the source. */
  lemma InsertFindsSource(cfg: Config, steps: seq<Step>, creator: nat)
    requires Legal(cfg, Initial(), steps) && creator in After(cfg, Initial(), steps).pending
    ensures SourceFound(After(cfg, Initial(), steps), After(cfg, Initial(), steps).pending[creator])
  {
    InitialSound(cfg);
    RunKeepsSound(cfg, Initial(), steps);
    assert PendingSound(cfg, After(cfg, Initial(), steps).content.db, After(cfg, Initial(), steps).pending[creator]);
  }
}
