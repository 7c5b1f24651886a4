/** Source versions: each creation is one transaction under an advisory lock, so each scope numbers its contents 1, 2, 3, ... */
module SourceVersions {
  import opened Basics
  import opened Transcript

  type Hash = string -> string

  datatype SourceVersion = SourceVersion(
    tenantId: TenantId, projectId: ProjectId, versionNumber: nat, contentHash: string, transcriptText: string)

  datatype Input = Input(tenantId: TenantId, projectId: ProjectId, transcriptText: string)

  datatype Result = Created(version: SourceVersion) | Existing(version: SourceVersion) | EmptyTranscript

  // ---------------------------------------------------------------- what the queries see

  /** The rows of one tenant and project, in insertion order. */
  function Scoped(rows: seq<SourceVersion>, tenantId: TenantId, projectId: ProjectId): seq<SourceVersion> {
    if rows == [] then []
    else
      var last := rows[|rows| - 1];
      Scoped(rows[..|rows| - 1], tenantId, projectId) +
      (if last.tenantId == tenantId && last.projectId == projectId then [last] else [])
  }

  function FindByHash(rows: seq<SourceVersion>, contentHash: string): Option<SourceVersion> {
    if rows == [] then None
    else if rows[0].contentHash == contentHash then Some(rows[0])
    else FindByHash(rows[1..], contentHash)
  }

  /** The highest version number, or zero. */
  function Latest(rows: seq<SourceVersion>): nat {
    if rows == [] then 0 else Max(Latest(rows[..|rows| - 1]), rows[|rows| - 1].versionNumber)
  }

  // ---------------------------------------------------------------- one transaction

  /** The new row a transaction would insert. */
  function NewVersion(rows: seq<SourceVersion>, input: Input, sha256: Hash): SourceVersion {
    SourceVersion(input.tenantId, input.projectId, Latest(Scoped(rows, input.tenantId, input.projectId)) + 1,
                  ComputeTranscriptHash(NormalizeTranscript(input.transcriptText), sha256),
                  NormalizeTranscript(input.transcriptText))
  }

  function Outcome(rows: seq<SourceVersion>, input: Input, sha256: Hash): Result {
    if NormalizeTranscript(input.transcriptText) == "" then EmptyTranscript
    else
      var v := NewVersion(rows, input, sha256);
      var existing := FindByHash(Scoped(rows, input.tenantId, input.projectId), v.contentHash);
      if existing.Some? then Existing(existing.value) else Created(v)
  }

  function After(rows: seq<SourceVersion>, input: Input, sha256: Hash): seq<SourceVersion> {
    var r := Outcome(rows, input, sha256);
    if r.Created? then rows + [r.version] else rows
  }

  /** Versions 1 to n in order, one per content hash, each the hash of its own normal form. */
  ghost predicate Numbered(rows: seq<SourceVersion>, sha256: Hash) {
    && (forall i :: 0 <= i < |rows| ==>
          && rows[i].versionNumber == i + 1
          && rows[i].transcriptText != "" && IsNormal(rows[i].transcriptText)
          && rows[i].contentHash == sha256(rows[i].transcriptText))
    && forall i, k :: 0 <= i < k < |rows| ==> rows[i].contentHash != rows[k].contentHash
  }

  ghost predicate AllNumbered(rows: seq<SourceVersion>, sha256: Hash) {
    forall t, p :: Numbered(Scoped(rows, t, p), sha256)
  }

  lemma {:induction false} FindByHashFinds(rows: seq<SourceVersion>, contentHash: string)
    ensures var r := FindByHash(rows, contentHash);
            if r.Some? then r.value in rows && r.value.contentHash == contentHash
            else forall i :: 0 <= i < |rows| ==> rows[i].contentHash != contentHash
  {
    if rows != [] {
      FindByHashFinds(rows[1..], contentHash);
    }
  }

  lemma {:induction false} LatestIsLength(rows: seq<SourceVersion>)
    requires forall i :: 0 <= i < |rows| ==> rows[i].versionNumber == i + 1
    ensures Latest(rows) == |rows|
    decreases |rows|
  {
    if rows != [] {
      LatestIsLength(rows[..|rows| - 1]);
    }
  }

  lemma ScopedMore(rows: seq<SourceVersion>, v: SourceVersion, t: TenantId, p: ProjectId)
    ensures Scoped(rows + [v], t, p) == Scoped(rows, t, p) + (if v.tenantId == t && v.projectId == p then [v] else [])
  {
    assert (rows + [v])[..|rows|] == rows;
  }

  lemma NumberedMore(rows: seq<SourceVersion>, v: SourceVersion, sha256: Hash)
    requires Numbered(rows, sha256) && v.versionNumber == |rows| + 1
    requires v.transcriptText != "" && IsNormal(v.transcriptText) && v.contentHash == sha256(v.transcriptText)
    requires forall i :: 0 <= i < |rows| ==> rows[i].contentHash != v.contentHash
    ensures Numbered(rows + [v], sha256)
  {
  }

  /** What the new row is, in the words of the design. */
  lemma NewVersionFits(rows: seq<SourceVersion>, input: Input, sha256: Hash)
    requires AllNumbered(rows, sha256)
    ensures var v := NewVersion(rows, input, sha256);
            && v.versionNumber == |Scoped(rows, input.tenantId, input.projectId)| + 1
            && IsNormal(v.transcriptText) && v.contentHash == sha256(v.transcriptText)
  {
    assert Numbered(Scoped(rows, input.tenantId, input.projectId), sha256);
    LatestIsLength(Scoped(rows, input.tenantId, input.projectId));
    NormalizeIsNormal(input.transcriptText);
    HashOfStoredText(input.transcriptText, sha256);
  }

  lemma CreateKeepsNumbering(rows: seq<SourceVersion>, input: Input, sha256: Hash)
    requires AllNumbered(rows, sha256)
    ensures AllNumbered(After(rows, input, sha256), sha256)
  {
    var r := Outcome(rows, input, sha256);
    if r.Created? {
      var v := r.version;
      NewVersionFits(rows, input, sha256);
      FindByHashFinds(Scoped(rows, input.tenantId, input.projectId), v.contentHash);
      forall t, p ensures Numbered(Scoped(rows + [v], t, p), sha256) {
        ScopedMore(rows, v, t, p);
        assert Numbered(Scoped(rows, t, p), sha256);
        if v.tenantId == t && v.projectId == p {
          NumberedMore(Scoped(rows, t, p), v, sha256);
        } else {
          assert Scoped(rows, t, p) + [] == Scoped(rows, t, p);
        }
      }
    }
  }

  /** Whether new or found, the version returned is stored in the scope under the hash of the normal form asked for. */
  lemma OutcomeStored(rows: seq<SourceVersion>, input: Input, sha256: Hash)
    requires AllNumbered(rows, sha256)
    ensures var r := Outcome(rows, input, sha256);
            r.EmptyTranscript? ||
            (&& r.version in Scoped(After(rows, input, sha256), input.tenantId, input.projectId)
             && r.version.contentHash == sha256(NormalizeTranscript(input.transcriptText)))
  {
    var r, v := Outcome(rows, input, sha256), NewVersion(rows, input, sha256);
    var scoped := Scoped(rows, input.tenantId, input.projectId);
    NewVersionFits(rows, input, sha256);
    FindByHashFinds(scoped, v.contentHash);
    ScopedMore(rows, v, input.tenantId, input.projectId);
  }

  /** The positions of the rows of one tenant and project. */
  function InScope(rows: seq<SourceVersion>, tenantId: TenantId, projectId: ProjectId): set<nat> {
    set i: nat | i < |rows| && rows[i].tenantId == tenantId && rows[i].projectId == projectId
  }

  /** A row of the input's tenant and project has this hash. */
  ghost predicate StoredFor(rows: seq<SourceVersion>, input: Input, contentHash: string) {
    exists i :: 0 <= i < |rows| && rows[i].tenantId == input.tenantId && rows[i].projectId == input.projectId
      && rows[i].contentHash == contentHash
  }

  lemma {:induction false} ScopedIs(rows: seq<SourceVersion>, t: TenantId, p: ProjectId)
    ensures forall v :: v in Scoped(rows, t, p) <==> v in rows && v.tenantId == t && v.projectId == p
    decreases |rows|
  {
    if rows != [] {
      var init, last := rows[..|rows| - 1], rows[|rows| - 1];
      ScopedIs(init, t, p);
      assert rows == init + [last];
    }
  }

  lemma InScopeMore(init: seq<SourceVersion>, last: SourceVersion, t: TenantId, p: ProjectId)
    ensures |InScope(init + [last], t, p)| == |InScope(init, t, p)| + if last.tenantId == t && last.projectId == p then 1 else 0
  {
    var own: set<nat> := if last.tenantId == t && last.projectId == p then {|init|} else {};
    assert InScope(init + [last], t, p) == InScope(init, t, p) + own;
  }

  lemma {:induction false} ScopedCount(rows: seq<SourceVersion>, t: TenantId, p: ProjectId)
    ensures |Scoped(rows, t, p)| == |InScope(rows, t, p)|
    decreases |rows|
  {
    if rows == [] {
      assert InScope(rows, t, p) == {};
    } else {
      hide InScope;
      var init, last := rows[..|rows| - 1], rows[|rows| - 1];
      ScopedCount(init, t, p);
      InScopeMore(init, last, t, p);
      assert rows == init + [last];
    }
  }

  /** What the outcome of one creation is, in the columns of the table. */
  lemma OutcomeIs(rows: seq<SourceVersion>, input: Input, sha256: Hash)
    requires AllNumbered(rows, sha256)
    ensures var r, text := Outcome(rows, input, sha256), NormalizeTranscript(input.transcriptText);
      && (r.EmptyTranscript? <==> text == "")
      && (r.Existing? <==> text != "" && StoredFor(rows, input, sha256(text)))
      && (!r.EmptyTranscript? ==>
            && r.version in After(rows, input, sha256)
            && r.version.tenantId == input.tenantId && r.version.projectId == input.projectId && r.version.contentHash == sha256(text))
      && (r.Created? ==>
            r.version.versionNumber == |InScope(rows, input.tenantId, input.projectId)| + 1 && r.version.transcriptText == text)
  {
    hide NormalizeTranscript, Numbered;
    var v := NewVersion(rows, input, sha256);
    NewVersionFits(rows, input, sha256);
    HashOfStoredText(input.transcriptText, sha256);
    ScopedIs(rows, input.tenantId, input.projectId);
    ScopedCount(rows, input.tenantId, input.projectId);
    var scoped := Scoped(rows, input.tenantId, input.projectId);
    FindByHashFinds(scoped, v.contentHash);
    if StoredFor(rows, input, v.contentHash) {
      var i :| 0 <= i < |rows| && rows[i].tenantId == input.tenantId && rows[i].projectId == input.projectId
               && rows[i].contentHash == v.contentHash;
      assert rows[i] in scoped;
    }
  }

  /** The shared table and its repository. */
  class DrizzleSourceVersionRepository {
    const sha256: Hash
    var rows: seq<SourceVersion>

    ghost predicate Valid()
      reads this
    {
      AllNumbered(rows, sha256)
    }

    constructor (sha256: Hash)
      ensures Valid() && rows == [] && this.sha256 == sha256
    {
      this.sha256 := sha256;
      rows := [];
    }

    method Create(input: Input) returns (r: Result)
      requires Valid()
      modifies this`rows
      ensures Valid()
      ensures r == Outcome(old(rows), input, sha256) && rows == After(old(rows), input, sha256)
      ensures r.EmptyTranscript? <==> NormalizeTranscript(input.transcriptText) == ""
      ensures r.Existing? <==> !r.EmptyTranscript? && StoredFor(old(rows), input, sha256(NormalizeTranscript(input.transcriptText)))
      ensures !r.EmptyTranscript? ==>
        && r.version in rows && r.version.tenantId == input.tenantId && r.version.projectId == input.projectId
        && r.version.contentHash == sha256(NormalizeTranscript(input.transcriptText))
      ensures r.Created? ==>
        && r.version.versionNumber == |InScope(old(rows), input.tenantId, input.projectId)| + 1
        && r.version.transcriptText == NormalizeTranscript(input.transcriptText)
      ensures rows == if r.Created? then old(rows) + [r.version] else old(rows)
    {
      hide NormalizeTranscript, Numbered;
      CreateKeepsNumbering(rows, input, sha256);
      OutcomeStored(rows, input, sha256);
      OutcomeIs(rows, input, sha256);
      var normalizedTranscript := NormalizeTranscript(input.transcriptText);
      if normalizedTranscript == "" {
        return EmptyTranscript;
      }
      var contentHash := ComputeTranscriptHash(normalizedTranscript, sha256);
      var scoped := Scoped(rows, input.tenantId, input.projectId);
      var existingByHash := FindByHash(scoped, contentHash);
      if existingByHash.Some? {
        return Existing(existingByHash.value);
      }
      var inserted := SourceVersion(input.tenantId, input.projectId, Latest(scoped) + 1, contentHash, normalizedTranscript);
      rows := rows + [inserted];
      r := Created(inserted);
    }
  }

  // ---------------------------------------------------------------- whole histories

  function Run(inputs: seq<Input>, sha256: Hash): seq<SourceVersion> {
    if inputs == [] then [] else After(Run(inputs[..|inputs| - 1], sha256), inputs[|inputs| - 1], sha256)
  }

  /** The content hashes one scope was asked to store. */
  function Wanted(inputs: seq<Input>, t: TenantId, p: ProjectId, sha256: Hash): set<string> {
    set i | 0 <= i < |inputs| && inputs[i].tenantId == t && inputs[i].projectId == p &&
            NormalizeTranscript(inputs[i].transcriptText) != "" ::
      sha256(NormalizeTranscript(inputs[i].transcriptText))
  }

  function Hashes(rows: seq<SourceVersion>): set<string> {
    set i | 0 <= i < |rows| :: rows[i].contentHash
  }

  lemma {:induction false} HashCount(rows: seq<SourceVersion>)
    requires forall i, k :: 0 <= i < k < |rows| ==> rows[i].contentHash != rows[k].contentHash
    ensures |Hashes(rows)| == |rows|
    decreases |rows|
  {
    if rows != [] {
      var init, last := rows[..|rows| - 1], rows[|rows| - 1];
      HashCount(init);
      HashesMore(init, last);
      assert rows == init + [last];
    }
  }

  lemma HashesMore(rows: seq<SourceVersion>, v: SourceVersion)
    ensures Hashes(rows + [v]) == Hashes(rows) + {v.contentHash}
  {
    var more := rows + [v];
    assert forall i :: 0 <= i < |rows| ==> more[i] == rows[i];
    assert more[|rows|] == v;
    forall h | h in Hashes(rows) ensures h in Hashes(more) {
      var i :| 0 <= i < |rows| && rows[i].contentHash == h;
      assert more[i].contentHash == h;
    }
  }

  lemma WantedMore(inputs: seq<Input>, input: Input, t: TenantId, p: ProjectId, sha256: Hash)
    ensures Wanted(inputs + [input], t, p, sha256) ==
            Wanted(inputs, t, p, sha256) +
            (if input.tenantId == t && input.projectId == p && NormalizeTranscript(input.transcriptText) != ""
             then {sha256(NormalizeTranscript(input.transcriptText))} else {})
  {
    var more := inputs + [input];
    assert forall i :: 0 <= i < |inputs| ==> more[i] == inputs[i];
    assert more[|inputs|] == input;
    forall h | h in Wanted(inputs, t, p, sha256) ensures h in Wanted(more, t, p, sha256) {
      var i :| 0 <= i < |inputs| && inputs[i].tenantId == t && inputs[i].projectId == p &&
               NormalizeTranscript(inputs[i].transcriptText) != "" && sha256(NormalizeTranscript(inputs[i].transcriptText)) == h;
      assert more[i] == inputs[i];
    }
  }

  lemma StepHashes(rows: seq<SourceVersion>, input: Input, t: TenantId, p: ProjectId, sha256: Hash)
    requires AllNumbered(rows, sha256)
    ensures Hashes(Scoped(After(rows, input, sha256), t, p)) ==
            Hashes(Scoped(rows, t, p)) +
            (if input.tenantId == t && input.projectId == p && NormalizeTranscript(input.transcriptText) != ""
             then {sha256(NormalizeTranscript(input.transcriptText))} else {})
  {
    var r, v := Outcome(rows, input, sha256), NewVersion(rows, input, sha256);
    NewVersionFits(rows, input, sha256);
    if r.Created? {
      ScopedMore(rows, v, t, p);
      HashesMore(Scoped(rows, t, p), v);
      assert Scoped(rows, t, p) + [] == Scoped(rows, t, p);
    } else if r.Existing? && input.tenantId == t && input.projectId == p {
      FoundHash(Scoped(rows, t, p), v.contentHash);
    }
  }

  lemma FoundHash(rows: seq<SourceVersion>, contentHash: string)
    requires FindByHash(rows, contentHash).Some?
    ensures contentHash in Hashes(rows) && Hashes(rows) + {contentHash} == Hashes(rows)
  {
    FindByHashFinds(rows, contentHash);
    var i :| 0 <= i < |rows| && rows[i] == FindByHash(rows, contentHash).value;
    assert rows[i].contentHash in Hashes(rows);
  }

  /** After any history, a scope holds exactly the contents asked for, numbered 1 to their number. */
  lemma {:induction false} VersionsCountContents(inputs: seq<Input>, t: TenantId, p: ProjectId, sha256: Hash)
    ensures var scoped := Scoped(Run(inputs, sha256), t, p);
            && Numbered(scoped, sha256)
            && Hashes(scoped) == Wanted(inputs, t, p, sha256)
            && |scoped| == |Wanted(inputs, t, p, sha256)|
    decreases |inputs|
  {
    RunNumbered(inputs, sha256);
    RunHashes(inputs, t, p, sha256);
    assert Numbered(Scoped(Run(inputs, sha256), t, p), sha256);
    HashCount(Scoped(Run(inputs, sha256), t, p));
  }

  lemma {:induction false} RunNumbered(inputs: seq<Input>, sha256: Hash)
    ensures AllNumbered(Run(inputs, sha256), sha256)
    decreases |inputs|
  {
    if inputs == [] {
      assert forall t, p :: Scoped([], t, p) == [];
    } else {
      RunNumbered(inputs[..|inputs| - 1], sha256);
      CreateKeepsNumbering(Run(inputs[..|inputs| - 1], sha256), inputs[|inputs| - 1], sha256);
    }
  }

  lemma {:induction false} RunHashes(inputs: seq<Input>, t: TenantId, p: ProjectId, sha256: Hash)
    ensures Hashes(Scoped(Run(inputs, sha256), t, p)) == Wanted(inputs, t, p, sha256)
    decreases |inputs|
  {
    if inputs != [] {
      var init, last := inputs[..|inputs| - 1], inputs[|inputs| - 1];
      RunHashes(init, t, p, sha256);
      RunNumbered(init, sha256);
      RunMoreHashes(init, last, t, p, sha256);
      assert inputs == init + [last];
    }
  }

  lemma RunMoreHashes(init: seq<Input>, last: Input, t: TenantId, p: ProjectId, sha256: Hash)
    requires AllNumbered(Run(init, sha256), sha256)
    requires Hashes(Scoped(Run(init, sha256), t, p)) == Wanted(init, t, p, sha256)
    ensures Hashes(Scoped(After(Run(init, sha256), last, sha256), t, p)) == Wanted(init + [last], t, p, sha256)
  {
    StepHashes(Run(init, sha256), last, t, p, sha256);
    WantedMore(init, last, t, p, sha256);
  }
}
