/** The publish snapshot of a completed content job, and its validation again before submission. */
module SourceEligibility {
  import opened Basics
  import opened Transcript
  import C = ContentJobs

  const PUBLISH_ARTIFACT_MAX_BYTES := 1_048_576
  const MAX_ARTIFACT_ID := 120

  datatype Snapshot = Snapshot(artifactId: string, payload: string, byteSize: int, checksum: string)

  datatype Refusal = NotEligible | ArtifactMissing | ArtifactInvalid

  datatype Result = Ok(snapshot: Snapshot) | Refused(reason: Refusal)

  // ---------------------------------------------------------------- lengths

  /** UTF-16 code units, as a JavaScript string counts its length. */
  function Utf16Length(s: string): nat {
    if s == "" then 0 else (if s[0] as int < 0x1_0000 then 1 else 2) + Utf16Length(s[1..])
  }

  function Utf8Length(s: string): nat {
    if s == "" then 0
    else
      (if s[0] as int < 0x80 then 1 else if s[0] as int < 0x800 then 2 else if s[0] as int < 0x1_0000 then 3 else 4) +
      Utf8Length(s[1..])
  }

  lemma {:induction false} Utf16Shorter(s: string)
    ensures Utf16Length(s) <= Utf8Length(s)
    ensures s != "" ==> Utf16Length(s) >= 1
  {
    if s != "" {
      Utf16Shorter(s[1..]);
    }
  }

  function Trim(s: string): string {
    TrimEnd(TrimStart(s))
  }

  lemma TrimIsTrimmed(s: string)
    ensures Trimmed(Trim(s))
  {
    var n := StartTrimmed(s);
    EndKeepsStart(TrimStart(s));
  }

  lemma TrimKeeps(s: string)
    requires Trimmed(s)
    ensures Trim(s) == s
  {
  }

  // ---------------------------------------------------------------- the styled HTML source

  predicate IsSha256Hex(s: string) {
    |s| == 64 && forall i :: 0 <= i < |s| ==> 'a' <= s[i] <= 'f' || '0' <= s[i] <= '9'
  }

  predicate ValidSource(payload: string, byteSize: int, checksum: string, sha256: string -> string) {
    && payload != "" && byteSize >= 0
    && IsSha256Hex(checksum)
    && Utf8Length(payload) == byteSize
    && sha256(payload) == checksum
  }

  function Decimal(n: nat): string {
    (if n < 10 then "" else Decimal(n / 10)) + ["0123456789"[n % 10]]
  }

  /** An integer as JSON prints it. */
  function JsonInteger(n: int): string {
    if n < 0 then "-" + Decimal(-n) else Decimal(n)
  }

  /** The artifact's own id, or one made of the job's id, the checksum and the size. */
  function DeriveSourceRenderArtifactId(jobId: string, artifact: C.RenderArtifact): string
    requires artifact.byteSize >= 0
  {
    if Trim(artifact.artifactId) != "" then Trim(artifact.artifactId)
    else "styled:" + jobId + ":" + artifact.checksum + ":" + Decimal(artifact.byteSize)
  }

  function CreatePublishSourceSnapshot(job: C.Job, jobId: string, project: ProjectId, sha256: string -> string): Result {
    if job.project != project || !job.status.Completed? then Refused(NotEligible)
    else if job.result.None? || job.result.value.renderArtifact.None? then Refused(ArtifactMissing)
    else
      var a := job.result.value.renderArtifact.value;
      if !a.inlineUtf8 || !a.styledHtml || !ValidSource(a.payload, a.byteSize, a.checksum, sha256) then Refused(ArtifactInvalid)
      else if a.byteSize > PUBLISH_ARTIFACT_MAX_BYTES then Refused(ArtifactInvalid)
      else Ok(Snapshot(DeriveSourceRenderArtifactId(jobId, a), a.payload, a.byteSize, a.checksum))
  }

  /** What the executor checks on the stored snapshot before it submits. */
  predicate PassesSubmission(s: Snapshot, sha256: string -> string) {
    && 1 <= Utf16Length(Trim(s.artifactId)) <= MAX_ARTIFACT_ID
    && 1 <= Utf16Length(s.payload) <= PUBLISH_ARTIFACT_MAX_BYTES
    && 1 <= s.byteSize <= PUBLISH_ARTIFACT_MAX_BYTES
    && ValidSource(s.payload, s.byteSize, s.checksum, sha256)
  }

  // ---------------------------------------------------------------- what these functions mean

  /** The code points of Unicode as UTF-16 and UTF-8 encode them. */
  lemma EncodedLength(c: char, rest: string)
    ensures Utf16Length([c] + rest) == Utf16Length(rest) + if c as int <= 0xFFFF then 1 else 2
    ensures Utf8Length([c] + rest) == Utf8Length(rest) +
      if c as int <= 0x7F then 1 else if c as int <= 0x7FF then 2 else if c as int <= 0xFFFF then 3 else 4
  {
    assert ([c] + rest)[1..] == rest;
  }

  ghost predicate White(s: string) {
    forall i :: 0 <= i < |s| ==> s[i] in WHITE_SPACE
  }

  /** Trimming cuts white space off both ends, and all of it. */
  lemma TrimCuts(s: string) returns (before: string, after: string)
    ensures s == before + Trim(s) + after && White(before) && White(after)
    ensures Trim(s) != "" ==> Trim(s)[0] !in WHITE_SPACE && Trim(s)[|Trim(s)| - 1] !in WHITE_SPACE
  {
    before := StartCut(s);
    after := EndCut(TrimStart(s));
    TrimIsTrimmed(s);
    if Trim(s) != "" {
      SpaceIs(Trim(s)[0]);
      SpaceIs(Trim(s)[|Trim(s)| - 1]);
    }
    assert s == before + (Trim(s) + after) == before + Trim(s) + after;
  }

  lemma {:induction false} StartCut(s: string) returns (before: string)
    ensures s == before + TrimStart(s) && White(before)
  {
    before := "";
    if s != "" && IsSpace(s[0]) {
      SpaceIs(s[0]);
      before := StartCut(s[1..]);
      before := [s[0]] + before;
      assert s == [s[0]] + s[1..];
    }
  }

  lemma {:induction false} EndCut(s: string) returns (after: string)
    ensures s == TrimEnd(s) + after && White(after)
    decreases |s|
  {
    after := "";
    if s != "" && IsSpace(s[|s| - 1]) {
      SpaceIs(s[|s| - 1]);
      after := EndCut(s[..|s| - 1]);
      after := after + [s[|s| - 1]];
      assert s == s[..|s| - 1] + [s[|s| - 1]];
    }
  }

  predicate IsDigits(s: string) {
    s != "" && forall i :: 0 <= i < |s| ==> '0' <= s[i] <= '9'
  }

  function ValueOf(digits: string): nat
    requires forall i :: 0 <= i < |digits| ==> '0' <= digits[i] <= '9'
  {
    if digits == "" then 0 else 10 * ValueOf(digits[..|digits| - 1]) + (digits[|digits| - 1] as int - '0' as int)
  }

  lemma DigitOf(d: nat)
    requires d < 10
    ensures '0' <= "0123456789"[d] <= '9' && "0123456789"[d] as int - '0' as int == d
  {
  }

  lemma DecimalEnds(n: nat)
    ensures n < 10 ==> Decimal(n) == "" + ["0123456789"[n % 10]]
    ensures n >= 10 ==> Decimal(n) == Decimal(n / 10) + ["0123456789"[n % 10]]
  {
  }

  lemma DigitAppended(front: string, digit: char)
    requires (front == "" || IsDigits(front)) && '0' <= digit <= '9'
    ensures IsDigits(front + [digit])
    ensures ValueOf(front + [digit]) == 10 * (if front == "" then 0 else ValueOf(front)) + (digit as int - '0' as int)
  {
    assert (front + [digit])[..|front|] == front;
  }

  /** The digits of a number read back as that number, with no zero in front of them. */
  lemma {:induction false} DecimalReads(n: nat)
    ensures IsDigits(Decimal(n)) && ValueOf(Decimal(n)) == n && (n > 0 ==> Decimal(n)[0] != '0')
  {
    hide ValueOf, Decimal;
    DigitOf(n % 10);
    DecimalEnds(n);
    var digit := "0123456789"[n % 10];
    if n >= 10 {
      var front := Decimal(n / 10);
      DecimalReads(n / 10);
      DigitAppended(front, digit);
      assert Decimal(n)[0] == front[0];
    } else {
      DigitAppended("", digit);
    }
  }

  /** What a render artifact has to be: inline, styled, not empty and not too large, and the size and hash it says it has. */
  ghost predicate Publishable(a: C.RenderArtifact, sha256: string -> string) {
    && a.inlineUtf8 && a.styledHtml && a.payload != "" && 0 <= a.byteSize <= 1_048_576
    && |a.checksum| == 64 && (forall i :: 0 <= i < 64 ==> a.checksum[i] in "0123456789abcdef")
    && Utf8Length(a.payload) == a.byteSize && sha256(a.payload) == a.checksum
  }

  lemma HexIs(checksum: string)
    ensures IsSha256Hex(checksum) <==> |checksum| == 64 && forall i :: 0 <= i < 64 ==> checksum[i] in "0123456789abcdef"
  {
    forall i | 0 <= i < |checksum|
      ensures 'a' <= checksum[i] <= 'f' || '0' <= checksum[i] <= '9' <==> checksum[i] in "0123456789abcdef"
    {
      HexDigitIs(checksum[i]);
    }
  }

  lemma HexDigitIs(c: char)
    ensures 'a' <= c <= 'f' || '0' <= c <= '9' <==> c in "0123456789abcdef"
  {
    var digits := "0123456789abcdef";
    if '0' <= c <= '9' {
      assert digits[c as int - '0' as int] == c;
    } else if 'a' <= c <= 'f' {
      assert digits[10 + c as int - 'a' as int] == c;
    }
  }

  /** A snapshot is created exactly from a completed job of the project whose artifact is publishable, and says what the
      artifact says; its id is the artifact's, trimmed, or if nothing is left of that one made of job, checksum and size. */
  lemma SnapshotIff(job: C.Job, jobId: string, project: ProjectId, sha256: string -> string)
    ensures
      var r := CreatePublishSourceSnapshot(job, jobId, project, sha256);
      var eligible := job.project == project && job.status == C.Completed;
      && (r == Refused(NotEligible) <==> !eligible)
      && (r == Refused(ArtifactMissing) <==> eligible && (job.result == None || job.result.value.renderArtifact == None))
      && (r.Ok? <==> eligible && job.result != None && job.result.value.renderArtifact != None
                     && Publishable(job.result.value.renderArtifact.value, sha256))
      && (r.Ok? ==>
            var a, s := job.result.value.renderArtifact.value, r.snapshot;
            && s.payload == a.payload && s.byteSize == a.byteSize && s.checksum == a.checksum
            && (White(a.artifactId) ==> s.artifactId == "styled:" + jobId + ":" + a.checksum + ":" + Decimal(a.byteSize))
            && (!White(a.artifactId) ==> s.artifactId == Trim(a.artifactId)))
  {
    if job.result.Some? && job.result.value.renderArtifact.Some? {
      var a := job.result.value.renderArtifact.value;
      HexIs(a.checksum);
      WhiteIff(a.artifactId);
    }
  }

  lemma WhiteIff(s: string)
    ensures White(s) <==> Trim(s) == ""
  {
    var before, after := TrimCuts(s);
    if Trim(s) == "" {
      assert s == before + after;
    } else {
      assert s[|before|] == Trim(s)[0];
    }
  }

  /** The checks before submission, on the columns as they are stored. */
  lemma PassesIff(s: Snapshot, sha256: string -> string)
    ensures PassesSubmission(s, sha256)
      <==> && 1 <= Utf16Length(Trim(s.artifactId)) <= 120 && 1 <= Utf16Length(s.payload) <= 1_048_576 && 1 <= s.byteSize <= 1_048_576
           && |s.checksum| == 64 && (forall i :: 0 <= i < 64 ==> s.checksum[i] in "0123456789abcdef")
           && Utf8Length(s.payload) == s.byteSize && sha256(s.payload) == s.checksum
  {
    HexIs(s.checksum);
  }

  // ---------------------------------------------------------------- which snapshots pass again

  /** The fallback id as the concatenation it is; it starts with a letter and ends with a digit, so trimming keeps it. */
  lemma FallbackTrimmed(jobId: string, checksum: string, byteSize: nat)
    ensures Trimmed("styled:" + jobId + ":" + checksum + ":" + Decimal(byteSize))
  {
    var id, d := "styled:" + jobId + ":" + checksum + ":" + Decimal(byteSize), Decimal(byteSize);
    assert id[|id| - 1] == d[|d| - 1] == "0123456789"[byteSize % 10];
    assert id[0] == 's';
  }

  lemma DerivedIdTrimmed(jobId: string, artifact: C.RenderArtifact)
    requires artifact.byteSize >= 0
    ensures Trimmed(DeriveSourceRenderArtifactId(jobId, artifact)) && DeriveSourceRenderArtifactId(jobId, artifact) != ""
  {
    TrimIsTrimmed(artifact.artifactId);
    FallbackTrimmed(jobId, artifact.checksum, artifact.byteSize);
  }

  lemma {:induction false} SomeBytes(s: string)
    requires s != ""
    ensures Utf8Length(s) >= 1
  {
  }

  /** A snapshot that creation accepts passes the checks before submission exactly when its artifact id is short enough. */
  lemma SnapshotPassesIff(job: C.Job, jobId: string, project: ProjectId, sha256: string -> string)
    requires CreatePublishSourceSnapshot(job, jobId, project, sha256).Ok?
    ensures var s := CreatePublishSourceSnapshot(job, jobId, project, sha256).snapshot;
            PassesSubmission(s, sha256) <==> Utf16Length(s.artifactId) <= 120
  {
    var s := CreatePublishSourceSnapshot(job, jobId, project, sha256).snapshot;
    DerivedIdTrimmed(jobId, job.result.value.renderArtifact.value);
    TrimKeeps(s.artifactId);
    Utf16Shorter(s.artifactId);
    Utf16Shorter(s.payload);
    SomeBytes(s.payload);
  }

  lemma {:induction false} LengthAdds(a: string, b: string)
    ensures Utf16Length(a + b) == Utf16Length(a) + Utf16Length(b)
  {
    if a == "" {
      assert a + b == b;
    } else {
      LengthAdds(a[1..], b);
      assert (a + b)[1..] == a[1..] + b;
    }
  }

  /** The text of n letters a. */
  function Letters(n: nat): string {
    if n == 0 then "" else "a" + Letters(n - 1)
  }

  lemma {:induction false} LettersLong(n: nat)
    ensures |Letters(n)| == n && Utf16Length(Letters(n)) == n && forall i :: 0 <= i < n ==> Letters(n)[i] == 'a'
  {
    if n > 0 {
      LettersLong(n - 1);
      assert Letters(n)[1..] == Letters(n - 1);
    }
  }

  /** For every artifact that can be published, one with any longer id is accepted at creation and refused at submission. */
  lemma LongIdsAcceptedThenRefused(job: C.Job, jobId: string, artifact: C.RenderArtifact, sha256: string -> string, n: nat)
    requires job.status.Completed? && n > 120 && Publishable(artifact, sha256)
    ensures var named := job.(result := Some(C.JobResult(Some(artifact.(artifactId := Letters(n))))));
            var r := CreatePublishSourceSnapshot(named, jobId, job.project, sha256);
            r.Ok? && r.snapshot.artifactId == Letters(n) && !PassesSubmission(r.snapshot, sha256)
  {
    hide Letters;
    HexIs(artifact.checksum);
    LettersLong(n);
    TrimKeeps(Letters(n));
    var named := job.(result := Some(C.JobResult(Some(artifact.(artifactId := Letters(n))))));
    SnapshotPassesIff(named, jobId, job.project, sha256);
  }

  lemma {:induction false} HexLength(s: string)
    requires forall i :: 0 <= i < |s| ==> 'a' <= s[i] <= 'f' || '0' <= s[i] <= '9'
    ensures Utf16Length(s) == |s|
  {
    if s != "" {
      HexLength(s[1..]);
    }
  }

  lemma {:induction false} DecimalLength(n: nat)
    ensures n < 10 ==> Utf16Length(Decimal(n)) == 1
    ensures n >= 10 ==> Utf16Length(Decimal(n)) == Utf16Length(Decimal(n / 10)) + 1
  {
    var digit := ["0123456789"[n % 10]];
    LengthAdds(if n < 10 then "" else Decimal(n / 10), digit);
    assert digit[1..] == "" && digit[0] as int < 0x1_0000;
  }

  lemma SevenDigits(n: nat)
    requires n <= PUBLISH_ARTIFACT_MAX_BYTES
    ensures Utf16Length(Decimal(n)) <= 7
  {
    DecimalLength(n);
    DecimalLength(n / 10);
    DecimalLength(n / 10 / 10);
    DecimalLength(n / 10 / 10 / 10);
    DecimalLength(n / 10 / 10 / 10 / 10);
    DecimalLength(n / 10 / 10 / 10 / 10 / 10);
    DecimalLength(n / 10 / 10 / 10 / 10 / 10 / 10);
  }

  /** A fallback id never fails for length when the job's id has at most forty characters. */
  lemma FallbackIdFits(jobId: string, artifact: C.RenderArtifact)
    requires White(artifact.artifactId) && Utf16Length(jobId) <= 40 && 0 <= artifact.byteSize <= 1_048_576
    requires |artifact.checksum| == 64 && forall i :: 0 <= i < 64 ==> artifact.checksum[i] in "0123456789abcdef"
    ensures Utf16Length(DeriveSourceRenderArtifactId(jobId, artifact)) <= 120
  {
    HexIs(artifact.checksum);
    WhiteIff(artifact.artifactId);
    var d := Decimal(artifact.byteSize);
    LengthAdds("styled:", jobId);
    LengthAdds("styled:" + jobId, ":");
    LengthAdds("styled:" + jobId + ":", artifact.checksum);
    LengthAdds("styled:" + jobId + ":" + artifact.checksum, ":");
    LengthAdds("styled:" + jobId + ":" + artifact.checksum + ":", d);
    HexLength(artifact.checksum);
    SevenDigits(artifact.byteSize);
    SmallLiterals();
  }

  lemma SmallLiterals()
    ensures Utf16Length("styled:") == 7 && Utf16Length(":") == 1
  {
    var a, b := "sty", "led:";
    assert "styled:" == a + b;
    LengthAdds(a, b);
    assert a[1..] == "ty" && a[1..][1..] == "y" && a[1..][1..][1..] == "";
    assert b[1..] == "ed:" && b[1..][1..] == "d:" && b[1..][1..][1..] == ":" && b[1..][1..][1..][1..] == "";
    assert ":"[1..] == "";
  }
}
