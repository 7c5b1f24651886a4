/** Request fingerprints: a hash of the canonical encoding of the fields that make two requests the same request. */
module Fingerprints {
  import opened JsonText
  import opened Canonical
  import opened CanonicalText

  datatype PublishRequest = PublishRequest(
    sourceContentJobId: string, sourceRenderArtifactId: string, checksumSha256: string, byteSize: string,
    outputFormat: string, publishMode: string, renderOptions: Json, publicationMetadata: Json)

  predicate Valid(r: PublishRequest) {
    IsNumber(r.byteSize) && WellFormed(r.renderOptions) && WellFormed(r.publicationMetadata)
  }

  function FieldNames(): seq<string> {
    ["sourceContentJobId", "sourceRenderArtifactId", "sourceArtifactChecksumSha256", "sourceArtifactByteSize",
     "outputFormat", "publishMode", "normalizedRenderOptions", "normalizedPublicationMetadata"]
  }

  function FieldValues(r: PublishRequest): seq<Json> {
    [Text(r.sourceContentJobId), Text(r.sourceRenderArtifactId), Text(r.checksumSha256), Number(r.byteSize),
     Text(r.outputFormat), Text(r.publishMode), r.renderOptions, r.publicationMetadata]
  }

  function Fields(r: PublishRequest): seq<Member> {
    seq(8, i requires 0 <= i < 8 => Member(FieldNames()[i], FieldValues(r)[i]))
  }

  function PublishFingerprint(r: PublishRequest, leq: Collation, hash: string -> string): string {
    hash(Canonicalize(Object(Fields(r)), leq))
  }

  /** The same request: equal fields, and options and metadata equal up to key order. */
  predicate SameRequest(a: PublishRequest, b: PublishRequest) {
    && a.sourceContentJobId == b.sourceContentJobId
    && a.sourceRenderArtifactId == b.sourceRenderArtifactId
    && a.checksumSha256 == b.checksumSha256
    && a.byteSize == b.byteSize
    && a.outputFormat == b.outputFormat
    && a.publishMode == b.publishMode
    && Same(a.renderOptions, b.renderOptions)
    && Same(a.publicationMetadata, b.publicationMetadata)
  }

  lemma NamesDistinct(i: nat, k: nat)
    requires i < 8 && k < 8 && FieldNames()[i] == FieldNames()[k]
    ensures i == k
  {
    var lengths := [18, 22, 28, 22, 12, 11, 23, 29];
    assert |FieldNames()[i]| == lengths[i] && |FieldNames()[k]| == lengths[k];
    assert FieldNames()[1][6] == 'R' && FieldNames()[3][6] == 'A';
  }

  lemma FieldsWellFormed(r: PublishRequest)
    requires Valid(r)
    ensures WellFormed(Object(Fields(r)))
  {
    forall i, k | 0 <= i < k < 8 ensures Fields(r)[i].key != Fields(r)[k].key {
      if Fields(r)[i].key == Fields(r)[k].key {
        NamesDistinct(i, k);
      }
    }
    forall i | 0 <= i < 8 ensures WellFormed(Fields(r)[i].value) {
      assert WellFormed(FieldValues(r)[i]);
    }
  }

  lemma FieldKeys(a: PublishRequest, b: PublishRequest)
    ensures Keys(Fields(a)) <= Keys(Fields(b))
  {
    forall key | key in Keys(Fields(a)) ensures key in Keys(Fields(b)) {
      var i :| 0 <= i < |Fields(a)| && Fields(a)[i].key == key;
      assert Fields(b)[i].key == key;
    }
  }

  lemma SameFields(a: PublishRequest, b: PublishRequest)
    ensures Same(Object(Fields(a)), Object(Fields(b))) <==> forall i :: 0 <= i < 8 ==> Same(FieldValues(a)[i], FieldValues(b)[i])
  {
    FieldKeys(a, b);
    FieldKeys(b, a);
    if Same(Object(Fields(a)), Object(Fields(b))) {
      forall i | 0 <= i < 8 ensures Same(FieldValues(a)[i], FieldValues(b)[i]) {
        assert Fields(a)[i].key == Fields(b)[i].key;
      }
    }
    if forall i :: 0 <= i < 8 ==> Same(FieldValues(a)[i], FieldValues(b)[i]) {
      forall i, k | 0 <= i < 8 && 0 <= k < 8 && Fields(a)[i].key == Fields(b)[k].key
        ensures Same(Fields(a)[i].value, Fields(b)[k].value)
      {
        NamesDistinct(i, k);
      }
    }
  }

  lemma ValuesSame(a: PublishRequest, b: PublishRequest)
    ensures SameRequest(a, b) <==> forall i :: 0 <= i < 8 ==> Same(FieldValues(a)[i], FieldValues(b)[i])
  {
    var x, y := FieldValues(a), FieldValues(b);
    if forall i :: 0 <= i < 8 ==> Same(x[i], y[i]) {
      assert Same(x[0], y[0]) && Same(x[1], y[1]) && Same(x[2], y[2]) && Same(x[3], y[3]);
      assert Same(x[4], y[4]) && Same(x[5], y[5]) && Same(x[6], y[6]) && Same(x[7], y[7]);
    }
  }

  /** Equal fingerprints mean the same request, or a collision of the hash itself. */
  lemma FingerprintTellsApart(a: PublishRequest, b: PublishRequest, leq: Collation, hash: string -> string)
    requires IsPreorder(leq) && Valid(a) && Valid(b)
    requires PublishFingerprint(a, leq, hash) == PublishFingerprint(b, leq, hash)
    ensures SameRequest(a, b) || exists x, y :: x != y && hash(x) == hash(y)
  {
    FieldsWellFormed(a);
    FieldsWellFormed(b);
    var x, y := Canonicalize(Object(Fields(a)), leq), Canonicalize(Object(Fields(b)), leq);
    if x == y {
      EncodingTellsApart(Object(Fields(a)), Object(Fields(b)), leq);
      SameFields(a, b);
      ValuesSame(a, b);
    } else {
      assert hash(x) == hash(y);
    }
  }

  /** The fields under their names. */
  function Named(r: PublishRequest): seq<Member> {
    [Member("sourceContentJobId", Text(r.sourceContentJobId)),
     Member("sourceRenderArtifactId", Text(r.sourceRenderArtifactId)),
     Member("sourceArtifactChecksumSha256", Text(r.checksumSha256)),
     Member("sourceArtifactByteSize", Number(r.byteSize)),
     Member("outputFormat", Text(r.outputFormat)),
     Member("publishMode", Text(r.publishMode)),
     Member("normalizedRenderOptions", r.renderOptions),
     Member("normalizedPublicationMetadata", r.publicationMetadata)]
  }

  /** The fingerprint is the hash of the JSON text of these fields, with sorted keys throughout. */
  lemma FingerprintIs(r: PublishRequest, leq: Collation, hash: string -> string) returns (text: string)
    requires IsPreorder(leq) && Valid(r)
    ensures Spells(Object(Named(r)), text, leq) && PublishFingerprint(r, leq, hash) == hash(text)
  {
    hide Spells, IsPreorder, WellFormed, Canonicalize;
    FieldsWellFormed(r);
    FieldsAreNamed(r);
    text := Canonicalize(Object(Fields(r)), leq);
    CanonicalSpells(Object(Fields(r)), leq);
  }

  lemma FieldsAreNamed(r: PublishRequest)
    ensures Fields(r) == Named(r)
  {
    forall i | 0 <= i < 8 ensures Fields(r)[i] == Named(r)[i] {
      SameNamesHere(r, i);
      SameValuesHere(r, i);
    }
  }

  lemma SameNamesHere(r: PublishRequest, i: nat)
    requires i < 8
    ensures Named(r)[i].key == FieldNames()[i]
  {
  }

  lemma SameValuesHere(r: PublishRequest, i: nat)
    requires i < 8
    ensures Named(r)[i].value == FieldValues(r)[i]
  {
  }

  /** The collation tells the names of the fields apart. */
  ghost predicate NamesApart(leq: Collation) {
    var names := ["sourceContentJobId", "sourceRenderArtifactId", "sourceArtifactChecksumSha256", "sourceArtifactByteSize",
                  "outputFormat", "publishMode", "normalizedRenderOptions", "normalizedPublicationMetadata"];
    forall i, k :: 0 <= i < 8 && 0 <= k < 8 ==> !Tied(leq, names[i], names[k])
  }

  lemma FieldsTieFree(r: PublishRequest, leq: Collation)
    requires NamesApart(leq) && TieFree(r.renderOptions, leq) && TieFree(r.publicationMetadata, leq)
    ensures TieFree(Object(Fields(r)), leq)
  {
    forall i, k | 0 <= i < 8 && 0 <= k < 8 ensures !Tied(leq, Fields(r)[i].key, Fields(r)[k].key) {
      assert Fields(r)[i].key == FieldNames()[i] && Fields(r)[k].key == FieldNames()[k];
    }
    forall i | 0 <= i < 8 ensures TieFree(Fields(r)[i].value, leq) {
      assert TieFree(FieldValues(r)[i], leq);
    }
  }

  /** The same request in any key order has one fingerprint, unless the collation ties two of its keys. */
  lemma FingerprintIgnoresKeyOrder(a: PublishRequest, b: PublishRequest, leq: Collation, hash: string -> string)
    requires IsPreorder(leq) && Valid(a) && Valid(b) && SameRequest(a, b)
    requires NamesApart(leq) && TieFree(a.renderOptions, leq) && TieFree(a.publicationMetadata, leq)
    ensures PublishFingerprint(a, leq, hash) == PublishFingerprint(b, leq, hash)
  {
    FieldsTieFree(a, leq);
    FieldsWellFormed(a);
    FieldsWellFormed(b);
    ValuesSame(a, b);
    SameFields(a, b);
    EncodingIff(Object(Fields(a)), Object(Fields(b)), leq);
  }
}
