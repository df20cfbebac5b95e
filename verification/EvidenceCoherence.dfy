/**
  What identifiers of accepted records mean. No hash is injective on all inputs, so the results
  assume only that the hash does not collide on the finitely many inputs that were hashed.
 */
module EvidenceCoherence {
  import opened Wrappers
  import opened Unicode
  import opened CanonicalJson
  import opened Evidence
  import opened EvidenceSets

  ghost predicate CollisionFree(sha: Hash, inputs: set<Bytes>) {
    forall a, b :: a in inputs && b in inputs && sha(a) == sha(b) ==> a == b
  }

  /** The bytes hashed for one identity. */
  function Preimage(domain: Text, payload: Members): Bytes {
    var bytes := CanonicalBytes(Envelope(domain, payload));
    if bytes.Ok? then bytes.value else []
  }

  function PayloadOf(r: Result<Members>): Members {
    if r.Ok? then r.value else map[]
  }

  function NativePreimage(m: Members): Bytes {
    Preimage(NATIVE_DOMAIN, PayloadOf(NativePayload(m)))
  }

  function ReferencePreimage(m: Members): Bytes {
    Preimage(REFERENCE_DOMAIN, ReferencePayload(m))
  }

  function ProjectionPreimage(m: Members): Bytes {
    Preimage(PROJECTION_DOMAIN, PayloadOf(ProjectionPayload(m)))
  }

  // ---------------------------------------------------------------- one record

  /** The identifier field is the hash of a safe envelope over the named payload. */
  ghost predicate Identified(sha: Hash, id: Json, domain: Text, payload: Members) {
    Safe(Envelope(domain, payload)) && id == JStr(sha(Preimage(domain, payload)))
  }

  lemma IdentityIsHash(sha: Hash, domain: Text, payload: Members)
    requires Identity(sha, domain, payload).Ok?
    ensures Safe(Envelope(domain, payload))
    ensures Identity(sha, domain, payload) == Ok(sha(Preimage(domain, payload)))
  {
    CanonicalBytesTotal(Envelope(domain, payload));
  }

  lemma NativeIdentified(sha: Hash, m: Members)
    requires ValidateNative(sha, JObj(m)).Ok?
    ensures ValidateNative(sha, JObj(m)) == Ok(m)
    ensures NativePayload(m).Ok?
    ensures Identified(sha, NativeId(m), NATIVE_DOMAIN, PayloadOf(NativePayload(m)))
  {
    IdentityIsHash(sha, NATIVE_DOMAIN, NativePayload(m).value);
  }

  lemma ReferenceIdentified(sha: Hash, m: Members)
    requires ValidateReference(sha, JObj(m)).Ok?
    ensures ValidateReference(sha, JObj(m)) == Ok(m)
    ensures Identified(sha, ReferenceId(m), REFERENCE_DOMAIN, ReferencePayload(m))
  {
    IdentityIsHash(sha, REFERENCE_DOMAIN, ReferencePayload(m));
  }

  lemma ProjectionIdentified(sha: Hash, m: Members)
    requires ValidateProjection(sha, JObj(m)).Ok?
    ensures ValidateProjection(sha, JObj(m)) == Ok(m)
    ensures ProjectionPayload(m).Ok?
    ensures Identified(sha, ProjectionId(m), PROJECTION_DOMAIN, PayloadOf(ProjectionPayload(m)))
    ensures ValidateReference(sha, JObj(Embedded(m))).Ok?
    ensures InScope(Embedded(m), m)
  {
    assert m[T("reference")].JObj?;
    assert JObj(Embedded(m)) == m[T("reference")];
    IdentityIsHash(sha, PROJECTION_DOMAIN, ProjectionPayload(m).value);
  }

  // ---------------------------------------------------------------- two identities

  lemma EnvelopeInjective(d: Text, p: Members, e: Text, q: Members)
    requires Envelope(d, p) == Envelope(e, q)
    ensures d == e && p == q
  {
    assert Envelope(d, p).members[T("domain")] == JStr(d);
    assert Envelope(e, q).members[T("domain")] == JStr(e);
    assert Envelope(d, p).members[T("payload")] == JObj(p);
    assert Envelope(e, q).members[T("payload")] == JObj(q);
  }

  /** Equal identifiers come from the same domain and the same payload. */
  lemma EqualIdsBind(sha: Hash, inputs: set<Bytes>, id: Json, d: Text, p: Members, e: Text, q: Members)
    requires CollisionFree(sha, inputs)
    requires Preimage(d, p) in inputs && Preimage(e, q) in inputs
    requires Identified(sha, id, d, p) && Identified(sha, id, e, q)
    ensures d == e && p == q
  {
    CanonicalBytesTotal(Envelope(d, p));
    CanonicalBytesTotal(Envelope(e, q));
    CanonicalInjective(Envelope(d, p), Envelope(e, q));
    EnvelopeInjective(d, p, e, q);
  }

  // ---------------------------------------------------------------- record sets

  datatype RecordSet = RecordSet(native: Members, references: seq<Members>, projections: seq<Members>)

  ghost predicate Validated(sha: Hash, s: RecordSet) {
    && ValidateNative(sha, JObj(s.native)).Ok?
    && (forall i :: 0 <= i < |s.references| ==> ValidateReference(sha, JObj(s.references[i])).Ok?)
    && (forall i :: 0 <= i < |s.projections| ==> ValidateProjection(sha, JObj(s.projections[i])).Ok?)
  }

  /** Accepted by the validators and by the record-set checks. */
  ghost predicate Accepted(sha: Hash, s: RecordSet) {
    Validated(sha, s) && Coherent(s.native, s.references, s.projections, None)
  }

  /** Every byte string that validating the set hashes. */
  ghost function Hashed(s: RecordSet): set<Bytes> {
    {NativePreimage(s.native)}
    + (set i | 0 <= i < |s.references| :: ReferencePreimage(s.references[i]))
    + (set i | 0 <= i < |s.projections| :: ProjectionPreimage(s.projections[i]))
    + (set i | 0 <= i < |s.projections| :: ReferencePreimage(Embedded(s.projections[i])))
  }

  /** Every record of an accepted set, embedded references included, is about one native artifact. */
  lemma AcceptedSetHasOneScope(sha: Hash, s: RecordSet)
    requires Accepted(sha, s)
    ensures forall i :: 0 <= i < |s.references| ==> InScope(s.references[i], s.native)
    ensures forall i :: 0 <= i < |s.projections| ==>
      InScope(s.projections[i], s.native) && InScope(Embedded(s.projections[i]), s.native)
  {
    forall i | 0 <= i < |s.projections| ensures InScope(Embedded(s.projections[i]), s.native) {
      ProjectionIdentified(sha, s.projections[i]);
      assert InScope(s.projections[i], s.native);
    }
  }

  /** The reference that a projection embeds agrees with a listed one on source, native and anchor. */
  lemma EmbeddedReferenceIsListed(sha: Hash, s: RecordSet, i: nat) returns (j: nat)
    requires Accepted(sha, s) && CollisionFree(sha, Hashed(s)) && i < |s.projections|
    ensures j < |s.references|
    ensures var listed, embedded := s.references[j], Embedded(s.projections[i]);
            && ReferenceId(listed) == ReferenceId(embedded)
            && InScope(listed, embedded)
            && Get(listed, T("anchor")) == Get(embedded, T("anchor"))
  {
    var embedded := Embedded(s.projections[i]);
    assert Listed(s.references, s.projections[i]);
    j :| 0 <= j < |s.references| && ReferenceId(s.references[j]) == ReferenceId(embedded);
    var listed := s.references[j];
    ProjectionIdentified(sha, s.projections[i]);
    ReferenceIdentified(sha, embedded);
    ReferenceIdentified(sha, listed);
    EqualIdsBind(sha, Hashed(s), ReferenceId(listed), REFERENCE_DOMAIN, ReferencePayload(listed),
                 REFERENCE_DOMAIN, ReferencePayload(embedded));
    SameReferencePayload(listed, embedded);
  }

  lemma SameReferencePayload(a: Members, b: Members)
    requires ReferencePayload(a) == ReferencePayload(b)
    ensures InScope(a, b) && Get(a, T("anchor")) == Get(b, T("anchor"))
  {
    var p, q := ReferencePayload(a), ReferencePayload(b);
    assert p[T("source_version_id")] == q[T("source_version_id")];
    assert p[T("native_representation_id")] == q[T("native_representation_id")];
    assert p[T("anchor")] == q[T("anchor")];
  }

  /** Equal reference or projection identifiers force equal allowlisted fields. */
  lemma EqualIdsForceEqualFields(sha: Hash, s: RecordSet, i: nat, j: nat)
    requires Accepted(sha, s) && CollisionFree(sha, Hashed(s))
    ensures i < |s.references| && j < |s.references| && ReferenceId(s.references[i]) == ReferenceId(s.references[j])
      ==> ReferencePayload(s.references[i]) == ReferencePayload(s.references[j])
    ensures i < |s.projections| && j < |s.projections|
            && ProjectionId(s.projections[i]) == ProjectionId(s.projections[j])
      ==> ProjectionPayload(s.projections[i]) == ProjectionPayload(s.projections[j])
  {
    if i < |s.references| && j < |s.references| && ReferenceId(s.references[i]) == ReferenceId(s.references[j]) {
      var a, b := s.references[i], s.references[j];
      ReferenceIdentified(sha, a);
      ReferenceIdentified(sha, b);
      EqualIdsBind(sha, Hashed(s), ReferenceId(a), REFERENCE_DOMAIN, ReferencePayload(a),
                   REFERENCE_DOMAIN, ReferencePayload(b));
    }
    if i < |s.projections| && j < |s.projections|
       && ProjectionId(s.projections[i]) == ProjectionId(s.projections[j]) {
      var a, b := s.projections[i], s.projections[j];
      ProjectionIdentified(sha, a);
      ProjectionIdentified(sha, b);
      EqualIdsBind(sha, Hashed(s), ProjectionId(a), PROJECTION_DOMAIN, PayloadOf(ProjectionPayload(a)),
                   PROJECTION_DOMAIN, PayloadOf(ProjectionPayload(b)));
    }
  }

  lemma ReferenceIsNotNative(sha: Hash, s: RecordSet, i: nat)
    requires Accepted(sha, s) && CollisionFree(sha, Hashed(s)) && i < |s.references|
    ensures ReferenceId(s.references[i]) != NativeId(s.native)
  {
    var a := s.references[i];
    NativeIdentified(sha, s.native);
    ReferenceIdentified(sha, a);
    if ReferenceId(a) == NativeId(s.native) {
      EqualIdsBind(sha, Hashed(s), ReferenceId(a), REFERENCE_DOMAIN, ReferencePayload(a),
                   NATIVE_DOMAIN, PayloadOf(NativePayload(s.native)));
    }
  }

  lemma ProjectionIsNotNative(sha: Hash, s: RecordSet, j: nat)
    requires Accepted(sha, s) && CollisionFree(sha, Hashed(s)) && j < |s.projections|
    ensures ProjectionId(s.projections[j]) != NativeId(s.native)
  {
    var b := s.projections[j];
    NativeIdentified(sha, s.native);
    ProjectionIdentified(sha, b);
    if ProjectionId(b) == NativeId(s.native) {
      EqualIdsBind(sha, Hashed(s), ProjectionId(b), PROJECTION_DOMAIN, PayloadOf(ProjectionPayload(b)),
                   NATIVE_DOMAIN, PayloadOf(NativePayload(s.native)));
    }
  }

  lemma ReferenceIsNotProjection(sha: Hash, s: RecordSet, i: nat, j: nat)
    requires Accepted(sha, s) && CollisionFree(sha, Hashed(s)) && i < |s.references| && j < |s.projections|
    ensures ReferenceId(s.references[i]) != ProjectionId(s.projections[j])
  {
    var a, b := s.references[i], s.projections[j];
    ReferenceIdentified(sha, a);
    ProjectionIdentified(sha, b);
    if ReferenceId(a) == ProjectionId(b) {
      EqualIdsBind(sha, Hashed(s), ReferenceId(a), REFERENCE_DOMAIN, ReferencePayload(a),
                   PROJECTION_DOMAIN, PayloadOf(ProjectionPayload(b)));
    }
  }

  /** Identifiers of different kinds of record never coincide. */
  lemma DomainsNeverCoincide(sha: Hash, s: RecordSet)
    requires Accepted(sha, s) && CollisionFree(sha, Hashed(s))
    ensures forall i :: 0 <= i < |s.references| ==> ReferenceId(s.references[i]) != NativeId(s.native)
    ensures forall i :: 0 <= i < |s.projections| ==> ProjectionId(s.projections[i]) != NativeId(s.native)
    ensures forall i, j :: 0 <= i < |s.references| && 0 <= j < |s.projections| ==>
      ReferenceId(s.references[i]) != ProjectionId(s.projections[j])
  {
    forall i | 0 <= i < |s.references| ensures ReferenceId(s.references[i]) != NativeId(s.native) {
      ReferenceIsNotNative(sha, s, i);
    }
    forall j | 0 <= j < |s.projections| ensures ProjectionId(s.projections[j]) != NativeId(s.native) {
      ProjectionIsNotNative(sha, s, j);
    }
    forall i, j | 0 <= i < |s.references| && 0 <= j < |s.projections|
      ensures ReferenceId(s.references[i]) != ProjectionId(s.projections[j])
    {
      ReferenceIsNotProjection(sha, s, i, j);
    }
  }
}
