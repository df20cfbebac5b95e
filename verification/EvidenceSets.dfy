/** The record-set checks of `_consume`, and what an accepted set guarantees. */
module EvidenceSets {
  import opened Wrappers
  import opened Unicode
  import opened CanonicalJson
  import opened PythonValues
  import opened Evidence

  /** Python's `==` on two records. */
  predicate PyEqual(a: Members, b: Members) {
    Equals(JObj(a), JObj(b))
  }

  function ReferenceId(m: Members): Json {
    Get(m, T("evidence_reference_id"))
  }

  function ProjectionId(m: Members): Json {
    Get(m, T("evidence_projection_id"))
  }

  function NativeId(m: Members): Json {
    Get(m, T("native_representation_id"))
  }

  /** The reference record that a projection embeds. */
  function Embedded(projection: Members): Members {
    match Get(projection, T("reference"))
    case JObj(m) => m
    case _ => map[]
  }

  // ---------------------------------------------------------------- acceptance

  /** Records with the same identifier compare equal. */
  ghost predicate NoCollision(records: seq<Members>, id: Members -> Json) {
    forall i, j :: 0 <= i < j < |records| && id(records[i]) == id(records[j]) ==>
      PyEqual(records[i], records[j])
  }

  /** The condition under which the checks accept a set of validated records. */
  ghost predicate Coherent(native: Members, references: seq<Members>, projections: seq<Members>,
                           expectedSource: Option<Json>)
  {
    && (expectedSource.Some? ==> Get(native, T("source_version_id")) == expectedSource.value)
    && AllInScope(references, native)
    && NoCollision(references, ReferenceId)
    && AllInScope(projections, native)
    && AllListed(references, projections)
    && NoCollision(projections, ProjectionId)
  }

  /** `setdefault` over the records seen so far: each identifier keeps its first record. */
  ghost predicate FirstById(kept: map<Json, Members>, records: seq<Members>, id: Members -> Json) {
    && (forall k :: k in kept ==> exists i :: 0 <= i < |records| && records[i] == kept[k] && id(kept[k]) == k)
    && (forall i :: 0 <= i < |records| ==> id(records[i]) in kept && PyEqual(kept[id(records[i])], records[i]))
  }

  /** One `setdefault` followed by the comparison with the record that was kept. */
  lemma KeepFirst(kept: map<Json, Members>, seen: seq<Members>, record: Members, id: Members -> Json)
    requires FirstById(kept, seen, id)
    ensures id(record) !in kept ==> FirstById(kept[id(record) := record], seen + [record], id)
    ensures id(record) in kept && PyEqual(kept[id(record)], record) ==> FirstById(kept, seen + [record], id)
    ensures id(record) in kept && !PyEqual(kept[id(record)], record) ==>
      exists k :: 0 <= k < |seen| && id(seen[k]) == id(record) && !PyEqual(seen[k], record)
  {
    var all := seen + [record];
    assert forall i :: 0 <= i < |seen| ==> all[i] == seen[i];
    assert all[|seen|] == record;
    if id(record) !in kept {
      var more := kept[id(record) := record];
      forall k | k in more ensures exists i :: 0 <= i < |all| && all[i] == more[k] && id(more[k]) == k {
        if k == id(record) {
          assert all[|seen|] == more[k];
        } else {
          var i :| 0 <= i < |seen| && seen[i] == kept[k] && id(kept[k]) == k;
          assert all[i] == more[k];
        }
      }
    } else if PyEqual(kept[id(record)], record) {
      forall k | k in kept ensures exists i :: 0 <= i < |all| && all[i] == kept[k] && id(kept[k]) == k {
        var i :| 0 <= i < |seen| && seen[i] == kept[k] && id(kept[k]) == k;
        assert all[i] == kept[k];
      }
    }
  }

  /** `prior = kept.setdefault(key, record)`, and whether `prior` equals the record. */
  method SetDefault(kept: map<Json, Members>, ghost seen: seq<Members>, record: Members, id: Members -> Json)
    returns (ok: bool, more: map<Json, Members>)
    requires FirstById(kept, seen, id)
    ensures ok ==> FirstById(more, seen + [record], id)
    ensures !ok ==> !NoCollision(seen + [record], id)
  {
    KeepFirst(kept, seen, record, id);
    ok, more := true, kept;
    if id(record) !in kept {
      more := kept[id(record) := record];
    } else if !PyEqual(kept[id(record)], record) {
      ghost var k :| 0 <= k < |seen| && id(seen[k]) == id(record) && !PyEqual(seen[k], record);
      assert (seen + [record])[k] == seen[k] && (seen + [record])[|seen|] == record;
      ok := false;
    }
  }

  lemma OneMore(records: seq<Members>, i: nat)
    requires i < |records|
    ensures records[..i] + [records[i]] == records[..i + 1]
  {
  }

  lemma CollisionInPrefix(records: seq<Members>, n: nat, id: Members -> Json)
    requires n <= |records| && !NoCollision(records[..n], id)
    ensures !NoCollision(records, id)
  {
  }

  ghost predicate AllInScope(records: seq<Members>, native: Members) {
    forall i :: 0 <= i < |records| ==> InScope(records[i], native)
  }

  /** The reference that a projection embeds is listed, by its identifier. */
  ghost predicate Listed(references: seq<Members>, projection: Members) {
    exists j :: 0 <= j < |references| && ReferenceId(references[j]) == ReferenceId(Embedded(projection))
  }

  lemma ListedMeansKept(kept: map<Json, Members>, references: seq<Members>, projection: Members)
    requires FirstById(kept, references, ReferenceId)
    ensures Listed(references, projection) <==> ReferenceId(Embedded(projection)) in kept
  {
  }

  method CheckReferences(native: Members, references: seq<Members>)
    returns (r: Result<map<Json, Members>>)
    ensures r.Ok? <==> AllInScope(references, native) && NoCollision(references, ReferenceId)
    ensures r.Ok? ==> FirstById(r.value, references, ReferenceId)
    ensures r.Fail? ==> r.category == "scope_mismatch" || r.category == "identity_collision"
  {
    var referenceIds: map<Json, Members> := map[];
    for i := 0 to |references|
      invariant AllInScope(references[..i], native)
      invariant FirstById(referenceIds, references[..i], ReferenceId)
    {
      if !InScope(references[i], native) {
        return Fail("scope_mismatch");
      }
      var ok, more := SetDefault(referenceIds, references[..i], references[i], ReferenceId);
      OneMore(references, i);
      if !ok {
        CollisionInPrefix(references, i + 1, ReferenceId);
        return Fail("identity_collision");
      }
      referenceIds := more;
    }
    assert references[..|references|] == references;
    FirstByIdMeansNoCollision(referenceIds, references, ReferenceId);
    return Ok(referenceIds);
  }

  lemma FirstByIdMeansNoCollision(kept: map<Json, Members>, records: seq<Members>, id: Members -> Json)
    requires FirstById(kept, records, id)
    ensures NoCollision(records, id)
  {
  }

  ghost predicate AllListed(references: seq<Members>, projections: seq<Members>) {
    forall i :: 0 <= i < |projections| ==> Listed(references, projections[i])
  }

  /** In the scope of the native record, with an embedded reference among the given identifiers. */
  predicate InPlace(projection: Members, native: Members, ids: set<Json>) {
    InScope(projection, native) && ReferenceId(Embedded(projection)) in ids
  }

  ghost predicate AllInPlace(projections: seq<Members>, native: Members, ids: set<Json>) {
    forall i :: 0 <= i < |projections| ==> InPlace(projections[i], native, ids)
  }

  method CheckProjections(native: Members, ids: set<Json>, projections: seq<Members>)
    returns (r: Result<()>)
    ensures r.Ok? <==> AllInPlace(projections, native, ids) && NoCollision(projections, ProjectionId)
    ensures r.Fail? ==> r.category == "scope_mismatch" || r.category == "identity_collision"
  {
    var projectionIds: map<Json, Members> := map[];
    for i := 0 to |projections|
      invariant AllInPlace(projections[..i], native, ids)
      invariant FirstById(projectionIds, projections[..i], ProjectionId)
    {
      if !InPlace(projections[i], native, ids) {
        return Fail("scope_mismatch");
      }
      var ok, more := SetDefault(projectionIds, projections[..i], projections[i], ProjectionId);
      OneMore(projections, i);
      if !ok {
        CollisionInPrefix(projections, i + 1, ProjectionId);
        return Fail("identity_collision");
      }
      projectionIds := more;
    }
    assert projections[..|projections|] == projections;
    FirstByIdMeansNoCollision(projectionIds, projections, ProjectionId);
    return Ok(());
  }

  lemma PlacedMeansScopedAndListed(native: Members, references: seq<Members>, kept: map<Json, Members>,
                                   projections: seq<Members>)
    requires FirstById(kept, references, ReferenceId)
    ensures AllInPlace(projections, native, kept.Keys)
        <==> AllInScope(projections, native) && AllListed(references, projections)
  {
    forall i | 0 <= i < |projections|
      ensures InPlace(projections[i], native, kept.Keys)
         <==> InScope(projections[i], native) && Listed(references, projections[i])
    {
      ListedMeansKept(kept, references, projections[i]);
    }
  }

  /** The checks of `_consume` over one set of validated records accept exactly the coherent sets. */
  method CheckRecordSet(native: Members, references: seq<Members>, projections: seq<Members>,
                        expectedSource: Option<Json>)
    returns (r: Result<()>)
    ensures r.Ok? <==> Coherent(native, references, projections, expectedSource)
    ensures r.Fail? ==> r.category == "scope_mismatch" || r.category == "identity_collision"
  {
    if expectedSource.Some? && Get(native, T("source_version_id")) != expectedSource.value {
      return Fail("scope_mismatch");
    }
    var referenceIds :- CheckReferences(native, references);
    PlacedMeansScopedAndListed(native, references, referenceIds, projections);
    r := CheckProjections(native, referenceIds.Keys, projections);
  }
}
