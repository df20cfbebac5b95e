/**
  What the identifier of an accepted observation row binds. It is a hash of canonical bytes, which do not tell
  2 from 2.0, while the facts of a row are compared as Python does, which does not tell 1 from true either.
 */
module ObservationIdentity {
  import opened Wrappers
  import opened Unicode
  import opened CanonicalJson
  import opened PythonValues
  import opened Jcs
  import opened HoldoutRows
  import opened ObservationRows
  import opened ObservationProducer

  /** Question, treatment, outcome, failure and selected items have the same canonical bytes. */
  ghost predicate SameInputs(a: Row, b: Row)
    requires KeysClosed(a) && KeysClosed(b)
  {
    && CanonicalSelected(a.selected.value) == CanonicalSelected(b.selected.value)
    && forall k :: IsInput(k) ==> Canonical(a.fields[k]) == Canonical(b.fields[k])
  }

  /** Every derived value is equal, as Python compares. */
  ghost predicate SameFacts(a: Row, b: Row)
    requires KeysClosed(a) && KeysClosed(b)
  {
    forall k :: IsDerived(k) ==> Equals(a.fields[k], b.fields[k])
  }

  /** No derived value is a Boolean in one row and something else in the other. */
  ghost predicate BooleansAlike(a: Row, b: Row)
    requires KeysClosed(a) && KeysClosed(b)
  {
    forall k :: IsDerived(k) ==> a.fields[k].JBool? == b.fields[k].JBool?
  }

  /** The hash tells the identified parts of these two rows apart if their canonical bytes differ. */
  predicate NoCollision(digest: Digest, a: Row, b: Row) {
    var x, y := CanonicalRow(Semantic(a)), CanonicalRow(Semantic(b));
    digest(x) == digest(y) ==> x == y
  }

  // ---------------------------------------------------------------- values that match a fact

  lemma ComparableTexts(texts: seq<Text>)
    ensures Comparable(Texts(texts)) == Texts(texts)
  {
    var c := Comparable(Texts(texts));
    forall i | 0 <= i < |texts| ensures c.items[i] == Texts(texts).items[i] {
      assert c.items[i] == Comparable(Texts(texts).items[i]) && Texts(texts).items[i] == JStr(texts[i]);
    }
  }

  lemma ComparableString(v: Json, t: Text)
    requires Comparable(v) == JStr(t)
    ensures v == JStr(t)
  {
  }

  /** Only the list itself equals a list of strings. */
  lemma EqualsTexts(v: Json, texts: seq<Text>)
    requires Equals(v, Texts(texts))
    ensures v == Texts(texts)
  {
    ComparableTexts(texts);
    assert v.JArr? && |v.items| == |texts|;
    forall i | 0 <= i < |texts| ensures v.items[i] == Texts(texts).items[i] {
      assert Comparable(v).items[i] == Comparable(v.items[i]);
      ComparableString(v.items[i], texts[i]);
    }
  }

  lemma EqualsScalar(v: Json, w: Json)
    requires Equals(v, w) && Scalar(w)
    ensures Scalar(v)
  {
  }

  predicate ListKey(k: RowKey) {
    k == CoveredAtomIds || k == CoveredSourceKeys
  }

  lemma FactKinds(f: Facts, k: RowKey)
    ensures !ListKey(k) ==> Scalar(FactValue(f, k))
    ensures ListKey(k) ==> FactValue(f, k) == Texts(if k == CoveredAtomIds then f.coveredAtoms else f.coveredSources)
  {
  }

  /** Two values that match one fact have the same canonical bytes exactly when both are Booleans or neither is. */
  lemma MatchingHashAlike(v: Json, w: Json, f: Facts, k: RowKey)
    requires Equals(v, FactValue(f, k)) && Equals(w, FactValue(f, k)) && Hashable(v) && Hashable(w)
    ensures Canonical(v) == Canonical(w) <==> v.JBool? == w.JBool?
  {
    FactKinds(f, k);
    if ListKey(k) {
      var texts := if k == CoveredAtomIds then f.coveredAtoms else f.coveredSources;
      EqualsTexts(v, texts);
      EqualsTexts(w, texts);
    } else {
      EqualsScalar(v, FactValue(f, k));
      EqualScalarsHashAlike(v, w);
    }
  }

  /** Two rows that match the same facts have Python-equal values. */
  lemma MatchingFactsAreEqual(a: Row, b: Row, f: Facts)
    requires KeysClosed(a) && KeysClosed(b) && FactsMatch(a.fields, f) && FactsMatch(b.fields, f)
    ensures SameFacts(a, b)
  {
    forall k | IsDerived(k) ensures Equals(a.fields[k], b.fields[k]) {
      assert Equals(a.fields[k], FactValue(f, k)) && Equals(b.fields[k], FactValue(f, k));
    }
  }

  lemma SemanticValue(row: Row, k: RowKey)
    requires KeysClosed(row)
    ensures k in Semantic(row).fields <==> IsInput(k) || IsDerived(k)
    ensures k in Semantic(row).fields ==> k in row.fields && Semantic(row).fields[k] == row.fields[k]
  {
  }

  lemma CanonicalField(row: Row, k: RowKey)
    requires KeysClosed(row)
    ensures k in CanonicalRow(Semantic(row)).fields <==> IsInput(k) || IsDerived(k)
    ensures k in CanonicalRow(Semantic(row)).fields ==>
      CanonicalRow(Semantic(row)).fields[k] == Canonical(row.fields[k])
  {
    SemanticValue(row, k);
  }

  ghost predicate SameBytesAt(a: Row, b: Row, k: RowKey)
    requires KeysClosed(a) && KeysClosed(b)
  {
    IsInput(k) || IsDerived(k) ==> Canonical(a.fields[k]) == Canonical(b.fields[k])
  }

  lemma SameFieldsIff(a: Row, b: Row, x: map<RowKey, Json>, y: map<RowKey, Json>)
    requires KeysClosed(a) && KeysClosed(b)
    requires x == CanonicalRow(Semantic(a)).fields && y == CanonicalRow(Semantic(b)).fields
    ensures x == y <==> forall k :: SameBytesAt(a, b, k)
  {
    forall k ensures k in x <==> k in y {
      CanonicalField(a, k);
      CanonicalField(b, k);
    }
    if forall k :: SameBytesAt(a, b, k) {
      forall k | k in x ensures x[k] == y[k] {
        CanonicalField(a, k);
        CanonicalField(b, k);
        assert SameBytesAt(a, b, k);
      }
    }
    if x == y {
      forall k ensures SameBytesAt(a, b, k) {
        CanonicalField(a, k);
        CanonicalField(b, k);
      }
    }
  }

  /** The identified parts of two rows have the same canonical bytes exactly when inputs and derived values have. */
  lemma SemanticIsInputsAndFacts(a: Row, b: Row)
    requires KeysClosed(a) && KeysClosed(b)
    ensures CanonicalRow(Semantic(a)) == CanonicalRow(Semantic(b)) <==>
      SameInputs(a, b) && forall k :: IsDerived(k) ==> Canonical(a.fields[k]) == Canonical(b.fields[k])
  {
    SameFieldsIff(a, b, CanonicalRow(Semantic(a)).fields, CanonicalRow(Semantic(b)).fields);
    assert (forall k :: SameBytesAt(a, b, k)) <==>
      ((forall k :: IsInput(k) ==> Canonical(a.fields[k]) == Canonical(b.fields[k]))
       && forall k :: IsDerived(k) ==> Canonical(a.fields[k]) == Canonical(b.fields[k])) by {
      if forall k :: SameBytesAt(a, b, k) {
        forall k | IsInput(k) || IsDerived(k) ensures Canonical(a.fields[k]) == Canonical(b.fields[k]) {
          assert SameBytesAt(a, b, k);
        }
      }
    }
  }

  /** An accepted value is one that has canonical bytes. */
  lemma IdentifiedValuesAreHashable(row: Row, digest: Digest, k: RowKey)
    requires KeysClosed(row) && Identified(row, digest) && IsDerived(k)
    ensures Hashable(row.fields[k])
  {
    SemanticValue(row, k);
  }

  // ---------------------------------------------------------------- same inputs, same views

  lemma SameItemView(parse: ReadInt, x: RawItem, y: RawItem, order: nat)
    requires ItemReadable(parse, x, order) && ItemReadable(parse, y, order) && CanonicalItem(x) == CanonicalItem(y)
    ensures RawView(parse, x, order) == RawView(parse, y, order)
  {
    var m, n := x.members, y.members;
    forall k | k in ITEM_KEYS ensures k in m && k in n && Canonical(m[k]) == Canonical(n[k]) {
      assert CanonicalFields(m)[k] == CanonicalFields(n)[k];
    }
    forall k | k in ITEM_KEYS
      ensures k in m && k in n && Truthy(m[k]) == Truthy(n[k]) && IntOf(parse, m[k]) == IntOf(parse, n[k])
    {
      CanonicalReadsAlike(parse, m[k]);
      CanonicalReadsAlike(parse, n[k]);
    }
    CanonicalStrings(m[Covered], n[Covered]);
    if m[SourceKey].JStr? { CanonicalString(n[SourceKey], m[SourceKey].s); }
  }

  lemma SameInputsSameViews(parse: ReadInt, a: Row, b: Row)
    requires KeysClosed(a) && KeysClosed(b) && SameInputs(a, b) && ItemsReadable(parse, a) && ItemsReadable(parse, b)
    ensures ViewsOf(parse, a) == ViewsOf(parse, b) && Passed(a) == Passed(b)
  {
    var x, y := a.selected.value.items, b.selected.value.items;
    var cx, cy := CanonicalSelected(Items(x)).items, CanonicalSelected(Items(y)).items;
    assert |x| == |cx| == |cy| == |y|;
    forall i | 0 <= i < |x| ensures RawViews(parse, x)[i] == RawViews(parse, y)[i] {
      assert cx[i] == CanonicalItem(x[i]) && cy[i] == CanonicalItem(y[i]);
      SameItemView(parse, x[i], y[i], i);
    }
    assert Canonical(a.fields[Outcome]) == Canonical(b.fields[Outcome]);
    CanonicalString(a.fields[Outcome], T("pass"));
    CanonicalString(b.fields[Outcome], T("pass"));
  }

  // ---------------------------------------------------------------- main results

  /** Accepted rows of one question with the same inputs have the same facts. */
  lemma SameInputsSameFacts(a: Row, b: Row, q: Question, parse: ReadInt, digest: Digest, f: Facts, g: Facts)
    requires Fits(a, q, parse, digest, f) && Fits(b, q, parse, digest, g) && SameInputs(a, b)
    ensures f == g
  {
    SameInputsSameViews(parse, a, b);
    FactsAreDetermined(q, Passed(a), ViewsOf(parse, a), f, g);
  }

  /**
    Accepted rows of one question: with the same inputs, however their numbers are written, they have
    Python-equal facts. Without a collision their identifiers are equal exactly when their inputs are the
    same and no fact is a Boolean in one row and a number in the other.
   */
  lemma AcceptedRowsAgree(a: Row, b: Row, q: Question, parse: ReadInt, digest: Digest)
    requires RowAccepted(a, q, parse, digest) && RowAccepted(b, q, parse, digest)
    requires KeysClosed(a) && KeysClosed(b)
    ensures SameInputs(a, b) ==> SameFacts(a, b)
    ensures NoCollision(digest, a, b) ==>
      (a.fields[ObservationId] == b.fields[ObservationId] <==> SameInputs(a, b) && BooleansAlike(a, b))
  {
    var f :| Fits(a, q, parse, digest, f);
    var g :| Fits(b, q, parse, digest, g);
    SemanticIsInputsAndFacts(a, b);
    if SameInputs(a, b) {
      SameInputsSameFacts(a, b, q, parse, digest, f, g);
      MatchingFactsAreEqual(a, b, f);
      AlikeExactlyWhenSameBytes(a, b, digest, f);
    }
  }

  lemma AlikeExactlyWhenSameBytes(a: Row, b: Row, digest: Digest, f: Facts)
    requires KeysClosed(a) && KeysClosed(b) && FactsMatch(a.fields, f) && FactsMatch(b.fields, f)
    requires Identified(a, digest) && Identified(b, digest)
    ensures BooleansAlike(a, b) <==> forall k :: IsDerived(k) ==> Canonical(a.fields[k]) == Canonical(b.fields[k])
  {
    forall k | IsDerived(k)
      ensures Canonical(a.fields[k]) == Canonical(b.fields[k]) <==> a.fields[k].JBool? == b.fields[k].JBool?
    {
      IdentifiedValuesAreHashable(a, digest, k);
      IdentifiedValuesAreHashable(b, digest, k);
      MatchingHashAlike(a.fields[k], b.fields[k], f, k);
    }
  }

  // ---------------------------------------------------------------- one for true

  /** The row with one derived value written otherwise, under its own new identifier. */
  function Rewritten(row: Row, k: RowKey, v: Json, id: Text): Row {
    Row(row.fields[k := v][ObservationId := JStr(id)], row.selected)
  }

  lemma UpdatedTwice<K, V>(m: map<K, V>, k: K, v: V, o: K, w: V)
    requires k in m && o in m && k != o
    ensures m[k := v][o := w].Keys == m.Keys
    ensures forall x :: x in m && x != k && x != o ==> m[k := v][o := w][x] == m[x]
    ensures m[k := v][o := w][k] == v && m[k := v][o := w][o] == w
  {
  }

  lemma RewrittenFields(row: Row, k: RowKey, v: Json, id: Text, fields: map<RowKey, Json>)
    requires KeysClosed(row) && IsDerived(k) && fields == Rewritten(row, k, v, id).fields
    ensures KeysClosed(Rewritten(row, k, v, id))
    ensures k in fields && fields[k] == v && ObservationId in fields && fields[ObservationId] == JStr(id)
    ensures forall o: RowKey :: !o.OtherKey? && o != k && o != ObservationId ==>
      o in fields && o in row.fields && fields[o] == row.fields[o]
  {
    UpdatedTwice(row.fields, k, v, ObservationId, JStr(id));
  }

  lemma RewrittenKeepsInputs(row: Row, k: RowKey, v: Json, id: Text)
    requires KeysClosed(row) && IsDerived(k)
    ensures KeysClosed(Rewritten(row, k, v, id)) && SameInputs(row, Rewritten(row, k, v, id))
  {
    var fields := Rewritten(row, k, v, id).fields;
    RewrittenFields(row, k, v, id, fields);
    assert forall o :: IsInput(o) ==> row.fields[o] == fields[o];
  }

  lemma RewrittenMatches(row: Row, f: Facts, k: RowKey, v: Json, id: Text)
    requires KeysClosed(row) && IsDerived(k) && FactsMatch(row.fields, f) && Equals(v, row.fields[k])
    ensures KeysClosed(Rewritten(row, k, v, id)) && FactsMatch(Rewritten(row, k, v, id).fields, f)
  {
    var fields := Rewritten(row, k, v, id).fields;
    RewrittenFields(row, k, v, id, fields);
    forall o | IsDerived(o) ensures Equals(fields[o], FactValue(f, o)) {
      assert Equals(row.fields[o], FactValue(f, o));
    }
  }

  lemma RewrittenKeepsSeal(row: Row, digest: Digest, k: RowKey, v: Json, id: Text)
    requires KeysClosed(row) && IsDerived(k) && Sealed(row, digest)
    requires Identify(digest, Semantic(Rewritten(row, k, v, id))) == Some(id)
    ensures KeysClosed(Rewritten(row, k, v, id)) && Sealed(Rewritten(row, k, v, id), digest)
  {
    RewrittenFields(row, k, v, id, Rewritten(row, k, v, id).fields);
  }

  lemma RewrittenKeepsOutcome(row: Row, k: RowKey, v: Json, id: Text)
    requires KeysClosed(row) && IsDerived(k)
    ensures KeysClosed(Rewritten(row, k, v, id)) && Passed(Rewritten(row, k, v, id)) == Passed(row)
  {
    RewrittenFields(row, k, v, id, Rewritten(row, k, v, id).fields);
  }

  /** Whatever Python calls equal may be written in place of a fact: the row is accepted as well. */
  lemma RewrittenIsAccepted(row: Row, q: Question, parse: ReadInt, digest: Digest, f: Facts, k: RowKey, v: Json,
                            id: Text)
    requires Fits(row, q, parse, digest, f) && IsDerived(k) && Equals(v, row.fields[k])
    requires Identify(digest, Semantic(Rewritten(row, k, v, id))) == Some(id)
    ensures Fits(Rewritten(row, k, v, id), q, parse, digest, f)
    ensures SameInputs(row, Rewritten(row, k, v, id))
  {
    RewrittenKeepsInputs(row, k, v, id);
    RewrittenKeepsOutcome(row, k, v, id);
    RewrittenMatches(row, f, k, v, id);
    RewrittenKeepsSeal(row, digest, k, v, id);
  }

  /** The identifier that a row with a rewritten value needs does not depend on the one it carries. */
  lemma SemanticIgnoresId(row: Row, k: RowKey, v: Json, id: Text, other: Text)
    ensures Semantic(Rewritten(row, k, v, id)) == Semantic(Rewritten(row, k, v, other))
  {
    assert Semantic(Rewritten(row, k, v, id)).fields == Semantic(Rewritten(row, k, v, other)).fields;
  }

  lemma RewrittenIsHashable(row: Row, k: RowKey, v: Json, id: Text)
    requires KeysClosed(row) && IsDerived(k) && HashableRow(Semantic(row)) && Hashable(v)
    ensures HashableRow(Semantic(Rewritten(row, k, v, id)))
  {
    var other := Rewritten(row, k, v, id);
    RewrittenFields(row, k, v, id, other.fields);
    forall o | o in Semantic(other).fields ensures Hashable(Semantic(other).fields[o]) && !o.OtherKey? {
      SemanticValue(other, o);
      SemanticValue(row, o);
    }
  }

  // ---------------------------------------------------------------- 2.0 for 2

  lemma RewrittenHasSameBytes(row: Row, k: RowKey, v: Json, id: Text)
    requires KeysClosed(row) && IsDerived(k) && Canonical(v) == Canonical(row.fields[k])
    ensures CanonicalRow(Semantic(Rewritten(row, k, v, id))) == CanonicalRow(Semantic(row))
  {
    var other := Rewritten(row, k, v, id);
    RewrittenFields(row, k, v, id, other.fields);
    RewrittenKeepsInputs(row, k, v, id);
    SemanticIsInputsAndFacts(other, row);
    forall o | IsDerived(o) ensures Canonical(other.fields[o]) == Canonical(row.fields[o]) {}
  }

  lemma SameBytesSameIdentity(row: Row, digest: Digest, k: RowKey, v: Json, id: Text)
    requires KeysClosed(row) && IsDerived(k) && Canonical(v) == Canonical(row.fields[k]) && Hashable(v)
    requires Identified(row, digest) && row.fields[ObservationId] == JStr(id)
    ensures Identify(digest, Semantic(Rewritten(row, k, v, id))) == Some(id)
  {
    RewrittenHasSameBytes(row, k, v, id);
    RewrittenIsHashable(row, k, v, id);
  }

  /**
    A value with the same canonical bytes, such as 2.0 for 2, may stand in place of a fact: the row is
    accepted as well, under the very same identifier.
   */
  lemma SameBytesKeepIdentifier(row: Row, q: Question, parse: ReadInt, digest: Digest, f: Facts, k: RowKey, v: Json,
                                id: Text)
    requires Fits(row, q, parse, digest, f) && IsDerived(k) && row.fields[ObservationId] == JStr(id)
    requires Hashable(v) && Canonical(v) == Canonical(row.fields[k])
    ensures Fits(Rewritten(row, k, v, id), q, parse, digest, f)
    ensures SameInputs(row, Rewritten(row, k, v, id))
    ensures Rewritten(row, k, v, id).fields[ObservationId] == JStr(id) && Rewritten(row, k, v, id).fields[k] == v
  {
    RewrittenFields(row, k, v, id, Rewritten(row, k, v, id).fields);
    SameBytesSameIdentity(row, digest, k, v, id);
    SameBytesMeansEqual(v, row.fields[k]);
    RewrittenIsAccepted(row, q, parse, digest, f, k, v, id);
  }

  lemma FloatPrintsAsInteger(n: int, v: Json)
    requires Hashable(JInt(n)) && v == JFloat(n as real)
    ensures Hashable(v) && Canonical(v) == JInt(n)
  {
    assert (n as real).Floor == n;
  }

  /** So every integer of an accepted row may be written as a float: nothing but the type changes. */
  lemma FloatForIntegerIsAccepted(row: Row, q: Question, parse: ReadInt, digest: Digest, f: Facts, k: RowKey, n: int,
                                  id: Text, v: Json)
    requires Fits(row, q, parse, digest, f) && IsDerived(k) && row.fields[ObservationId] == JStr(id)
    requires row.fields[k] == JInt(n) && v == JFloat(n as real)
    ensures Fits(Rewritten(row, k, v, id), q, parse, digest, f)
    ensures Rewritten(row, k, v, id).fields[ObservationId] == row.fields[ObservationId]
    ensures Rewritten(row, k, v, id).fields[k] == v
  {
    IdentifiedValuesAreHashable(row, digest, k);
    FloatPrintsAsInteger(n, v);
    SameBytesKeepIdentifier(row, q, parse, digest, f, k, v, id);
  }

  // ---------------------------------------------------------------- one for true

  function EmptyGiven(treatment: Text): Given {
    Given(treatment, [], T("pass"), JNull, 0, 0)
  }

  /** What a row for no selected items states. */
  function EmptySemantic(q: Question, treatment: Text): Row {
    SemanticRow(q, EmptyGiven(treatment), FactsOf(q, true, []))
  }

  /** A row for no selected items, as a run writes it. */
  function EmptyRow(q: Question, treatment: Text, digest: Digest, audit: Json): Row {
    var semantic := EmptySemantic(q, treatment);
    WithAudit(Finish(semantic, digest(CanonicalRow(semantic)), EmptyGiven(treatment)), audit)
  }

  /** The names of the question and the treatment can be encoded, and the counts are safe integers. */
  predicate Encodable(q: Question, treatment: Text) {
    NoSurrogates(q.id) && NoSurrogates(treatment)
    && |q.atoms| <= MAX_SAFE_INTEGER && |q.requiredSources| <= MAX_SAFE_INTEGER
  }

  lemma EmptyFacts(q: Question, f: Facts)
    requires f == FactsOf(q, true, [])
    ensures f == Facts(|q.atoms|, [], |q.requiredSources|, [], f.fullSupport, true, false, 0, 0, None, 0, 0)
  {
    assert CoveredIn([]) == {} && SourcesIn([], q) == {};
  }

  lemma EmptyFactsAreHashable(f: Facts, k: RowKey)
    requires f == Facts(f.requiredAtoms, [], f.requiredSources, [], f.fullSupport, true, false, 0, 0, None, 0, 0)
    requires f.requiredAtoms <= MAX_SAFE_INTEGER && f.requiredSources <= MAX_SAFE_INTEGER
    ensures Hashable(FactValue(f, k))
  {
  }

  lemma SemanticFields(q: Question, given: Given, f: Facts, fields: map<RowKey, Json>)
    requires fields == SemanticRow(q, given, f).fields
    ensures forall k :: k in fields <==> IsInput(k) || IsDerived(k)
    ensures forall k :: IsDerived(k) ==> fields[k] == FactValue(f, k)
    ensures fields[QuestionId] == JStr(q.id) && fields[Treatment] == JStr(given.treatment)
    ensures fields[Outcome] == JStr(given.outcome) && fields[FailureCategory] == given.failure
  {
    InputsKeys(q.id, given.treatment, given.outcome, given.failure);
    FactsKeys(f);
    forall k | IsDerived(k) ensures fields[k] == FactValue(f, k) { FactsWritten(f, k); }
  }

  ghost predicate HashableParts(q: Question, given: Given, f: Facts) {
    && NoSurrogates(q.id) && NoSurrogates(given.treatment) && NoSurrogates(given.outcome)
    && Hashable(given.failure) && HashableSelected(Items(ItemsJson(given.items)))
    && forall k :: IsDerived(k) ==> Hashable(FactValue(f, k))
  }

  lemma HashableFields(q: Question, given: Given, f: Facts, row: Row)
    requires row == SemanticRow(q, given, f)
    ensures HashableRow(row) ==> HashableParts(q, given, f)
  {
    SemanticFields(q, given, f, row.fields);
    if HashableRow(row) {
      forall k | IsDerived(k) ensures Hashable(FactValue(f, k)) { assert Hashable(row.fields[k]); }
      assert Hashable(row.fields[QuestionId]) && Hashable(row.fields[Treatment]) && Hashable(row.fields[Outcome]);
    }
  }

  /** What a row states has canonical bytes exactly when its inputs, facts and items have. */
  lemma SemanticIsHashable(q: Question, given: Given, f: Facts)
    ensures HashableRow(SemanticRow(q, given, f)) <==> HashableParts(q, given, f)
  {
    var row := SemanticRow(q, given, f);
    HashableFields(q, given, f, row);
    if HashableParts(q, given, f) {
      SemanticFields(q, given, f, row.fields);
      forall k | k in row.fields ensures Hashable(row.fields[k]) && !k.OtherKey? {
        assert IsInput(k) || IsDerived(k);
      }
    }
  }

  lemma EmptyFactsHashable(q: Question, f: Facts)
    requires f == FactsOf(q, true, [])
    ensures (forall k :: IsDerived(k) ==> Hashable(FactValue(f, k))) <==>
      |q.atoms| <= MAX_SAFE_INTEGER && |q.requiredSources| <= MAX_SAFE_INTEGER
  {
    EmptyFacts(q, f);
    if |q.atoms| <= MAX_SAFE_INTEGER && |q.requiredSources| <= MAX_SAFE_INTEGER {
      forall k | IsDerived(k) ensures Hashable(FactValue(f, k)) { EmptyFactsAreHashable(f, k); }
    }
    if forall k :: IsDerived(k) ==> Hashable(FactValue(f, k)) {
      assert Hashable(FactValue(f, RequiredAtomCount)) && Hashable(FactValue(f, RequiredSourceCount));
    }
  }

  /** The row can be identified exactly when its names can be encoded and its counts are safe. */
  lemma EmptyIsHashable(q: Question, treatment: Text)
    ensures HashableRow(EmptySemantic(q, treatment)) <==> Encodable(q, treatment)
  {
    SemanticIsHashable(q, EmptyGiven(treatment), FactsOf(q, true, []));
    EmptyFactsHashable(q, FactsOf(q, true, []));
    EmptyGivenIsHashable(treatment, EmptyGiven(treatment));
  }

  lemma EmptyGivenIsHashable(treatment: Text, given: Given)
    requires given == EmptyGiven(treatment)
    ensures given.treatment == treatment && NoSurrogates(given.outcome) && Hashable(given.failure)
    ensures HashableSelected(Items(ItemsJson(given.items)))
  {
    PassHasNoSurrogates();
  }

  lemma PassHasNoSurrogates()
    ensures NoSurrogates(T("pass"))
  {
  }

  lemma EmptyRowFits(q: Question, treatment: Text, parse: ReadInt, digest: Digest, audit: Json, row: Row)
    requires Encodable(q, treatment) && AuditShaped(audit) && row == EmptyRow(q, treatment, digest, audit)
    ensures Fits(row, q, parse, digest, FactsOf(q, true, []))
  {
    var given, semantic := EmptyGiven(treatment), EmptySemantic(q, treatment);
    EmptyIsHashable(q, treatment);
    assert Views([]) == [];
    FactsOfHold(q, true, []);
    WrittenRowFits(Finish(semantic, digest(CanonicalRow(semantic)), given), q, given, audit, parse, digest,
                   FactsOf(q, true, []));
  }

  lemma AbstentionWritten(f: Facts)
    requires f.abstained
    ensures Abstained in FactsJson(f) && FactsJson(f)[Abstained] == JBool(true)
  {
    FactsWritten(f, Abstained);
  }

  lemma WrittenAbstains(q: Question, given: Given, f: Facts, id: Text, audit: Json, row: Row)
    requires f.abstained && row == WithAudit(Finish(SemanticRow(q, given, f), id, given), audit)
    ensures KeysClosed(row) && row.fields[Abstained] == JBool(true)
  {
    WrittenParts(q, given, f, id, audit, row);
    AbstentionWritten(f);
  }

  /** Nothing selected is an abstention. */
  lemma EmptyRowAbstains(q: Question, treatment: Text, digest: Digest, audit: Json, row: Row)
    requires row == EmptyRow(q, treatment, digest, audit)
    ensures KeysClosed(row) && row.fields[Abstained] == JBool(true)
  {
    WrittenAbstains(q, EmptyGiven(treatment), FactsOf(q, true, []), digest(CanonicalRow(EmptySemantic(q, treatment))),
                    audit, row);
  }

  lemma OneIsTrue(one: Json, yes: Json)
    requires one == JInt(1) && yes == JBool(true)
    ensures Equals(one, yes) && Hashable(one)
  {
  }

  /** The identifier that a row with a rewritten value needs. */
  function HashFor(row: Row, digest: Digest, k: RowKey, v: Json): Text {
    digest(CanonicalRow(Semantic(Rewritten(row, k, v, []))))
  }

  /** A Python-equal value with canonical bytes is accepted once the row is given the identifier it then needs. */
  lemma RewrittenUnderItsHash(row: Row, q: Question, parse: ReadInt, digest: Digest, f: Facts, k: RowKey, v: Json,
                              id: Text, other: Row)
    requires Fits(row, q, parse, digest, f) && IsDerived(k) && Equals(v, row.fields[k]) && Hashable(v)
    requires other == Rewritten(row, k, v, id) && id == HashFor(row, digest, k, v)
    ensures Fits(other, q, parse, digest, f) && SameInputs(row, other) && other.fields[k] == v
  {
    SemanticIgnoresId(row, k, v, [], id);
    RewrittenIsHashable(row, k, v, id);
    RewrittenIsAccepted(row, q, parse, digest, f, k, v, id);
    RewrittenFields(row, k, v, id, other.fields);
  }

  /**
    Wherever an accepted row says true of a fact, there is an accepted row with the same inputs that says 1:
    two rows that agree on every input and differ in a fact.
   */
  lemma OneForTrueIsAccepted(a: Row, q: Question, parse: ReadInt, digest: Digest, f: Facts, k: RowKey, b: Row)
    requires Fits(a, q, parse, digest, f) && IsDerived(k) && a.fields[k] == JBool(true)
    requires b == Rewritten(a, k, JInt(1), HashFor(a, digest, k, JInt(1)))
    ensures RowAccepted(a, q, parse, digest) && RowAccepted(b, q, parse, digest)
    ensures KeysClosed(b) && SameInputs(a, b) && b.fields[k] == JInt(1)
  {
    OneIsTrue(JInt(1), a.fields[k]);
    RewrittenUnderItsHash(a, q, parse, digest, f, k, JInt(1), HashFor(a, digest, k, JInt(1)), b);
  }

  /** Every question and treatment that a run can write have such a row: an abstention. */
  lemma EmptyRowIsAnAbstention(q: Question, treatment: Text, parse: ReadInt, digest: Digest, audit: Json, row: Row)
    requires Encodable(q, treatment) && AuditShaped(audit) && row == EmptyRow(q, treatment, digest, audit)
    ensures Fits(row, q, parse, digest, FactsOf(q, true, [])) && row.fields[Abstained] == JBool(true)
  {
    EmptyRowFits(q, treatment, parse, digest, audit, row);
    EmptyRowAbstains(q, treatment, digest, audit, row);
  }
}
