/**
  How a benchmark run writes observation rows, and that what it writes is accepted: the loops of
  `make_observation` and the derivation of `validate_rows` meet in what each fact means.
 */
module ObservationProducer {
  import opened Wrappers
  import opened Unicode
  import opened CanonicalJson
  import opened PythonValues
  import opened Jcs
  import opened HoldoutRows
  import opened ObservationRows

  // ---------------------------------------------------------------- writing

  /** The dict that `selected_observation` returns. */
  function ItemJson(item: Item): RawItem {
    ItemDict(map[Order := JInt(item.order), EvidenceId := JStr(item.evidenceId), SourceKey := JStr(item.source),
                 Representation := JStr(item.representation), AnchorType := JStr(item.anchorType),
                 Covered := Texts(item.covered), Relevant := JBool(item.relevant),
                 CitationValid := JBool(item.citationValid), ItemScore := JInt(item.fitnessScore),
                 ItemMax := JInt(item.fitnessMax)])
  }

  function ItemsJson(items: seq<Item>): (r: seq<RawItem>)
    ensures |r| == |items|
  {
    seq(|items|, i requires 0 <= i < |items| => ItemJson(items[i]))
  }

  function InputsJson(question: Text, treatment: Text, outcome: Text, failure: Json): map<RowKey, Json> {
    map[QuestionId := JStr(question), Treatment := JStr(treatment), Outcome := JStr(outcome),
        FailureCategory := failure]
  }

  function FactsJson(f: Facts): map<RowKey, Json> {
    map[RequiredAtomCount := JInt(f.requiredAtoms), CoveredAtomIds := Texts(f.coveredAtoms),
        RequiredSourceCount := JInt(f.requiredSources), CoveredSourceKeys := Texts(f.coveredSources),
        FullSupport := JBool(f.fullSupport), Abstained := JBool(f.abstained),
        CitationsComplete := JBool(f.citationsComplete), RelevantCount := JInt(f.relevantCount),
        SelectedCount := JInt(f.selectedCount), FirstRelevantRank := RankJson(f.firstRelevant),
        FitnessScore := JInt(f.score), FitnessMax := JInt(f.maximum)]
  }

  /** What a row is made from, besides its facts. */
  datatype Given = Given(treatment: Text, items: seq<Item>, outcome: Text, failure: Json, wallNs: nat, cpuNs: nat)

  /** The dict `semantic` of `make_observation`, before its identifier. */
  function SemanticRow(q: Question, given: Given, f: Facts): Row {
    Row(InputsJson(q.id, given.treatment, given.outcome, given.failure) + FactsJson(f),
        Some(Items(ItemsJson(given.items))))
  }

  function Finish(semantic: Row, id: Text, given: Given): Row {
    Row(semantic.fields + TailJson(id, given), semantic.selected)
  }

  function WithAudit(row: Row, audit: Json): Row {
    Row(row.fields + map[ContextAudit := audit], row.selected)
  }

  predicate PassedRun(given: Given) {
    given.outcome == T("pass")
  }

  /** The row states the facts that hold, under the identity of what it states. */
  ghost predicate Written(row: Row, q: Question, given: Given, digest: Digest, f: Facts) {
    && FactsHold(q, PassedRun(given), Views(given.items), f)
    && Identify(digest, SemanticRow(q, given, f)).Some?
    && row == Finish(SemanticRow(q, given, f), Identify(digest, SemanticRow(q, given, f)).value, given)
  }

  /** What the row would state has no canonical bytes. */
  ghost predicate Unstatable(q: Question, given: Given, f: Facts) {
    FactsHold(q, PassedRun(given), Views(given.items), f) && !HashableRow(SemanticRow(q, given, f))
  }

  /** `make_observation`. It raises exactly when what the row would state has no canonical bytes. */
  method MakeObservation(q: Question, given: Given, digest: Digest) returns (r: Result<Row>)
    ensures r.Ok? ==> exists f :: Written(r.value, q, given, digest, f)
    ensures r.Fail? ==> exists f :: Unstatable(q, given, f)
  {
    var facts := MakeFacts(q, PassedRun(given), Views(given.items));
    var semantic := SemanticRow(q, given, facts);
    var id := Identify(digest, semantic);
    if id.None? {
      assert Unstatable(q, given, facts);
      return Fail("identity");
    }
    var row := Finish(semantic, id.value, given);
    assert Written(row, q, given, digest, facts);
    return Ok(row);
  }

  // ---------------------------------------------------------------- what is written is accepted

  ghost predicate InOrder(items: seq<Item>) {
    forall i :: 0 <= i < |items| ==> items[i].order == i
  }

  lemma StringsOfTexts(texts: seq<Text>)
    ensures AllStrings(Texts(texts).items) && Strings(Texts(texts).items) == texts
  {
  }

  lemma WrittenItemReads(parse: ReadInt, item: Item, order: nat)
    requires item.order == order
    ensures ItemReadable(parse, ItemJson(item), order)
    ensures RawView(parse, ItemJson(item), order) == ViewOf(item)
  {
    StringsOfTexts(item.covered);
  }

  lemma WrittenItemsRead(parse: ReadInt, items: seq<Item>)
    requires InOrder(items)
    ensures AllReadable(parse, ItemsJson(items)) && RawViews(parse, ItemsJson(items)) == Views(items)
  {
    forall i | 0 <= i < |items|
      ensures ItemReadable(parse, ItemsJson(items)[i], i)
      ensures RawView(parse, ItemsJson(items)[i], i) == Views(items)[i]
    {
      WrittenItemReads(parse, items[i], i);
    }
  }

  /** The dict that is written says what the facts say. */
  lemma FactsWritten(f: Facts, k: RowKey)
    requires IsDerived(k)
    ensures k in FactsJson(f) && FactsJson(f)[k] == FactValue(f, k)
  {
  }

  lemma WrittenFactsMatch(f: Facts, fields: map<RowKey, Json>)
    requires forall k :: IsDerived(k) ==> k in fields && k in FactsJson(f) && fields[k] == FactsJson(f)[k]
    ensures FactsMatch(fields, f)
  {
    forall k | IsDerived(k) ensures Equals(fields[k], FactValue(f, k)) { FactsWritten(f, k); }
  }

  lemma InputsKeys(question: Text, treatment: Text, outcome: Text, failure: Json)
    ensures forall k :: k in InputsJson(question, treatment, outcome, failure) <==> IsInput(k)
  {
  }

  lemma FactsKeys(f: Facts)
    ensures forall k :: k in FactsJson(f) <==> IsDerived(k)
  {
  }

  /** The parts of a row keep their values, and the identity covers the first two. */
  lemma PartsOfRow(a: map<RowKey, Json>, b: map<RowKey, Json>, c: map<RowKey, Json>, d: map<RowKey, Json>,
                   selected: Selected)
    requires (forall k :: k in a <==> IsInput(k)) && (forall k :: k in b <==> IsDerived(k))
    requires c.Keys == {ObservationId, WallNs, CpuNs} && d.Keys == {ContextAudit}
    ensures KeysClosed(Row(a + b + c + d, Some(selected)))
    ensures Semantic(Row(a + b + c + d, Some(selected))) == Row(a + b, Some(selected))
    ensures forall k :: k in a ==> (a + b + c + d)[k] == a[k]
    ensures forall k :: k in b ==> (a + b + c + d)[k] == b[k]
    ensures forall k :: k in c ==> (a + b + c + d)[k] == c[k]
    ensures forall k :: k in d ==> (a + b + c + d)[k] == d[k]
  {
    var all := a + b + c + d;
    assert forall k :: k in all && !IsOutside(k) <==> k in a + b;
    assert Semantic(Row(all, Some(selected))).fields == a + b;
  }

  function TailJson(id: Text, given: Given): map<RowKey, Json> {
    map[ObservationId := JStr(id), WallNs := JInt(given.wallNs), CpuNs := JInt(given.cpuNs)]
  }

  /** The row that is written, from its four parts. */
  lemma WrittenParts(q: Question, given: Given, f: Facts, id: Text, audit: Json, row: Row)
    requires row == WithAudit(Finish(SemanticRow(q, given, f), id, given), audit)
    ensures KeysClosed(row) && Semantic(row) == SemanticRow(q, given, f)
    ensures row.selected == Some(Items(ItemsJson(given.items)))
    ensures forall k :: IsDerived(k) ==> k in FactsJson(f) && row.fields[k] == FactsJson(f)[k]
    ensures forall k :: k in InputsJson(q.id, given.treatment, given.outcome, given.failure) ==>
      row.fields[k] == InputsJson(q.id, given.treatment, given.outcome, given.failure)[k]
    ensures forall k :: k in TailJson(id, given) ==> row.fields[k] == TailJson(id, given)[k]
    ensures row.fields[ContextAudit] == audit
  {
    var a, b := InputsJson(q.id, given.treatment, given.outcome, given.failure), FactsJson(f);
    InputsKeys(q.id, given.treatment, given.outcome, given.failure);
    FactsKeys(f);
    PartsOfRow(a, b, TailJson(id, given), map[ContextAudit := audit], Items(ItemsJson(given.items)));
    assert ContextAudit in map[ContextAudit := audit];
  }

  lemma InputsValues(question: Text, treatment: Text, outcome: Text, failure: Json, v: map<RowKey, Json>)
    requires v == InputsJson(question, treatment, outcome, failure)
    ensures QuestionId in v && v[QuestionId] == JStr(question)
    ensures Treatment in v && v[Treatment] == JStr(treatment) && Outcome in v && v[Outcome] == JStr(outcome)
  {
  }

  lemma TailValues(id: Text, given: Given, v: map<RowKey, Json>)
    requires v == TailJson(id, given)
    ensures ObservationId in v && v[ObservationId] == JStr(id)
    ensures WallNs in v && v[WallNs] == JInt(given.wallNs) && CpuNs in v && v[CpuNs] == JInt(given.cpuNs)
  {
  }

  lemma WrittenKeys(q: Question, given: Given, f: Facts, id: Text, audit: Json, row: Row)
    requires row == WithAudit(Finish(SemanticRow(q, given, f), id, given), audit)
    ensures KeysClosed(row) && Semantic(row) == SemanticRow(q, given, f)
    ensures row.selected == Some(Items(ItemsJson(given.items)))
    ensures forall k :: IsDerived(k) ==> k in FactsJson(f) && row.fields[k] == FactsJson(f)[k]
    ensures row.fields[QuestionId] == JStr(q.id) && row.fields[Treatment] == JStr(given.treatment)
    ensures row.fields[Outcome] == JStr(given.outcome)
    ensures row.fields[ObservationId] == JStr(id) && row.fields[ContextAudit] == audit
    ensures row.fields[WallNs] == JInt(given.wallNs) && row.fields[CpuNs] == JInt(given.cpuNs)
  {
    WrittenParts(q, given, f, id, audit, row);
    InputsValues(q.id, given.treatment, given.outcome, given.failure,
                 InputsJson(q.id, given.treatment, given.outcome, given.failure));
    TailValues(id, given, TailJson(id, given));
  }

  lemma WrittenIsDescribed(full: Row, q: Question, given: Given, parse: ReadInt, f: Facts)
    requires KeysClosed(full) && full.selected == Some(Items(ItemsJson(given.items)))
    requires full.fields[Outcome] == JStr(given.outcome) && InOrder(given.items)
    requires forall k :: IsDerived(k) ==> k in FactsJson(f) && full.fields[k] == FactsJson(f)[k]
    requires FactsHold(q, PassedRun(given), Views(given.items), f)
    ensures ItemsReadable(parse, full) && Describes(full, q, parse, f)
  {
    WrittenItemsRead(parse, given.items);
    WrittenFactsMatch(f, full.fields);
  }

  /** A row written from consecutively ordered items, with an audit attached, fits. */
  lemma WrittenRowFits(row: Row, q: Question, given: Given, audit: Json, parse: ReadInt, digest: Digest, f: Facts)
    requires Written(row, q, given, digest, f) && InOrder(given.items) && AuditShaped(audit)
    ensures Fits(WithAudit(row, audit), q, parse, digest, f)
    ensures Labelled(WithAudit(row, audit), (q.id, given.treatment))
  {
    var full := WithAudit(row, audit);
    WrittenKeys(q, given, f, Identify(digest, SemanticRow(q, given, f)).value, audit, full);
    WrittenIsDescribed(full, q, given, parse, f);
  }

  // ---------------------------------------------------------------- a whole run

  /** What one query yields. */
  datatype Query = Query(evidence: seq<Evidence>, outcome: Text, failure: Json, wallNs: nat, cpuNs: nat, audit: Json)

  /** What a run works with: the queries are its answers to each question under each treatment. */
  datatype Setting = Setting(normalize: Text -> Text, bank: Bank, queries: (Text, Text) -> Query, digest: Digest)

  type Label = (Text, Text)

  lemma SelectedInOrder(normalize: Text -> Text, q: Question, evidence: seq<Evidence>)
    ensures InOrder(Select(normalize, q, evidence))
  {
  }

  /** What a query gives for one question. */
  function GivenFor(normalize: Text -> Text, q: Question, treatment: Text, query: Query): Given {
    Given(treatment, Select(normalize, q, query.evidence), query.outcome, query.failure, query.wallNs, query.cpuNs)
  }

  /** The facts that hold of the query can be written in a row that has canonical bytes. */
  ghost predicate Statable(normalize: Text -> Text, q: Question, treatment: Text, query: Query) {
    var given := GivenFor(normalize, q, treatment, query);
    exists f :: FactsHold(q, PassedRun(given), Views(given.items), f) && HashableRow(SemanticRow(q, given, f))
  }

  lemma NotStatable(normalize: Text -> Text, q: Question, treatment: Text, query: Query, f: Facts)
    requires Unstatable(q, GivenFor(normalize, q, treatment, query), f)
    ensures !Statable(normalize, q, treatment, query)
  {
    var given := GivenFor(normalize, q, treatment, query);
    forall g | FactsHold(q, PassedRun(given), Views(given.items), g) ensures g == f {
      FactsAreDetermined(q, PassedRun(given), Views(given.items), f, g);
    }
  }

  ghost predicate LabelStatable(s: Setting, pair: Label) {
    pair.0 in s.bank && Statable(s.normalize, s.bank[pair.0], pair.1, s.queries(pair.0, pair.1))
  }

  /** Every row that the run would write has canonical bytes. */
  ghost predicate RunStatable(s: Setting, labels: seq<Label>) {
    forall k :: 0 <= k < |labels| ==> LabelStatable(s, labels[k])
  }

  /** The row's items are those selected from the evidence. */
  ghost predicate IsSelection(row: Row, normalize: Text -> Text, q: Question, evidence: seq<Evidence>, parse: ReadInt) {
    ItemsReadable(parse, row) && ViewsOf(parse, row) == Views(Select(normalize, q, evidence))
  }

  /** The row carries the label, is accepted for its question, and shows what its query selected. */
  ghost predicate ObservedRow(s: Setting, row: Row, pair: Label, parse: ReadInt) {
    && LabelStatable(s, pair) && Labelled(row, pair) && RowAccepted(row, s.bank[pair.0], parse, s.digest)
    && IsSelection(row, s.normalize, s.bank[pair.0], s.queries(pair.0, pair.1).evidence, parse)
  }

  /** The rows so far, under the labels so far. */
  ghost predicate Observed(s: Setting, rows: seq<Row>, labels: seq<Label>, parse: ReadInt) {
    |rows| == |labels| && forall k :: 0 <= k < |rows| ==> ObservedRow(s, rows[k], labels[k], parse)
  }

  lemma WrittenIsSelection(row: Row, normalize: Text -> Text, q: Question, given: Given, query: Query, parse: ReadInt,
                           digest: Digest, f: Facts)
    requires Written(row, q, given, digest, f) && given == GivenFor(normalize, q, given.treatment, query)
    ensures IsSelection(WithAudit(row, query.audit), normalize, q, query.evidence, parse)
  {
    var full := WithAudit(row, query.audit);
    WrittenKeys(q, given, f, Identify(digest, SemanticRow(q, given, f)).value, query.audit, full);
    SelectedInOrder(normalize, q, query.evidence);
    WrittenItemsRead(parse, given.items);
  }

  /** One row of a run: selection, observation, audit. */
  method ObserveOne(s: Setting, pair: Label, ghost parse: ReadInt) returns (r: Result<Row>)
    requires pair.0 in s.bank && s.bank[pair.0].id == pair.0
    requires AuditShaped(s.queries(pair.0, pair.1).audit)
    ensures r.Ok? ==> ObservedRow(s, r.value, pair, parse)
    ensures r.Ok? <==> LabelStatable(s, pair)
  {
    var q, query := s.bank[pair.0], s.queries(pair.0, pair.1);
    var given := GivenFor(s.normalize, q, pair.1, query);
    var row := MakeObservation(q, given, s.digest);
    if row.Fail? {
      ghost var f :| Unstatable(q, given, f);
      NotStatable(s.normalize, q, pair.1, query, f);
      return row;
    }
    ghost var f :| Written(row.value, q, given, s.digest, f);
    SelectedInOrder(s.normalize, q, query.evidence);
    WrittenRowFits(row.value, q, given, query.audit, parse, s.digest, f);
    WrittenIsSelection(row.value, s.normalize, q, given, query, parse, s.digest, f);
    return Ok(WithAudit(row.value, query.audit));
  }

  lemma ObservedConcat(s: Setting, a: seq<Row>, la: seq<Label>, b: seq<Row>, lb: seq<Label>, parse: ReadInt)
    requires Observed(s, a, la, parse) && Observed(s, b, lb, parse)
    ensures Observed(s, a + b, la + lb, parse)
  {
    forall k | 0 <= k < |a + b| ensures ObservedRow(s, (a + b)[k], (la + lb)[k], parse) {
      if k < |a| {
        assert ObservedRow(s, a[k], la[k], parse);
      } else {
        assert ObservedRow(s, b[k - |a|], lb[k - |a|], parse);
      }
    }
  }

  lemma ObservedAlone(s: Setting, row: Row, pair: Label, parse: ReadInt)
    requires ObservedRow(s, row, pair, parse)
    ensures Observed(s, [row], [pair], parse)
  {
  }

  lemma PrefixAndNext<A>(s: seq<A>, j: nat)
    requires j < |s|
    ensures s[..j] + [s[j]] == s[..j + 1]
  {
  }

  lemma ObservedMore(s: Setting, rows: seq<Row>, row: Row, labels: seq<Label>, j: nat, parse: ReadInt)
    requires j < |labels| && Observed(s, rows, labels[..j], parse) && ObservedRow(s, row, labels[j], parse)
    ensures Observed(s, rows + [row], labels[..j + 1], parse)
  {
    ObservedAlone(s, row, labels[j], parse);
    PrefixAndNext(labels, j);
    ObservedConcat(s, rows, labels[..j], [row], [labels[j]], parse);
  }

  lemma ObservedIsStatable(s: Setting, rows: seq<Row>, labels: seq<Label>, parse: ReadInt)
    requires Observed(s, rows, labels, parse)
    ensures RunStatable(s, labels)
  {
    forall k | 0 <= k < |labels| ensures LabelStatable(s, labels[k]) {
      assert ObservedRow(s, rows[k], labels[k], parse);
    }
  }

  /** The rows of one question, under every treatment in order. */
  method ObserveQuestion(s: Setting, id: Text, treatments: seq<Text>, ghost parse: ReadInt)
    returns (r: Result<seq<Row>>)
    requires id in s.bank && s.bank[id].id == id && forall treatment :: AuditShaped(s.queries(id, treatment).audit)
    ensures r.Ok? ==> Observed(s, r.value, Under(id, treatments), parse)
    ensures r.Ok? <==> RunStatable(s, Under(id, treatments))
  {
    var rows: seq<Row> := [];
    ghost var labels := Under(id, treatments);
    for j := 0 to |treatments|
      invariant Observed(s, rows, labels[..j], parse)
    {
      assert labels[j] == (id, treatments[j]);
      var row := ObserveOne(s, (id, treatments[j]), parse);
      if row.Fail? { return Fail(row.category); }
      ObservedMore(s, rows, row.value, labels, j, parse);
      rows := rows + [row.value];
    }
    assert labels[..|treatments|] == labels;
    ObservedIsStatable(s, rows, labels, parse);
    return Ok(rows);
  }

  lemma {:induction false} ExpectedAppend(ids: seq<Text>, id: Text, treatments: seq<Text>)
    ensures Expected(ids + [id], treatments) == Expected(ids, treatments) + Under(id, treatments)
  {
    if ids == [] {
      assert [] + [id] == [id] && [id][1..] == [];
      assert Expected([], treatments) == [];
    } else {
      ExpectedAppend(ids[1..], id, treatments);
      assert (ids + [id])[1..] == ids[1..] + [id];
    }
  }

  /** The labels of a question are among those of the run. */
  lemma {:induction false} UnderIsExpected(s: Setting, ids: seq<Text>, i: nat, treatments: seq<Text>)
    requires i < |ids| && RunStatable(s, Expected(ids, treatments))
    ensures RunStatable(s, Under(ids[i], treatments))
  {
    StatableParts(s, Under(ids[0], treatments), Expected(ids[1..], treatments));
    if i > 0 { UnderIsExpected(s, ids[1..], i - 1, treatments); }
  }

  lemma StatableParts(s: Setting, first: seq<Label>, rest: seq<Label>)
    requires RunStatable(s, first + rest)
    ensures RunStatable(s, first) && RunStatable(s, rest)
  {
    var all := first + rest;
    forall k | 0 <= k < |first| ensures LabelStatable(s, first[k]) { assert LabelStatable(s, all[k]); }
    forall k | 0 <= k < |rest| ensures LabelStatable(s, rest[k]) { assert LabelStatable(s, all[|first| + k]); }
  }

  lemma ObservedNext(s: Setting, rows: seq<Row>, more: seq<Row>, ids: seq<Text>, i: nat, treatments: seq<Text>,
                     parse: ReadInt)
    requires i < |ids| && Observed(s, rows, Expected(ids[..i], treatments), parse)
    requires Observed(s, more, Under(ids[i], treatments), parse)
    ensures Observed(s, rows + more, Expected(ids[..i + 1], treatments), parse)
  {
    ObservedConcat(s, rows, Expected(ids[..i], treatments), more, Under(ids[i], treatments), parse);
    ExpectedAppend(ids[..i], ids[i], treatments);
    assert ids[..i] + [ids[i]] == ids[..i + 1];
  }

  lemma ObservedMeansAccepted(s: Setting, rows: seq<Row>, ids: seq<Text>, treatments: seq<Text>, parse: ReadInt)
    requires Filed(s.bank, ids) && Observed(s, rows, Expected(ids, treatments), parse)
    ensures Accepted(rows, s.bank, ids, treatments, parse, s.digest)
  {
    LabelsAreFiled(s.bank, ids, treatments);
    var labels := Expected(ids, treatments);
    forall k | 0 <= k < |rows|
      ensures Labelled(rows[k], labels[k]) && RowAccepted(rows[k], QuestionsOf(labels, s.bank)[k], parse, s.digest)
    {
      assert ObservedRow(s, rows[k], labels[k], parse);
    }
  }

  /**
    A whole run, question by question under every treatment: whatever was selected, and whatever the
    outcomes, `validate_rows` accepts the rows. The run is stopped exactly by a row without canonical bytes.
   */
  method ObserveAll(s: Setting, ids: seq<Text>, treatments: seq<Text>, ghost parse: ReadInt)
    returns (r: Result<seq<Row>>)
    requires Filed(s.bank, ids) && forall id, treatment :: AuditShaped(s.queries(id, treatment).audit)
    ensures r.Ok? <==> RunStatable(s, Expected(ids, treatments))
    ensures r.Ok? ==> Observed(s, r.value, Expected(ids, treatments), parse)
    ensures r.Ok? ==> Accepted(r.value, s.bank, ids, treatments, parse, s.digest)
  {
    var rows: seq<Row> := [];
    for i := 0 to |ids|
      invariant Observed(s, rows, Expected(ids[..i], treatments), parse)
    {
      var more := ObserveQuestion(s, ids[i], treatments, parse);
      if more.Fail? {
        if RunStatable(s, Expected(ids, treatments)) { UnderIsExpected(s, ids, i, treatments); }
        return more;
      }
      ObservedNext(s, rows, more.value, ids, i, treatments, parse);
      rows := rows + more.value;
    }
    assert ids[..|ids|] == ids;
    ObservedIsStatable(s, rows, Expected(ids, treatments), parse);
    ObservedMeansAccepted(s, rows, ids, treatments, parse);
    return Ok(rows);
  }
}
