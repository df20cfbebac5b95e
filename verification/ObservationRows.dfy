/**
  Observation rows as Python dicts: how the benchmark writes them and how the holdout evaluation
  revalidates them, with Python's `==` between what a row says and what follows from its items.

  A key of a dict is one of the names that the scripts know, or any other text. The hash of canonical bytes
  is a parameter, and so is Python's reading of an integer from a string, which may raise.
 */
module ObservationRows {
  import opened Wrappers
  import opened Unicode
  import opened CanonicalJson
  import opened PythonValues
  import opened Jcs
  import opened HoldoutRows

  datatype RowKey =
    | QuestionId | Treatment | Outcome | FailureCategory | ObservationId | WallNs | CpuNs | ContextAudit
    | CoveredAtomIds | CoveredSourceKeys | RequiredAtomCount | RequiredSourceCount | FullSupport | Abstained
    | CitationsComplete | RelevantCount | SelectedCount | FirstRelevantRank | FitnessScore | FitnessMax
    | OtherKey(name: Text)

  datatype ItemKey =
    | AnchorType | CitationValid | Covered | EvidenceId | Order | Relevant | Representation | ItemMax | ItemScore
    | SourceKey | OtherItemKey(name: Text)

  /** An element of `selected`, and the value under `selected`. */
  datatype RawItem = NotDict(value: Json) | ItemDict(members: map<ItemKey, Json>)
  datatype Selected = NotList(value: Json) | Items(items: seq<RawItem>)

  /** A row: every key but `selected`, and `selected` when it is there. */
  datatype Row = Row(fields: map<RowKey, Json>, selected: Option<Selected>)

  /** The identifier of a canonical row: a hash of its canonical bytes. */
  type Digest = Row -> Text
  type ReadInt = Text -> Option<int>

  /** The keys whose values are given. */
  predicate IsInput(k: RowKey) {
    k.QuestionId? || k.Treatment? || k.Outcome? || k.FailureCategory?
  }

  /** The keys that the identity leaves out. */
  predicate IsOutside(k: RowKey) {
    k.ContextAudit? || k.CpuNs? || k.ObservationId? || k.WallNs?
  }

  /** The twelve keys whose values follow from the others. */
  predicate IsDerived(k: RowKey) {
    !IsInput(k) && !IsOutside(k) && !k.OtherKey?
  }

  /** All keys of a row but `selected`: every name that the scripts know. */
  const ROW_KEYS: set<RowKey> :=
    {QuestionId, Treatment, Outcome, FailureCategory, ObservationId, WallNs, CpuNs, ContextAudit, CoveredAtomIds,
     CoveredSourceKeys, RequiredAtomCount, RequiredSourceCount, FullSupport, Abstained, CitationsComplete,
     RelevantCount, SelectedCount, FirstRelevantRank, FitnessScore, FitnessMax}

  const ITEM_KEYS: set<ItemKey> :=
    {AnchorType, CitationValid, Covered, EvidenceId, Order, Relevant, Representation, ItemMax, ItemScore, SourceKey}

  const AUDIT_KEYS: set<Text> := {T("algorithm"), T("notices"), T("rejected_reason_counts"), T("warnings")}

  /** What the identity covers. */
  function Semantic(row: Row): Row {
    Row(map k | k in row.fields && !IsOutside(k) :: row.fields[k], row.selected)
  }

  function CanonicalFields<K>(fields: map<K, Json>): map<K, Json> {
    map k | k in fields :: Canonical(fields[k])
  }

  function CanonicalItem(raw: RawItem): RawItem {
    match raw
    case NotDict(v) => NotDict(Canonical(v))
    case ItemDict(m) => ItemDict(CanonicalFields(m))
  }

  function CanonicalSelected(selected: Selected): Selected {
    match selected
    case NotList(v) => NotList(Canonical(v))
    case Items(items) => Items(seq(|items|, i requires 0 <= i < |items| => CanonicalItem(items[i])))
  }

  /** The row up to its canonical bytes. */
  function CanonicalRow(row: Row): Row {
    Row(CanonicalFields(row.fields),
        match row.selected case None => None case Some(s) => Some(CanonicalSelected(s)))
  }

  predicate HashableItem(raw: RawItem) {
    match raw
    case NotDict(v) => Hashable(v)
    case ItemDict(m) => forall k :: k in m ==> Hashable(m[k]) && (k.OtherItemKey? ==> NoSurrogates(k.name))
  }

  predicate HashableSelected(selected: Selected) {
    match selected
    case NotList(v) => Hashable(v)
    case Items(items) => forall i :: 0 <= i < |items| ==> HashableItem(items[i])
  }

  /** The row has canonical bytes. */
  predicate HashableRow(row: Row) {
    && (forall k :: k in row.fields ==> Hashable(row.fields[k]) && (k.OtherKey? ==> NoSurrogates(k.name)))
    && (row.selected.Some? ==> HashableSelected(row.selected.value))
  }

  /** `canonical_sha256`, which raises on what has no canonical bytes. */
  function Identify(digest: Digest, row: Row): Option<Text> {
    if HashableRow(row) then Some(digest(CanonicalRow(row))) else None
  }

  function Texts(texts: seq<Text>): Json {
    JArr(seq(|texts|, i requires 0 <= i < |texts| => JStr(texts[i])))
  }

  function RankJson(rank: Option<nat>): Json {
    match rank case None => JNull case Some(r) => JInt(r)
  }

  // ---------------------------------------------------------------- what is accepted

  /** The first loop over `selected`: a dict with the ten keys, its own index, and a list of atoms. */
  predicate ItemShaped(raw: RawItem, order: nat) {
    && raw.ItemDict? && raw.members.Keys == ITEM_KEYS && EqualsInt(raw.members[Order], order)
    && raw.members[Covered].JArr?
  }

  predicate AllStrings(items: seq<Json>) {
    forall i :: 0 <= i < |items| ==> items[i].JStr?
  }

  /** Reading the item raises nothing. */
  predicate ItemReadable(parse: ReadInt, raw: RawItem, order: nat) {
    && ItemShaped(raw, order) && AllStrings(raw.members[Covered].items)
    && IntOf(parse, raw.members[ItemScore]).Some? && IntOf(parse, raw.members[ItemMax]).Some?
  }

  function Strings(items: seq<Json>): (r: seq<Text>)
    requires AllStrings(items)
    ensures |r| == |items|
  {
    seq(|items|, i requires 0 <= i < |items| => items[i].s)
  }

  /** What the validator sees of an item. */
  function RawView(parse: ReadInt, raw: RawItem, order: nat): View
    requires ItemReadable(parse, raw, order)
  {
    var m := raw.members;
    View(if m[SourceKey].JStr? then Some(m[SourceKey].s) else None, Strings(m[Covered].items), Truthy(m[Relevant]),
         Truthy(m[CitationValid]), IntOf(parse, m[ItemScore]).value, IntOf(parse, m[ItemMax]).value)
  }

  ghost predicate AllReadable(parse: ReadInt, items: seq<RawItem>) {
    forall i :: 0 <= i < |items| ==> ItemReadable(parse, items[i], i)
  }

  function RawViews(parse: ReadInt, items: seq<RawItem>): (r: seq<View>)
    requires AllReadable(parse, items)
    ensures |r| == |items|
  {
    seq(|items|, i requires 0 <= i < |items| => RawView(parse, items[i], i))
  }

  /** The dict `derived`: what the facts say under each of its keys. */
  function FactValue(f: Facts, k: RowKey): Json {
    match k
    case CoveredAtomIds => Texts(f.coveredAtoms)
    case CoveredSourceKeys => Texts(f.coveredSources)
    case RequiredAtomCount => JInt(f.requiredAtoms)
    case RequiredSourceCount => JInt(f.requiredSources)
    case FullSupport => JBool(f.fullSupport)
    case Abstained => JBool(f.abstained)
    case CitationsComplete => JBool(f.citationsComplete)
    case RelevantCount => JInt(f.relevantCount)
    case SelectedCount => JInt(f.selectedCount)
    case FirstRelevantRank => RankJson(f.firstRelevant)
    case FitnessScore => JInt(f.score)
    case FitnessMax => JInt(f.maximum)
    case _ => JNull
  }

  /** Each derived value of the row equals the fact, as Python compares. */
  predicate FactsMatch(fields: map<RowKey, Json>, f: Facts) {
    forall k :: k in fields && IsDerived(k) ==> Equals(fields[k], FactValue(f, k))
  }

  predicate IsTime(v: Json) {
    v.JInt? && v.i >= 0
  }

  predicate AuditShaped(v: Json) {
    v.JObj? && v.members.Keys == AUDIT_KEYS
  }

  /** The keys are the known ones, all of them. */
  ghost predicate KeysClosed(row: Row) {
    row.selected.Some? && forall k :: k in row.fields <==> !k.OtherKey?
  }

  lemma RowKeysAreKnown(k: RowKey)
    ensures k in ROW_KEYS <==> !k.OtherKey?
  {
  }

  /** `set(row) == row_keys`. */
  predicate HasRowKeys(row: Row)
    ensures HasRowKeys(row) <==> KeysClosed(row)
  {
    forall k ensures k in ROW_KEYS <==> !k.OtherKey? { RowKeysAreKnown(k); }
    row.fields.Keys == ROW_KEYS && row.selected.Some?
  }

  /** The row passed: the outcome is the string. */
  predicate Passed(row: Row)
    requires KeysClosed(row)
  {
    row.fields[Outcome] == JStr(T("pass"))
  }

  /** The selected items are a list of readable dicts. */
  ghost predicate ItemsReadable(parse: ReadInt, row: Row) {
    row.selected.Some? && row.selected.value.Items? && AllReadable(parse, row.selected.value.items)
  }

  function ViewsOf(parse: ReadInt, row: Row): seq<View>
    requires ItemsReadable(parse, row)
  {
    RawViews(parse, row.selected.value.items)
  }

  /** The facts hold of the row's items, and the row says so. */
  ghost predicate Describes(row: Row, q: Question, parse: ReadInt, f: Facts)
    requires KeysClosed(row) && ItemsReadable(parse, row)
  {
    FactsHold(q, Passed(row), ViewsOf(parse, row), f) && FactsMatch(row.fields, f)
  }

  ghost predicate Identified(row: Row, digest: Digest)
    requires KeysClosed(row)
  {
    Identify(digest, Semantic(row)).Some? && row.fields[ObservationId] == JStr(Identify(digest, Semantic(row)).value)
  }

  /** The row is acceptable and its facts are `f`. */
  ghost predicate Fits(row: Row, q: Question, parse: ReadInt, digest: Digest, f: Facts) {
    && KeysClosed(row) && ItemsReadable(parse, row) && Describes(row, q, parse, f) && Sealed(row, digest)
  }

  /** The identity, the times and the audit of the row are in order. */
  ghost predicate Sealed(row: Row, digest: Digest)
    requires KeysClosed(row)
  {
    && Identified(row, digest)
    && IsTime(row.fields[WallNs]) && IsTime(row.fields[CpuNs]) && AuditShaped(row.fields[ContextAudit])
  }

  /** What `validate_rows` asks of one row. */
  ghost predicate RowAccepted(row: Row, q: Question, parse: ReadInt, digest: Digest) {
    exists f :: Fits(row, q, parse, digest, f)
  }

  // ---------------------------------------------------------------- the validator's own derivation

  function CoveredIn(views: seq<View>): set<Text> {
    set i, j | 0 <= i < |views| && 0 <= j < |views[i].covered| :: views[i].covered[j]
  }

  function SourcesIn(views: seq<View>, q: Question): set<Text> {
    set i | 0 <= i < |views| && views[i].relevant && views[i].source.Some?
            && views[i].source.value in q.requiredSources :: views[i].source.value
  }

  /** `sum(bool(item["relevant"]) for item in selected)`. */
  function RelevantIn(views: seq<View>): nat {
    if views == [] then 0 else (if views[0].relevant then 1 else 0) + RelevantIn(views[1..])
  }

  /** `next((index + 1 for index, item in enumerate(selected) if item["relevant"]), None)`. */
  function NextRelevant(views: seq<View>, index: nat): Option<nat>
    requires index <= |views|
    decreases |views| - index
  {
    if index == |views| then None else if views[index].relevant then Some(index + 1) else NextRelevant(views, index + 1)
  }

  function ScoreIn(views: seq<View>): int {
    if views == [] then 0 else views[0].score + ScoreIn(views[1..])
  }

  function MaximumIn(views: seq<View>): int {
    if views == [] then 0 else views[0].maximum + MaximumIn(views[1..])
  }

  /** The dict `derived` of `validate_rows`. */
  function FactsOf(q: Question, passed: bool, views: seq<View>): Facts {
    var atoms, sources := SortedKeys(CoveredIn(views)), SortedKeys(SourcesIn(views, q));
    Facts(|q.atoms|, atoms, |q.requiredSources|, sources,
          passed && q.answerable && |atoms| == |q.atoms| && |sources| == |q.requiredSources|, views == [],
          views != [] && forall i :: 0 <= i < |views| ==> views[i].citationValid, RelevantIn(views), |views|,
          NextRelevant(views, 0), ScoreIn(views), MaximumIn(views))
  }

  lemma {:induction false} RelevantAppend(views: seq<View>, v: View)
    ensures RelevantIn(views + [v]) == RelevantIn(views) + if v.relevant then 1 else 0
  {
    if views == [] {
      assert [] + [v] == [v] && [v][1..] == [];
    } else {
      RelevantAppend(views[1..], v);
      assert (views + [v])[1..] == views[1..] + [v];
    }
  }

  lemma {:induction false} RelevantInCounts(views: seq<View>)
    ensures RelevantIn(views) == |RelevantAt(views)|
  {
    if views != [] {
      var n := |views| - 1;
      RelevantInCounts(views[..n]);
      RelevantAppend(views[..n], views[n]);
      RelevantOneMore(views, n);
      assert views[..n] + [views[n]] == views && views[..n + 1] == views;
    }
  }

  lemma {:induction false} NextRelevantIsFirst(views: seq<View>, index: nat)
    requires index <= |views| && forall k :: 0 <= k < index ==> !views[k].relevant
    ensures IsFirstRelevant(views, NextRelevant(views, index))
    decreases |views| - index
  {
    if index < |views| && !views[index].relevant { NextRelevantIsFirst(views, index + 1); }
  }

  lemma {:induction false} SumsFromEitherEnd(views: seq<View>)
    ensures ScoreIn(views) == TotalScore(views) && MaximumIn(views) == TotalMaximum(views)
    decreases |views|
  {
    if |views| == 1 {
      assert views[1..] == [] && views[..0] == [];
    } else if |views| > 1 {
      var n := |views| - 1;
      SumsFromEitherEnd(views[1..]);
      SumsFromEitherEnd(views[..n]);
      SumsFromEitherEnd(views[1..n]);
      assert views[1..][..n - 1] == views[1..n] && views[..n][1..] == views[1..n];
    }
  }

  /** The validator's derivation gives the facts that hold. */
  lemma FactsOfHold(q: Question, passed: bool, views: seq<View>)
    ensures FactsHold(q, passed, views, FactsOf(q, passed, views))
  {
    RelevantInCounts(views);
    NextRelevantIsFirst(views, 0);
    SumsFromEitherEnd(views);
    ListsWhatIsCovered(q, views);
  }

  lemma ListsWhatIsCovered(q: Question, views: seq<View>)
    ensures ListsAtoms(SortedKeys(CoveredIn(views)), views)
    ensures ListsSources(SortedKeys(SourcesIn(views, q)), views, q)
  {
    forall id ensures id in CoveredIn(views) <==> CoversAtom(views, id) {}
    forall s ensures s in SourcesIn(views, q) <==> CoversSource(views, q, s) {}
  }

  /** The row's own claims are right exactly when they match the validator's derivation. */
  lemma DescribedByDerivation(row: Row, q: Question, parse: ReadInt)
    requires KeysClosed(row) && ItemsReadable(parse, row)
    ensures (exists f :: Describes(row, q, parse, f))
       <==> FactsMatch(row.fields, FactsOf(q, Passed(row), ViewsOf(parse, row)))
  {
    var passed, views := Passed(row), ViewsOf(parse, row);
    FactsOfHold(q, passed, views);
    if f :| Describes(row, q, parse, f) { FactsAreDetermined(q, passed, views, f, FactsOf(q, passed, views)); }
    if FactsMatch(row.fields, FactsOf(q, passed, views)) {
      assert Describes(row, q, parse, FactsOf(q, passed, views));
    }
  }

  // ---------------------------------------------------------------- the validator

  /** Both passes over `selected`: shape, then reading. */
  method ReadSelected(parse: ReadInt, items: seq<RawItem>) returns (r: Result<seq<View>>)
    ensures r.Ok? <==> AllReadable(parse, items)
    ensures r.Ok? ==> r.value == RawViews(parse, items)
    ensures r == Fail("selected_shape") <==> exists i :: 0 <= i < |items| && !ItemShaped(items[i], i)
  {
    for i := 0 to |items|
      invariant forall k :: 0 <= k < i ==> ItemShaped(items[k], k)
    {
      if !ItemShaped(items[i], i) { return Fail("selected_shape"); }
    }
    var views: seq<View> := [];
    for i := 0 to |items|
      invariant |views| == i
      invariant forall k :: 0 <= k < i ==> ItemReadable(parse, items[k], k) && views[k] == RawView(parse, items[k], k)
    {
      if !ItemReadable(parse, items[i], i) { return Fail("TypeError"); }
      views := views + [RawView(parse, items[i], i)];
    }
    return Ok(views);
  }

  /** The derived values of a row with closed keys. */
  method CheckFacts(row: Row, q: Question, parse: ReadInt) returns (r: Result<Facts>)
    requires KeysClosed(row)
    ensures r.Ok? <==> ItemsReadable(parse, row) && exists f :: Describes(row, q, parse, f)
    ensures r.Ok? ==> Describes(row, q, parse, r.value)
    ensures r == Fail("row_derived_fact") <==> ItemsReadable(parse, row) && !exists f :: Describes(row, q, parse, f)
    ensures r.Fail? ==> r.category in {"selected_shape", "TypeError", "row_derived_fact"}
  {
    if !row.selected.value.Items? { return Fail("selected_shape"); }
    var views := ReadSelected(parse, row.selected.value.items);
    if views.Fail? { return Fail(if views.category == "selected_shape" then "selected_shape" else "TypeError"); }
    DescribedByDerivation(row, q, parse);
    FactsOfHold(q, Passed(row), views.value);
    var f := FactsOf(q, Passed(row), views.value);
    if !FactsMatch(row.fields, f) { return Fail("row_derived_fact"); }
    return Ok(f);
  }

  method CheckSeal(row: Row, digest: Digest) returns (r: Result<Text>)
    requires KeysClosed(row)
    ensures r.Ok? <==> Sealed(row, digest)
    ensures r.Fail? ==> r.category in {"observation_identity", "timing_shape", "audit_shape"}
  {
    var id := Identify(digest, Semantic(row));
    if id.None? || row.fields[ObservationId] != JStr(id.value) { return Fail("observation_identity"); }
    if !IsTime(row.fields[WallNs]) || !IsTime(row.fields[CpuNs]) { return Fail("timing_shape"); }
    if !AuditShaped(row.fields[ContextAudit]) { return Fail("audit_shape"); }
    return Ok(id.value);
  }

  /** One turn of the loop of `validate_rows`. */
  method CheckRow(row: Row, q: Question, parse: ReadInt, digest: Digest) returns (r: Result<Facts>)
    ensures r.Ok? <==> RowAccepted(row, q, parse, digest)
    ensures r.Ok? ==> Fits(row, q, parse, digest, r.value)
    ensures r == Fail("row_keys") <==> !KeysClosed(row)
    ensures r != Fail("row_coverage")
  {
    if !HasRowKeys(row) { return Fail("row_keys"); }
    r := CheckFacts(row, q, parse);
    if r.Fail? { return; }
    var seal := CheckSeal(row, digest);
    if seal.Fail? { return Fail(seal.category); }
    assert Fits(row, q, parse, digest, r.value);
  }

  type Bank = map<Text, Question>

  /** Each question is filed under its own identifier. */
  ghost predicate Filed(bank: Bank, ids: seq<Text>) {
    (forall k :: k in bank ==> bank[k].id == k) && forall i :: 0 <= i < |ids| ==> ids[i] in bank
  }

  function Under(id: Text, treatments: seq<Text>): seq<(Text, Text)> {
    seq(|treatments|, j requires 0 <= j < |treatments| => (id, treatments[j]))
  }

  /** Question by question, each under every treatment in order. */
  function Expected(ids: seq<Text>, treatments: seq<Text>): (labels: seq<(Text, Text)>)
    ensures forall k :: 0 <= k < |labels| ==> labels[k].0 in ids
  {
    if ids == [] then [] else Under(ids[0], treatments) + Expected(ids[1..], treatments)
  }

  /** `(row.get("question_id"), row.get("treatment"))` is the label. */
  predicate Labelled(row: Row, pair: (Text, Text)) {
    && QuestionId in row.fields && row.fields[QuestionId] == JStr(pair.0)
    && Treatment in row.fields && row.fields[Treatment] == JStr(pair.1)
  }

  predicate AllLabelled(rows: seq<Row>, labels: seq<(Text, Text)>) {
    |rows| == |labels| && forall k :: 0 <= k < |rows| ==> Labelled(rows[k], labels[k])
  }

  /** The questions of the labels, in order. */
  function QuestionsOf(labels: seq<(Text, Text)>, bank: Bank): (r: seq<Question>)
    requires forall k :: 0 <= k < |labels| ==> labels[k].0 in bank
    ensures |r| == |labels|
  {
    seq(|labels|, k requires 0 <= k < |labels| => bank[labels[k].0])
  }

  ghost predicate AllAccepted(rows: seq<Row>, questions: seq<Question>, parse: ReadInt, digest: Digest) {
    |rows| == |questions| && forall k :: 0 <= k < |rows| ==> RowAccepted(rows[k], questions[k], parse, digest)
  }

  ghost predicate AllFit(rows: seq<Row>, questions: seq<Question>, parse: ReadInt, digest: Digest,
                         facts: seq<Facts>) {
    && |rows| == |questions| == |facts|
    && forall k :: 0 <= k < |rows| ==> Fits(rows[k], questions[k], parse, digest, facts[k])
  }

  lemma LabelsAreFiled(bank: Bank, ids: seq<Text>, treatments: seq<Text>)
    requires Filed(bank, ids)
    ensures forall k :: 0 <= k < |Expected(ids, treatments)| ==> Expected(ids, treatments)[k].0 in bank
  {
    var labels := Expected(ids, treatments);
    forall k | 0 <= k < |labels| ensures labels[k].0 in bank {
      var i :| 0 <= i < |ids| && ids[i] == labels[k].0;
    }
  }

  ghost predicate Accepted(rows: seq<Row>, bank: Bank, ids: seq<Text>, treatments: seq<Text>, parse: ReadInt,
                           digest: Digest)
    requires Filed(bank, ids)
  {
    LabelsAreFiled(bank, ids, treatments);
    var labels := Expected(ids, treatments);
    AllLabelled(rows, labels) && AllAccepted(rows, QuestionsOf(labels, bank), parse, digest)
  }

  /** The first rows fit the facts so far. */
  ghost predicate FitSoFar(rows: seq<Row>, questions: seq<Question>, parse: ReadInt, digest: Digest,
                           facts: seq<Facts>) {
    |facts| <= |rows| == |questions| && AllFit(rows[..|facts|], questions[..|facts|], parse, digest, facts)
  }

  lemma FitOneMore(rows: seq<Row>, questions: seq<Question>, parse: ReadInt, digest: Digest, facts: seq<Facts>,
                   f: Facts)
    requires FitSoFar(rows, questions, parse, digest, facts) && |facts| < |rows|
    requires Fits(rows[|facts|], questions[|facts|], parse, digest, f)
    ensures FitSoFar(rows, questions, parse, digest, facts + [f])
  {
    var n, more := |facts|, facts + [f];
    forall k | 0 <= k <= n ensures Fits(rows[..n + 1][k], questions[..n + 1][k], parse, digest, more[k]) {
      if k < n { assert Fits(rows[..n][k], questions[..n][k], parse, digest, facts[k]); }
    }
  }

  lemma OneRefused(rows: seq<Row>, questions: seq<Question>, parse: ReadInt, digest: Digest, k: nat)
    requires k < |rows| == |questions| && AllAccepted(rows, questions, parse, digest)
    ensures RowAccepted(rows[k], questions[k], parse, digest)
  {
  }

  /** The next row is checked, and its facts are kept. */
  method Admit(rows: seq<Row>, questions: seq<Question>, parse: ReadInt, digest: Digest, facts: seq<Facts>)
    returns (r: Result<seq<Facts>>)
    requires FitSoFar(rows, questions, parse, digest, facts) && |facts| < |rows|
    ensures r.Ok? ==> FitSoFar(rows, questions, parse, digest, r.value) && |r.value| == |facts| + 1
    ensures r.Fail? ==> !AllAccepted(rows, questions, parse, digest) && r.category != "row_coverage"
  {
    var k := |facts|;
    var checked := CheckRow(rows[k], questions[k], parse, digest);
    if checked.Fail? {
      if AllAccepted(rows, questions, parse, digest) { OneRefused(rows, questions, parse, digest, k); }
      return Fail(checked.category);
    }
    FitOneMore(rows, questions, parse, digest, facts, checked.value);
    return Ok(facts + [checked.value]);
  }

  method CheckRows(rows: seq<Row>, questions: seq<Question>, parse: ReadInt, digest: Digest)
    returns (r: Result<seq<Facts>>)
    requires |rows| == |questions|
    ensures r.Ok? <==> AllAccepted(rows, questions, parse, digest)
    ensures r.Ok? ==> AllFit(rows, questions, parse, digest, r.value)
    ensures r != Fail("row_coverage")
  {
    var facts: seq<Facts> := [];
    for k := 0 to |rows|
      invariant |facts| == k && FitSoFar(rows, questions, parse, digest, facts)
    {
      var more := Admit(rows, questions, parse, digest, facts);
      if more.Fail? { return more; }
      facts := more.value;
    }
    assert rows[..|rows|] == rows && questions[..|rows|] == questions;
    FitMeansAccepted(rows, questions, parse, digest, facts);
    return Ok(facts);
  }

  lemma FitMeansAccepted(rows: seq<Row>, questions: seq<Question>, parse: ReadInt, digest: Digest,
                         facts: seq<Facts>)
    requires AllFit(rows, questions, parse, digest, facts)
    ensures AllAccepted(rows, questions, parse, digest)
  {
    forall k | 0 <= k < |rows| ensures RowAccepted(rows[k], questions[k], parse, digest) {
      assert Fits(rows[k], questions[k], parse, digest, facts[k]);
    }
  }

  /** `validate_rows` on a list of dicts. */
  method ValidateRows(rows: seq<Row>, bank: Bank, ids: seq<Text>, treatments: seq<Text>, parse: ReadInt,
                      digest: Digest) returns (r: Result<seq<Facts>>)
    requires Filed(bank, ids)
    ensures r.Ok? <==> Accepted(rows, bank, ids, treatments, parse, digest)
    ensures r == Fail("row_coverage") <==> !AllLabelled(rows, Expected(ids, treatments))
    ensures forall k :: 0 <= k < |Expected(ids, treatments)| ==> Expected(ids, treatments)[k].0 in bank
    ensures r.Ok? ==> AllFit(rows, QuestionsOf(Expected(ids, treatments), bank), parse, digest, r.value)
  {
    LabelsAreFiled(bank, ids, treatments);
    var labels := Expected(ids, treatments);
    if !AllLabelled(rows, labels) { return Fail("row_coverage"); }
    r := CheckRows(rows, QuestionsOf(labels, bank), parse, digest);
  }
}
