/**
  Generation of the retrieval holdout from the three aligned language files, and the proof that what it
  generates passes the validation of module HoldoutSet.

  The hash that ranks titles and questions, case folding and `rstrip` are parameters.
 */
module HoldoutGeneration {
  import opened Wrappers
  import opened Unicode
  import opened HoldoutSet
  import opened HoldoutUpstream
  import HoldoutRows
  import Statistics

  datatype Tools = Tools(rank: (Text, Text) -> Text, fold: Fold, rstrip: Text -> Text)

  // ---------------------------------------------------------------- ranking

  type Order<!T> = (T, T) -> bool

  /** The sort key `(_rank(kind, value), value)`. */
  predicate RankedBefore(rank: (Text, Text) -> Text, kind: Text, a: Text, b: Text) {
    var x, y := rank(kind, a), rank(kind, b);
    Less(x, y) || (x == y && (a == b || Less(a, b)))
  }

  function TitleOrder(rank: (Text, Text) -> Text): Order<Text> {
    (a, b) => RankedBefore(rank, T("title"), a, b)
  }

  function QaOrder(rank: (Text, Text) -> Text, kind: Text): Order<Qa> {
    (a: Qa, b: Qa) => RankedBefore(rank, kind, a.id, b.id)
  }

  function RankTitles(tools: Tools, titles: seq<Text>): seq<Text> {
    Statistics.SortBy(titles, TitleOrder(tools.rank))
  }

  /** An article's questions by rank. Identifiers are distinct, so this sorts the questions themselves. */
  function RankQas(tools: Tools, kind: Text, qas: seq<Qa>): (r: seq<Qa>) {
    Statistics.SortBy(qas, QaOrder(tools.rank, kind))
  }

  lemma RankedBeforeIsTotal(rank: (Text, Text) -> Text, kind: Text, a: Text, b: Text)
    ensures RankedBefore(rank, kind, a, b) || RankedBefore(rank, kind, b, a)
    ensures RankedBefore(rank, kind, a, b) && RankedBefore(rank, kind, b, a) ==> a == b
  {
    LessTotal(rank(kind, a), rank(kind, b));
    LessTotal(a, b);
  }

  lemma RankedBeforeIsTransitive(rank: (Text, Text) -> Text, kind: Text, a: Text, b: Text, c: Text)
    requires RankedBefore(rank, kind, a, b) && RankedBefore(rank, kind, b, c)
    ensures RankedBefore(rank, kind, a, c)
  {
    var x, y, z := rank(kind, a), rank(kind, b), rank(kind, c);
    if Less(x, y) && Less(y, z) { LessTransitive(x, y, z); }
    if Less(a, b) && Less(b, c) { LessTransitive(a, b, c); }
  }

  lemma TitleOrderIsTotal(rank: (Text, Text) -> Text)
    ensures Statistics.Preorder(TitleOrder(rank))
    ensures forall s: seq<Text> :: Statistics.NoTies(s, TitleOrder(rank))
  {
    var leq := TitleOrder(rank);
    forall a, b ensures leq(a, b) || leq(b, a) { RankedBeforeIsTotal(rank, T("title"), a, b); }
    forall a, b, c | leq(a, b) && leq(b, c) ensures leq(a, c) { RankedBeforeIsTransitive(rank, T("title"), a, b, c); }
    forall s: seq<Text>, a, b | a in s && b in s && leq(a, b) && leq(b, a) ensures a == b {
      RankedBeforeIsTotal(rank, T("title"), a, b);
    }
  }

  /** Ranking depends on which titles there are, not on the order of the articles. */
  lemma RankIgnoresArticleOrder(tools: Tools, a: seq<Text>, b: seq<Text>)
    requires multiset(a) == multiset(b)
    ensures RankTitles(tools, a) == RankTitles(tools, b)
  {
    TitleOrderIsTotal(tools.rank);
    Statistics.SortIgnoresOrder(a, b, TitleOrder(tools.rank));
  }

  // ---------------------------------------------------------------- what is planned for a title

  /** A selected title: its key, its text, five ranked questions, and two of them in translation. */
  datatype Plan = Plan(title: Text, key: Text, body: Text, picks: seq<Qa>, german: Qa, spanish: Qa)

  /** A negative title with the translated question asked about it. */
  datatype Negative = Negative(title: Text, language: Language, qa: Qa)

  function Find(qas: seq<Qa>, id: Text): (r: Qa)
    requires id in Ids(qas)
    ensures r in qas && r.id == id
  {
    if qas[0].id == id then qas[0]
    else
      assert Ids(qas) == [qas[0].id] + Ids(qas[1..]);
      Find(qas[1..], id)
  }

  function Key(tools: Tools, title: Text): Text {
    match Slug(tools.fold, title) case Some(slug) => T("xquad-") + slug case None => []
  }

  /** `title.replace('_', ' ')`. */
  function Spaced(title: Text): Text {
    seq(|title|, i requires 0 <= i < |title| => if title[i] == '_' as int then ' ' as int else title[i])
  }

  const BREAK: Text := [10, 10]

  function Joined(tools: Tools, contexts: seq<Text>): Text {
    if contexts == [] then []
    else if |contexts| == 1 then tools.rstrip(contexts[0])
    else Joined(tools, contexts[..|contexts| - 1]) + BREAK + tools.rstrip(contexts[|contexts| - 1])
  }

  /** The Markdown text of a source. */
  function Body(tools: Tools, title: Text, contexts: seq<Text>): Text {
    T("# ") + Spaced(title) + BREAK + Joined(tools, contexts) + [10]
  }

  /** The files agree on titles, and on the question identifiers of each title. */
  ghost predicate Parallel(up: Upstream) {
    && up.de.titles == up.en.titles && up.es.titles == up.en.titles
    && forall i :: 0 <= i < |up.en.titles| ==> ParallelTitle(up, up.en.titles[i])
  }

  predicate ParallelTitle(up: Upstream, title: Text) {
    && title in up.de.qas && title in up.en.qas && title in up.es.qas && title in up.en.contexts
    && Ids(up.de.qas[title]) == Ids(up.en.qas[title]) && Ids(up.es.qas[title]) == Ids(up.en.qas[title])
  }

  /** Every text can be encoded: `.encode()` raises on a lone surrogate. */
  predicate AllEncode(texts: seq<Text>) {
    forall i :: 0 <= i < |texts| ==> NoSurrogates(texts[i])
  }

  /** The title has a key and five questions that can be ranked, and its text can be written. */
  predicate Selectable(tools: Tools, up: Upstream, title: Text) {
    && ParallelTitle(up, title) && Slug(tools.fold, title).Some? && |up.en.qas[title]| >= 5
    && AllEncode(Ids(up.en.qas[title])) && NoSurrogates(Body(tools, title, up.en.contexts[title]))
  }

  predicate Askable(up: Upstream, title: Text) {
    ParallelTitle(up, title) && |up.en.qas[title]| >= 1 && AllEncode(Ids(up.en.qas[title]))
  }

  predicate AtomEncodes(atom: Atom) {
    NoSurrogates(atom.id) && NoSurrogates(atom.source) && AllEncode(atom.variants)
  }

  /** The record of the question has canonical bytes. */
  predicate QuestionEncodes(q: Question) {
    && NoSurrogates(q.id) && NoSurrogates(q.text) && NoSurrogates(q.reference) && AllEncode(q.required)
    && AllEncode(q.acceptable) && (forall i :: 0 <= i < |q.atoms| ==> AtomEncodes(q.atoms[i]))
    && (forall i :: 0 <= i < |q.fitness| ==> NoSurrogates(q.fitness[i].source))
    && AllEncode(q.qaIds) && AllEncode(q.titles)
  }

  predicate AllQuestionsEncode(qs: seq<Question>) {
    forall i :: 0 <= i < |qs| ==> QuestionEncodes(qs[i])
  }

  lemma RankKeepsIds(tools: Tools, kind: Text, qas: seq<Qa>)
    ensures |RankQas(tools, kind, qas)| == |qas|
    ensures forall k :: 0 <= k < |qas| ==>
      RankQas(tools, kind, qas)[k] in qas && RankQas(tools, kind, qas)[k].id in Ids(qas)
  {
    var ranked := RankQas(tools, kind, qas);
    Statistics.SortByIsPermutation(qas, QaOrder(tools.rank, kind));
    forall k | 0 <= k < |qas| ensures ranked[k] in qas && ranked[k].id in Ids(qas) {
      assert ranked[k] in multiset(ranked);
      var j :| 0 <= j < |qas| && qas[j] == ranked[k];
      assert Ids(qas)[j] == ranked[k].id;
    }
  }

  function PlanOf(tools: Tools, up: Upstream, title: Text): (plan: Plan)
    requires Selectable(tools, up, title)
    ensures |plan.picks| == 5 && forall k :: 0 <= k < 5 ==> plan.picks[k] in up.en.qas[title]
    ensures plan.german in up.de.qas[title] && plan.spanish in up.es.qas[title]
    ensures plan.german.id == plan.picks[1].id && plan.spanish.id == plan.picks[2].id
  {
    var kind, qas := T("qa:") + title, up.en.qas[title];
    RankKeepsIds(tools, kind, qas);
    var picks := RankQas(tools, kind, qas)[..5];
    assert picks[1].id in Ids(qas) && picks[2].id in Ids(qas);
    Plan(title, Key(tools, title), Body(tools, title, up.en.contexts[title]), picks,
         Find(up.de.qas[title], picks[1].id), Find(up.es.qas[title], picks[2].id))
  }

  /** The first five negative titles are asked about in German, the others in Spanish. */
  function NegativeOf(tools: Tools, up: Upstream, title: Text, index: nat): (n: Negative)
    requires Askable(up, title)
    ensures n.title == title && n.language == (if index < 5 then De else Es)
    ensures n.qa in (if index < 5 then up.de.qas[title] else up.es.qas[title])
  {
    var kind, qas := T("negative:") + title, up.en.qas[title];
    RankKeepsIds(tools, kind, qas);
    var id := RankQas(tools, kind, qas)[0].id;
    if index < 5 then Negative(title, De, Find(up.de.qas[title], id))
    else Negative(title, Es, Find(up.es.qas[title], id))
  }

  // ---------------------------------------------------------------- the questions

  function FitnessFor(key: Text): Fitness {
    Fitness(key, 1, 2, 2, 2, 2)
  }

  function Variants(qa: Qa): (r: seq<Text>)
    ensures forall a :: a in r <==> a in qa.answers
    ensures qa.answers != [] ==> r != []
  {
    var answers := set i | 0 <= i < |qa.answers| :: qa.answers[i];
    assert qa.answers != [] ==> qa.answers[0] in answers;
    var r := SortedKeys(answers);
    assert qa.answers != [] ==> qa.answers[0] in r;
    r
  }

  const A01: Text := ['A' as int, '0' as int, '1' as int]
  const A02: Text := ['A' as int, '0' as int, '2' as int]

  /** `_single_question`. */
  function Single(n: nat, language: Language, stratum: Stratum, plan: Plan, localized: Qa, english: Qa): Question
    requires n <= 999 && english.answers != []
  {
    Question(QuestionId(n), language, stratum, localized.question, Variants(english)[0], true, [plan.key], [plan.key],
             [Atom(A01, plan.key, Variants(english))], [FitnessFor(plan.key)], [english.id], [plan.title])
  }

  /** `sorted` of two strings. */
  function Pair(a: Text, b: Text): seq<Text> {
    if a == b || Less(a, b) then [a, b] else [b, a]
  }

  function MultiText(left: Plan, right: Plan): Text
    requires |left.picks| == 5 && |right.picks| == 5
  {
    T("For ") + Spaced(left.title) + T(", ") + left.picks[4].question + T(" For ") + Spaced(right.title) + T(", ")
    + right.picks[4].question
  }

  /** The variants of the question planned for a key of the pair. */
  function VariantsFor(left: Plan, right: Plan, key: Text): seq<Text>
    requires |left.picks| == 5 && |right.picks| == 5
  {
    if key == right.key then Variants(right.picks[4]) else Variants(left.picks[4])
  }

  /** `_multi_question`. */
  function Multi(n: nat, left: Plan, right: Plan): Question
    requires n <= 999 && Planned(left) && Planned(right)
  {
    var keys := Pair(left.key, right.key);
    Question(QuestionId(n), En, MultiSource, MultiText(left, right),
             Variants(left.picks[4])[0] + T("; ") + Variants(right.picks[4])[0], true, keys, keys,
             [Atom(A01, keys[0], VariantsFor(left, right, keys[0])),
              Atom(A02, keys[1], VariantsFor(left, right, keys[1]))],
             [FitnessFor(keys[0]), FitnessFor(keys[1])], Pair(left.picks[4].id, right.picks[4].id),
             Pair(left.title, right.title))
  }

  /** `_unsupported_question`. */
  function Unsupported(n: nat, negative: Negative): Question
    requires n <= 999
  {
    Question(QuestionId(n), negative.language, Absent, negative.qa.question,
             T("The required XQuAD source is intentionally absent from this holdout corpus."), false, [], [], [], [],
             [negative.qa.id], [negative.title])
  }

  /** Five questions with answers. */
  ghost predicate Planned(plan: Plan) {
    |plan.picks| == 5 && forall k :: 0 <= k < 5 ==> Answered(plan.picks[k])
  }

  ghost predicate AllPlanned(plans: seq<Plan>) {
    forall i :: 0 <= i < |plans| ==> Planned(plans[i])
  }

  function SecondStratum(index: nat): Stratum {
    if index < 10 then Direct else SourceDiscrimination
  }

  /** The four questions on the title at an index, numbered after the first n. */
  function BlockAfter(n: nat, index: nat, plan: Plan): (qs: seq<Question>)
    requires n <= 995 && Planned(plan)
    ensures |qs| == 4
  {
    [Single(n + 1, En, Direct, plan, plan.picks[0], plan.picks[0]),
     Single(n + 2, De, CrossLanguage, plan, plan.german, plan.picks[1]),
     Single(n + 3, Es, CrossLanguage, plan, plan.spanish, plan.picks[2]),
     Single(n + 4, En, SecondStratum(index), plan, plan.picks[3], plan.picks[3])]
  }

  function Block(index: nat, plan: Plan): (qs: seq<Question>)
    requires index < 20 && Planned(plan)
    ensures |qs| == 4
  {
    BlockAfter(4 * index, index, plan)
  }

  function Blocks(plans: seq<Plan>): (blocks: seq<seq<Question>>)
    requires AllPlanned(plans) && |plans| <= 20
    ensures |blocks| == |plans|
  {
    seq(|plans|, i requires 0 <= i < |plans| => Block(i, plans[i]))
  }

  function Flatten(blocks: seq<seq<Question>>): seq<Question> {
    if blocks == [] then [] else Flatten(blocks[..|blocks| - 1]) + blocks[|blocks| - 1]
  }

  /** One question for each two neighbouring titles. */
  function Pairs(plans: seq<Plan>): (qs: seq<Question>)
    requires AllPlanned(plans) && |plans| <= 20
    ensures |qs| == |plans| / 2
  {
    seq(|plans| / 2, k requires 0 <= k < |plans| / 2 => Multi(81 + k, plans[2 * k], plans[2 * k + 1]))
  }

  function Unsupporteds(negatives: seq<Negative>): (qs: seq<Question>)
    requires |negatives| <= 10
    ensures |qs| == |negatives|
  {
    seq(|negatives|, k requires 0 <= k < |negatives| => Unsupported(91 + k, negatives[k]))
  }

  /** All questions, in the order of their identifiers. */
  function Questions(plans: seq<Plan>, negatives: seq<Negative>): (qs: seq<Question>)
    requires AllPlanned(plans) && |plans| == 20 && |negatives| == 10
  {
    Flatten(Blocks(plans)) + Pairs(plans) + Unsupporteds(negatives)
  }
}
