/**
  What module HoldoutGeneration builds passes the validation of module HoldoutSet exactly when every
  answer occurs in the text of its title and no question is blank.
 */
module HoldoutValidity {
  import opened Wrappers
  import opened Unicode
  import opened HoldoutSet
  import opened HoldoutUpstream
  import opened HoldoutGeneration
  import HoldoutRows

  /** The corpus a set is validated against. */
  datatype Corpus = Corpus(sources: map<Text, Text>, selected: set<Text>, fold: Fold)

  ghost predicate Passes(q: Question, c: Corpus) {
    Schema(q) && ValidQuestion(q, c.sources, c.selected, c.fold)
  }

  /** The text of the plan mentions an answer of the question. */
  ghost predicate Grounded(plan: Plan, qa: Qa, fold: Fold) {
    exists a :: a in qa.answers && Mentions(fold, plan.body, a)
  }

  /** The plan's text is in the corpus under its key. */
  ghost predicate Stored(plan: Plan, c: Corpus) {
    IsSourceKey(plan.key) && plan.key in c.sources && c.sources[plan.key] == plan.body && plan.title in c.selected
  }

  /** All that the four single questions of a plan need. */
  ghost predicate SinglesReady(plan: Plan, fold: Fold)
    requires |plan.picks| == 5
  {
    && plan.picks[0].question != [] && plan.german.question != [] && plan.spanish.question != []
    && plan.picks[3].question != []
    && Grounded(plan, plan.picks[0], fold) && Grounded(plan, plan.picks[1], fold)
    && Grounded(plan, plan.picks[2], fold) && Grounded(plan, plan.picks[3], fold)
  }

  // ---------------------------------------------------------------- one question

  lemma OracleIffGrounded(id: Text, plan: Plan, qa: Qa, c: Corpus)
    requires Stored(plan, c)
    ensures OracleHolds(c.fold, c.sources, Atom(id, plan.key, Variants(qa))) <==> Grounded(plan, qa, c.fold)
  {
    var vs := Variants(qa);
    if Grounded(plan, qa, c.fold) {
      var a :| a in qa.answers && Mentions(c.fold, plan.body, a);
      assert a in vs;
      var i :| 0 <= i < |vs| && vs[i] == a;
      assert Mentions(c.fold, c.sources[plan.key], vs[i]);
    }
    if OracleHolds(c.fold, c.sources, Atom(id, plan.key, vs)) {
      var i :| 0 <= i < |vs| && Mentions(c.fold, c.sources[plan.key], vs[i]);
      assert vs[i] in vs;
    }
  }

  lemma VariantsAreText(qa: Qa)
    requires Answered(qa)
    ensures Variants(qa) != [] && forall i :: 0 <= i < |Variants(qa)| ==> Variants(qa)[i] != []
  {
    var vs := Variants(qa);
    forall i | 0 <= i < |vs| ensures vs[i] != [] {
      assert vs[i] in vs;
      var j :| 0 <= j < |qa.answers| && qa.answers[j] == vs[i];
    }
  }

  lemma OneSourceSorts(q: Question, key: Text, a: Atom, f: Fitness)
    requires q.atoms == [a] && q.fitness == [f] && a.source == key && f.source == key && q.required == [key]
    ensures SortsTo(AtomSources(q), q.required) && SortsTo(FitnessSources(q), q.required)
  {
    assert AtomSources(q) == [key] && FitnessSources(q) == [key];
  }

  lemma SingleSchema(q: Question, a: Atom, f: Fitness)
    requires KnownLanguage(q.language) && KnownStratum(q.stratum) && q.reference != []
    requires q.atoms == [a] && AtomSchema(a) && q.fitness == [f] && IsSourceKey(f.source) && InRange(f)
    requires |q.required| == 1 && q.acceptable == q.required && IsSourceKey(q.required[0])
    requires |q.qaIds| == 1 && |q.titles| == 1
    ensures Schema(q) <==> q.text != []
  {
  }

  lemma SinglePasses(n: nat, language: Language, stratum: Stratum, plan: Plan, localized: Qa, english: Qa, c: Corpus)
    requires n <= 999 && KnownLanguage(language) && KnownStratum(stratum) && Answered(english) && Stored(plan, c)
    ensures Passes(Single(n, language, stratum, plan, localized, english), c)
       <==> localized.question != [] && Grounded(plan, english, c.fold)
  {
    var q := Single(n, language, stratum, plan, localized, english);
    var a, f := Atom(A01, plan.key, Variants(english)), FitnessFor(plan.key);
    VariantsAreText(english);
    assert IsAtomId(A01);
    SingleSchema(q, a, f);
    OneSourceSorts(q, plan.key, a, f);
    OracleIffGrounded(A01, plan, english, c);
    assert q.atoms[0] == a;
  }

  lemma PairFacts(a: Text, b: Text)
    ensures |Pair(a, b)| == 2 && multiset(Pair(a, b)) == multiset{a, b}
    ensures a != b ==> Ascending(Pair(a, b))
  {
    LessTotal(a, b);
  }

  lemma TwoSourcesSort(q: Question, keys: seq<Text>, a: Atom, b: Atom, f: Fitness, g: Fitness)
    requires |keys| == 2 && q.required == keys && q.atoms == [a, b] && q.fitness == [f, g]
    requires a.source == keys[0] && b.source == keys[1] && f.source == keys[0] && g.source == keys[1]
    ensures SortsTo(AtomSources(q), q.required) && SortsTo(FitnessSources(q), q.required)
  {
    assert AtomSources(q) == keys && FitnessSources(q) == keys;
  }

  lemma MultiSchema(q: Question, a: Atom, b: Atom, f: Fitness, g: Fitness)
    requires KnownLanguage(q.language) && KnownStratum(q.stratum) && q.reference != [] && q.text != []
    requires q.atoms == [a, b] && AtomSchema(a) && AtomSchema(b) && q.fitness == [f, g]
    requires IsSourceKey(f.source) && InRange(f) && IsSourceKey(g.source) && InRange(g)
    requires |q.required| == 2 && q.acceptable == q.required && IsSourceKey(q.required[0]) && IsSourceKey(q.required[1])
    requires |q.qaIds| == 2 && |q.titles| == 2
    ensures Schema(q)
  {
  }

  lemma MultiIsValid(q: Question, a: Atom, b: Atom, c: Corpus)
    requires |q.required| == 2 && q.acceptable == q.required && Ascending(q.required) && q.answerable
    requires q.atoms == [a, b] && SortsTo(AtomSources(q), q.required) && SortsTo(FitnessSources(q), q.required)
    ensures ValidQuestion(q, c.sources, c.selected, c.fold)
       <==> OracleHolds(c.fold, c.sources, a) && OracleHolds(c.fold, c.sources, b)
  {
    assert q.atoms[0] == a && q.atoms[1] == b;
  }

  lemma MultiPasses(n: nat, left: Plan, right: Plan, c: Corpus)
    requires n <= 999 && Planned(left) && Planned(right) && Stored(left, c) && Stored(right, c)
    requires left.key != right.key
    ensures Passes(Multi(n, left, right), c)
       <==> Grounded(left, left.picks[4], c.fold) && Grounded(right, right.picks[4], c.fold)
  {
    var q, keys := Multi(n, left, right), Pair(left.key, right.key);
    var a, b := q.atoms[0], q.atoms[1];
    PairFacts(left.key, right.key);
    PairFacts(left.picks[4].id, right.picks[4].id);
    PairFacts(left.title, right.title);
    VariantsAreText(left.picks[4]);
    VariantsAreText(right.picks[4]);
    assert IsAtomId(A01) && IsAtomId(A02);
    MultiSchema(q, a, b, q.fitness[0], q.fitness[1]);
    TwoSourcesSort(q, keys, a, b, q.fitness[0], q.fitness[1]);
    MultiIsValid(q, a, b, c);
    OracleIffGrounded(A01, left, left.picks[4], c);
    OracleIffGrounded(A02, left, left.picks[4], c);
    OracleIffGrounded(A01, right, right.picks[4], c);
    OracleIffGrounded(A02, right, right.picks[4], c);
  }

  lemma UnsupportedPasses(n: nat, negative: Negative, c: Corpus)
    requires n <= 999 && KnownLanguage(negative.language) && negative.title !in c.selected
    ensures Passes(Unsupported(n, negative), c) <==> negative.qa.question != []
  {
    var q := Unsupported(n, negative);
    assert q.titles[0] == negative.title;
  }

  // ---------------------------------------------------------------- all questions

  /** Twenty plans in the corpus under distinct keys, and ten negatives outside it. */
  ghost predicate Placed(plans: seq<Plan>, negatives: seq<Negative>, c: Corpus) {
    && AllPlanned(plans) && |plans| == 20 && |negatives| == 10
    && (forall i :: 0 <= i < |plans| ==> Stored(plans[i], c))
    && (forall i, j :: 0 <= i < j < |plans| ==> plans[i].key != plans[j].key)
    && (forall i :: 0 <= i < |negatives| ==> negatives[i].title !in c.selected)
    && NegativesLabelled(negatives)
  }

  function NegativeLanguage(i: nat): Language {
    if i < 5 then De else Es
  }

  type Judge = Question -> bool

  ghost predicate All(qs: seq<Question>, judge: Judge) {
    forall i :: 0 <= i < |qs| ==> judge(qs[i])
  }

  lemma AllConcat(a: seq<Question>, b: seq<Question>, judge: Judge)
    ensures All(a + b, judge) <==> All(a, judge) && All(b, judge)
  {
    assert forall i :: 0 <= i < |a| ==> (a + b)[i] == a[i];
    if All(a + b, judge) {
      forall i | 0 <= i < |b| ensures judge(b[i]) { assert (a + b)[|a| + i] == b[i]; }
    }
  }

  lemma AllOfFour(qs: seq<Question>, judge: Judge)
    requires |qs| == 4
    ensures All(qs, judge) <==> judge(qs[0]) && judge(qs[1]) && judge(qs[2]) && judge(qs[3])
  {
  }

  lemma SingleJudged(n: nat, language: Language, stratum: Stratum, plan: Plan, localized: Qa, english: Qa, c: Corpus,
      judge: Judge)
    requires n <= 999 && KnownLanguage(language) && KnownStratum(stratum) && Answered(english) && Stored(plan, c)
    requires Judges(judge, c)
    ensures judge(Single(n, language, stratum, plan, localized, english))
       <==> localized.question != [] && Grounded(plan, english, c.fold)
  {
    SinglePasses(n, language, stratum, plan, localized, english, c);
    assert judge(Single(n, language, stratum, plan, localized, english))
       <==> Passes(Single(n, language, stratum, plan, localized, english), c);
  }

  /** The four questions of a block pass as their answers and wording allow. */
  lemma FourPass(qs: seq<Question>, plan: Plan, fold: Fold, judge: Judge)
    requires |qs| == 4 && |plan.picks| == 5
    requires judge(qs[0]) <==> plan.picks[0].question != [] && Grounded(plan, plan.picks[0], fold)
    requires judge(qs[1]) <==> plan.german.question != [] && Grounded(plan, plan.picks[1], fold)
    requires judge(qs[2]) <==> plan.spanish.question != [] && Grounded(plan, plan.picks[2], fold)
    requires judge(qs[3]) <==> plan.picks[3].question != [] && Grounded(plan, plan.picks[3], fold)
    ensures All(qs, judge) <==> SinglesReady(plan, fold)
  {
    AllOfFour(qs, judge);
  }

  /** The judge passes a single question of the plan exactly when it is worded and grounded. */
  ghost predicate JudgesSingles(plan: Plan, fold: Fold, judge: Judge) {
    forall n: nat, language, stratum, localized, english |
      n <= 999 && KnownLanguage(language) && KnownStratum(stratum) && Answered(english) ::
      judge(Single(n, language, stratum, plan, localized, english)) <==>
      localized.question != [] && Grounded(plan, english, fold)
  }

  lemma SinglesJudged(plan: Plan, c: Corpus, judge: Judge)
    requires Stored(plan, c) && Judges(judge, c)
    ensures JudgesSingles(plan, c.fold, judge)
  {
    forall n: nat, language, stratum, localized, english |
      n <= 999 && KnownLanguage(language) && KnownStratum(stratum) && Answered(english)
      ensures judge(Single(n, language, stratum, plan, localized, english))
         <==> localized.question != [] && Grounded(plan, english, c.fold)
    {
      SingleJudged(n, language, stratum, plan, localized, english, c, judge);
    }
  }

  lemma BlockPasses(index: nat, plan: Plan, c: Corpus, judge: Judge)
    requires index < 20 && Planned(plan) && Stored(plan, c) && Judges(judge, c)
    ensures All(Block(index, plan), judge) <==> SinglesReady(plan, c.fold)
  {
    SinglesJudged(plan, c, judge);
    BlockJudged(index, plan, c.fold, judge);
  }

  lemma BlockJudged(index: nat, plan: Plan, fold: Fold, judge: Judge)
    requires index < 20 && Planned(plan) && JudgesSingles(plan, fold, judge)
    ensures All(Block(index, plan), judge) <==> SinglesReady(plan, fold)
  {
    FirstJudged(index, plan, fold, judge);
    SecondJudged(index, plan, fold, judge);
    LastTwoJudged(index, plan, fold, judge);
    FourPass(Block(index, plan), plan, fold, judge);
  }

  lemma FirstJudged(index: nat, plan: Plan, fold: Fold, judge: Judge)
    requires index < 20 && Planned(plan) && JudgesSingles(plan, fold, judge)
    ensures judge(Block(index, plan)[0]) <==> plan.picks[0].question != [] && Grounded(plan, plan.picks[0], fold)
  {
  }

  lemma SecondJudged(index: nat, plan: Plan, fold: Fold, judge: Judge)
    requires index < 20 && Planned(plan) && JudgesSingles(plan, fold, judge)
    ensures judge(Block(index, plan)[1]) <==> plan.german.question != [] && Grounded(plan, plan.picks[1], fold)
  {
  }

  lemma LastTwoJudged(index: nat, plan: Plan, fold: Fold, judge: Judge)
    requires index < 20 && Planned(plan) && JudgesSingles(plan, fold, judge)
    ensures judge(Block(index, plan)[2]) <==> plan.spanish.question != [] && Grounded(plan, plan.picks[2], fold)
    ensures judge(Block(index, plan)[3]) <==> plan.picks[3].question != [] && Grounded(plan, plan.picks[3], fold)
  {
    StratumIsKnown(index);
  }

  lemma StratumIsKnown(index: nat)
    ensures KnownStratum(SecondStratum(index))
  {
  }

  /** The judge is `Passes`. Kept apart so that proofs over many questions need not look inside. */
  ghost predicate Judges(judge: Judge, c: Corpus) {
    forall q {:trigger Passes(q, c)} :: judge(q) <==> Passes(q, c)
  }

  lemma {:induction false} FlattenAll(blocks: seq<seq<Question>>, judge: Judge)
    ensures All(Flatten(blocks), judge) <==> forall i :: 0 <= i < |blocks| ==> All(blocks[i], judge)
  {
    if blocks != [] {
      var n := |blocks| - 1;
      FlattenAll(blocks[..n], judge);
      AllConcat(Flatten(blocks[..n]), blocks[n], judge);
      assert forall i :: 0 <= i < n ==> blocks[..n][i] == blocks[i];
    }
  }

  ghost predicate EachReady(plans: seq<Plan>, fold: Fold)
    requires AllPlanned(plans)
  {
    forall i :: 0 <= i < |plans| ==> SinglesReady(plans[i], fold)
  }

  lemma SinglesPass(plans: seq<Plan>, c: Corpus, judge: Judge)
    requires AllPlanned(plans) && |plans| <= 20 && Judges(judge, c) && forall i :: 0 <= i < |plans| ==>
      Stored(plans[i], c)
    ensures All(Flatten(Blocks(plans)), judge) <==> EachReady(plans, c.fold)
  {
    FlattenAll(Blocks(plans), judge);
    forall i | 0 <= i < |plans| ensures All(Blocks(plans)[i], judge) <==> SinglesReady(plans[i], c.fold) {
      BlockPasses(i, plans[i], c, judge);
    }
    if All(Flatten(Blocks(plans)), judge) {
      forall i | 0 <= i < |plans| ensures SinglesReady(plans[i], c.fold) { assert All(Blocks(plans)[i], judge); }
    }
  }

  ghost predicate PairReady(plan: Plan, fold: Fold)
    requires |plan.picks| == 5
  {
    Grounded(plan, plan.picks[4], fold)
  }

  lemma MultiJudged(n: nat, left: Plan, right: Plan, c: Corpus, judge: Judge)
    requires n <= 999 && Planned(left) && Planned(right) && Stored(left, c) && Stored(right, c)
    requires left.key != right.key && Judges(judge, c)
    ensures judge(Multi(n, left, right)) <==> PairReady(left, c.fold) && PairReady(right, c.fold)
  {
    MultiPasses(n, left, right, c);
    assert judge(Multi(n, left, right)) <==> Passes(Multi(n, left, right), c);
  }

  ghost predicate PairsReady(plans: seq<Plan>, fold: Fold)
    requires AllPlanned(plans)
  {
    forall i :: 0 <= i < |plans| ==> PairReady(plans[i], fold)
  }

  lemma PairAt(plans: seq<Plan>, k: nat, c: Corpus, judge: Judge)
    requires AllPlanned(plans) && |plans| == 20 && k < 10 && Judges(judge, c)
    requires Stored(plans[2 * k], c) && Stored(plans[2 * k + 1], c) && plans[2 * k].key != plans[2 * k + 1].key
    ensures judge(Pairs(plans)[k]) <==> PairReady(plans[2 * k], c.fold) && PairReady(plans[2 * k + 1], c.fold)
  {
    PairItem(plans, k, Multi(81 + k, plans[2 * k], plans[2 * k + 1]));
    MultiJudged(81 + k, plans[2 * k], plans[2 * k + 1], c, judge);
  }

  lemma PairItem(plans: seq<Plan>, k: nat, q: Question)
    requires AllPlanned(plans) && |plans| == 20 && k < 10 && q == Multi(81 + k, plans[2 * k], plans[2 * k + 1])
    ensures Pairs(plans)[k] == q
  {
  }

  lemma PairsPass(plans: seq<Plan>, c: Corpus, judge: Judge)
    requires AllPlanned(plans) && |plans| == 20 && Judges(judge, c) && forall i :: 0 <= i < |plans| ==>
      Stored(plans[i], c)
    requires forall i, j :: 0 <= i < j < |plans| ==> plans[i].key != plans[j].key
    ensures All(Pairs(plans), judge) <==> PairsReady(plans, c.fold)
  {
    forall k | 0 <= k < 10
      ensures judge(Pairs(plans)[k]) <==> PairReady(plans[2 * k], c.fold) && PairReady(plans[2 * k + 1], c.fold)
    {
      PairAt(plans, k, c, judge);
    }
    PairUp(plans, Pairs(plans), c.fold, judge);
  }

  lemma PairUp(plans: seq<Plan>, qs: seq<Question>, fold: Fold, judge: Judge)
    requires AllPlanned(plans) && |plans| == 20 && |qs| == 10
    requires forall k :: 0 <= k < 10 ==> (judge(qs[k])
       <==> PairReady(plans[2 * k], fold) && PairReady(plans[2 * k + 1], fold))
    ensures All(qs, judge) <==> PairsReady(plans, fold)
  {
    if All(qs, judge) {
      forall i | 0 <= i < 20 ensures PairReady(plans[i], fold) {
        assert judge(qs[i / 2]);
        assert i == 2 * (i / 2) || i == 2 * (i / 2) + 1;
      }
    }
  }

  ghost predicate NegativesWorded(negatives: seq<Negative>) {
    forall i :: 0 <= i < |negatives| ==> negatives[i].qa.question != []
  }

  lemma UnsupportedsPass(negatives: seq<Negative>, c: Corpus, judge: Judge)
    requires |negatives| == 10 && Judges(judge, c) && NegativesLabelled(negatives)
    requires forall i :: 0 <= i < |negatives| ==> negatives[i].title !in c.selected
    ensures All(Unsupporteds(negatives), judge) <==> NegativesWorded(negatives)
  {
    var qs := Unsupporteds(negatives);
    forall k | 0 <= k < 10 ensures judge(qs[k]) <==> negatives[k].qa.question != [] {
      UnsupportedPasses(91 + k, negatives[k], c);
      assert judge(qs[k]) <==> Passes(qs[k], c);
    }
    if All(qs, judge) {
      forall k | 0 <= k < 10 ensures negatives[k].qa.question != [] { assert judge(qs[k]); }
    }
  }

  /** Every answer used occurs in the text of its title, and no question used is blank. */
  ghost predicate WellGrounded(plans: seq<Plan>, negatives: seq<Negative>, fold: Fold)
    requires AllPlanned(plans)
  {
    EachReady(plans, fold) && PairsReady(plans, fold) && NegativesWorded(negatives)
  }

  lemma QuestionsPass(plans: seq<Plan>, negatives: seq<Negative>, c: Corpus, judge: Judge)
    requires Placed(plans, negatives, c) && Judges(judge, c)
    ensures All(Questions(plans, negatives), judge) <==> WellGrounded(plans, negatives, c.fold)
  {
    SinglesPass(plans, c, judge);
    PairsPass(plans, c, judge);
    UnsupportedsPass(negatives, c, judge);
    ThreeAll(Flatten(Blocks(plans)), Pairs(plans), Unsupporteds(negatives), judge);
  }

  lemma ThreeAll(a: seq<Question>, b: seq<Question>, d: seq<Question>, judge: Judge)
    ensures All(a + b + d, judge) <==> All(a, judge) && All(b, judge) && All(d, judge)
  {
    AllConcat(a, b, judge);
    AllConcat(a + b, d, judge);
  }

  // ---------------------------------------------------------------- identifiers

  ghost predicate Numbered(qs: seq<Question>, base: nat) {
    base + |qs| <= 999 && forall i :: 0 <= i < |qs| ==> qs[i].id == QuestionId(base + i + 1)
  }

  lemma NumberedConcat(a: seq<Question>, b: seq<Question>, base: nat)
    requires Numbered(a, base) && Numbered(b, base + |a|)
    ensures Numbered(a + b, base)
  {
  }

  lemma FourNumbered(qs: seq<Question>, base: nat)
    requires |qs| == 4 && base <= 995
    requires qs[0].id == QuestionId(base + 1) && qs[1].id == QuestionId(base + 2)
    requires qs[2].id == QuestionId(base + 3) && qs[3].id == QuestionId(base + 4)
    ensures Numbered(qs, base)
  {
  }

  lemma BlockNumbered(index: nat, plan: Plan)
    requires index < 20 && Planned(plan)
    ensures Numbered(Block(index, plan), 4 * index)
  {
    FirstTwoIds(index, plan);
    LastTwoIds(index, plan);
    FourNumbered(Block(index, plan), 4 * index);
  }

  lemma FirstTwoIds(index: nat, plan: Plan)
    requires index < 20 && Planned(plan)
    ensures Block(index, plan)[0].id == QuestionId(4 * index + 1)
      && Block(index, plan)[1].id == QuestionId(4 * index + 2)
  {
  }

  lemma LastTwoIds(index: nat, plan: Plan)
    requires index < 20 && Planned(plan)
    ensures Block(index, plan)[2].id == QuestionId(4 * index + 3)
      && Block(index, plan)[3].id == QuestionId(4 * index + 4)
  {
  }

  lemma {:induction false} FlattenNumbered(blocks: seq<seq<Question>>)
    requires |blocks| <= 20 && forall i :: 0 <= i < |blocks| ==> |blocks[i]| == 4 && Numbered(blocks[i], 4 * i)
    ensures |Flatten(blocks)| == 4 * |blocks| && Numbered(Flatten(blocks), 0)
  {
    if blocks != [] {
      var n := |blocks| - 1;
      FlattenNumbered(blocks[..n]);
      NumberedConcat(Flatten(blocks[..n]), blocks[n], 0);
    }
  }

  lemma SinglesNumbered(plans: seq<Plan>)
    requires AllPlanned(plans) && |plans| <= 20
    ensures |Flatten(Blocks(plans))| == 4 * |plans| && Numbered(Flatten(Blocks(plans)), 0)
  {
    forall i | 0 <= i < |plans| ensures |Blocks(plans)[i]| == 4 && Numbered(Blocks(plans)[i], 4 * i) {
      BlockNumbered(i, plans[i]);
    }
    FlattenNumbered(Blocks(plans));
  }

  lemma PairsNumbered(plans: seq<Plan>)
    requires AllPlanned(plans) && |plans| == 20
    ensures Numbered(Pairs(plans), 80)
  {
    forall k | 0 <= k < 10 ensures Pairs(plans)[k].id == QuestionId(80 + k + 1) {
      assert Pairs(plans)[k] == Multi(81 + k, plans[2 * k], plans[2 * k + 1]);
    }
  }

  lemma UnsupportedsNumbered(negatives: seq<Negative>)
    requires |negatives| == 10
    ensures Numbered(Unsupporteds(negatives), 90)
  {
    forall k | 0 <= k < 10 ensures Unsupporteds(negatives)[k].id == QuestionId(90 + k + 1) {
      assert Unsupporteds(negatives)[k] == Unsupported(91 + k, negatives[k]);
    }
  }

  lemma QuestionsInOrder(plans: seq<Plan>, negatives: seq<Negative>)
    requires AllPlanned(plans) && |plans| == 20 && |negatives| == 10
    ensures InOrder(Questions(plans, negatives))
  {
    SinglesNumbered(plans);
    PairsNumbered(plans);
    UnsupportedsNumbered(negatives);
    ThreeParts(Flatten(Blocks(plans)), Pairs(plans), Unsupporteds(negatives));
  }

  lemma ThreeParts(a: seq<Question>, b: seq<Question>, d: seq<Question>)
    requires |a| == 80 && |b| == 10 && |d| == 10 && Numbered(a, 0) && Numbered(b, 80) && Numbered(d, 90)
    ensures InOrder(a + b + d)
  {
    NumberedConcat(a, b, 0);
    NumberedConcat(a + b, d, 0);
  }

  // ---------------------------------------------------------------- counts

  lemma {:induction false} LanguageConcat(a: seq<Question>, b: seq<Question>, language: Language)
    ensures CountLanguage(a + b, language) == CountLanguage(a, language) + CountLanguage(b, language)
  {
    if b == [] {
      assert a + b == a;
    } else {
      var n := |b| - 1;
      LanguageConcat(a, b[..n], language);
      assert (a + b)[..|a + b| - 1] == a + b[..n];
    }
  }

  lemma {:induction false} StratumConcat(a: seq<Question>, b: seq<Question>, stratum: Stratum)
    ensures CountStratum(a + b, stratum) == CountStratum(a, stratum) + CountStratum(b, stratum)
  {
    if b == [] {
      assert a + b == a;
    } else {
      var n := |b| - 1;
      StratumConcat(a, b[..n], stratum);
      assert (a + b)[..|a + b| - 1] == a + b[..n];
    }
  }

  function One(b: bool): nat { if b then 1 else 0 }

  lemma CountFour(qs: seq<Question>, language: Language, stratum: Stratum)
    requires |qs| == 4
    ensures CountLanguage(qs, language) == One(qs[0].language == language) + One(qs[1].language == language)
      + One(qs[2].language == language) + One(qs[3].language == language)
    ensures CountStratum(qs, stratum) == One(qs[0].stratum == stratum) + One(qs[1].stratum == stratum)
      + One(qs[2].stratum == stratum) + One(qs[3].stratum == stratum)
  {
    assert qs[..3][..2] == qs[..2] && qs[..2][..1] == qs[..1] && qs[..1][..0] == [];
    assert qs[..3][2] == qs[2] && qs[..2][1] == qs[1] && qs[..1][0] == qs[0];
    assert CountLanguage(qs[..3], language) == CountLanguage(qs[..2], language) + One(qs[2].language == language);
    assert CountLanguage(qs[..2], language) == CountLanguage(qs[..1], language) + One(qs[1].language == language);
    assert CountLanguage(qs[..1], language) == One(qs[0].language == language);
    assert CountStratum(qs[..3], stratum) == CountStratum(qs[..2], stratum) + One(qs[2].stratum == stratum);
    assert CountStratum(qs[..2], stratum) == CountStratum(qs[..1], stratum) + One(qs[1].stratum == stratum);
    assert CountStratum(qs[..1], stratum) == One(qs[0].stratum == stratum);
  }

  lemma Times(n: nat, k: nat)
    requires n > 0
    ensures (n - 1) * k + k == n * k
  {
  }

  /** How often each title contributes a language. */
  function LanguageShare(language: Language): nat {
    2 * One(En == language) + One(De == language) + One(Es == language)
  }

  /** How often the title at an index contributes a stratum. */
  function StratumShare(index: nat, stratum: Stratum): nat {
    One(Direct == stratum) + 2 * One(CrossLanguage == stratum) + One(SecondStratum(index) == stratum)
  }

  lemma BlockCounts(index: nat, plan: Plan, language: Language, stratum: Stratum)
    requires index < 20 && Planned(plan)
    ensures CountLanguage(Block(index, plan), language) == LanguageShare(language)
    ensures CountStratum(Block(index, plan), stratum) == StratumShare(index, stratum)
  {
    CountFour(Block(index, plan), language, stratum);
  }

  lemma {:induction false} FlattenLanguages(blocks: seq<seq<Question>>, language: Language, share: nat)
    requires forall i :: 0 <= i < |blocks| ==> CountLanguage(blocks[i], language) == share
    ensures CountLanguage(Flatten(blocks), language) == |blocks| * share
  {
    if blocks != [] {
      var n := |blocks| - 1;
      FlattenLanguages(blocks[..n], language, share);
      LanguageConcat(Flatten(blocks[..n]), blocks[n], language);
      Times(n + 1, share);
    }
  }

  function StratumShares(n: nat, stratum: Stratum): nat {
    if n == 0 then 0 else StratumShares(n - 1, stratum) + StratumShare(n - 1, stratum)
  }

  lemma {:induction false} FlattenStrata(blocks: seq<seq<Question>>, stratum: Stratum)
    requires forall i :: 0 <= i < |blocks| ==> CountStratum(blocks[i], stratum) == StratumShare(i, stratum)
    ensures CountStratum(Flatten(blocks), stratum) == StratumShares(|blocks|, stratum)
  {
    if blocks != [] {
      var n := |blocks| - 1;
      FlattenStrata(blocks[..n], stratum);
      StratumConcat(Flatten(blocks[..n]), blocks[n], stratum);
    }
  }

  lemma SinglesCounts(plans: seq<Plan>, language: Language, stratum: Stratum)
    requires AllPlanned(plans) && |plans| <= 20
    ensures CountLanguage(Flatten(Blocks(plans)), language) == |plans| * LanguageShare(language)
    ensures CountStratum(Flatten(Blocks(plans)), stratum) == StratumShares(|plans|, stratum)
  {
    forall i | 0 <= i < |plans|
      ensures CountLanguage(Blocks(plans)[i], language) == LanguageShare(language)
      ensures CountStratum(Blocks(plans)[i], stratum) == StratumShare(i, stratum)
    {
      BlockCounts(i, plans[i], language, stratum);
    }
    FlattenLanguages(Blocks(plans), language, LanguageShare(language));
    FlattenStrata(Blocks(plans), stratum);
  }

  /** Of n titles, the first ten are asked a second direct question. */
  lemma {:induction false} StratumSharesSum(n: nat, stratum: Stratum, direct: nat, cross: nat, other: nat)
    requires direct == One(Direct == stratum) && cross == One(CrossLanguage == stratum)
    requires other == One(SourceDiscrimination == stratum)
    ensures n <= 10 ==> StratumShares(n, stratum) == 2 * n * direct + 2 * n * cross
    ensures n >= 10 ==> StratumShares(n, stratum) == (n + 10) * direct + 2 * n * cross + (n - 10) * other
  {
    if n > 0 {
      StratumSharesSum(n - 1, stratum, direct, cross, other);
      assert StratumShare(n - 1, stratum) == direct + 2 * cross + (if n - 1 < 10 then direct else other);
    }
  }

  lemma {:induction false} UniformCounts(qs: seq<Question>, language: Language, l: Language, stratum: Stratum,
      t: Stratum)
    requires forall i :: 0 <= i < |qs| ==> qs[i].language == l && qs[i].stratum == t
    ensures CountLanguage(qs, language) == |qs| * One(l == language)
    ensures CountStratum(qs, stratum) == |qs| * One(t == stratum)
  {
    if qs != [] {
      UniformCounts(qs[..|qs| - 1], language, l, stratum, t);
      Times(|qs|, One(l == language));
      Times(|qs|, One(t == stratum));
    }
  }

  lemma PairLabels(plans: seq<Plan>, k: nat)
    requires AllPlanned(plans) && |plans| == 20 && k < 10
    ensures Pairs(plans)[k].language == En && Pairs(plans)[k].stratum == MultiSource
  {
    PairItem(plans, k, Multi(81 + k, plans[2 * k], plans[2 * k + 1]));
  }

  lemma PairsCounts(plans: seq<Plan>, language: Language, stratum: Stratum)
    requires AllPlanned(plans) && |plans| == 20
    ensures CountLanguage(Pairs(plans), language) == 10 * One(En == language)
    ensures CountStratum(Pairs(plans), stratum) == 10 * One(MultiSource == stratum)
  {
    forall k | 0 <= k < 10 ensures Pairs(plans)[k].language == En && Pairs(plans)[k].stratum == MultiSource {
      PairLabels(plans, k);
    }
    UniformCounts(Pairs(plans), language, En, stratum, MultiSource);
  }

  ghost predicate NegativesLabelled(negatives: seq<Negative>) {
    forall i :: 0 <= i < |negatives| ==> negatives[i].language == NegativeLanguage(i)
  }

  lemma UnsupportedsCounts(negatives: seq<Negative>, language: Language, stratum: Stratum)
    requires |negatives| == 10 && NegativesLabelled(negatives)
    ensures CountLanguage(Unsupporteds(negatives), language) == 5 * One(De == language) + 5 * One(Es == language)
    ensures CountStratum(Unsupporteds(negatives), stratum) == 10 * One(Absent == stratum)
  {
    var qs := Unsupporteds(negatives);
    forall k | 0 <= k < 10 ensures qs[k].language == NegativeLanguage(k) && qs[k].stratum == Absent {}
    UniformCounts(qs[..5], language, De, stratum, Absent);
    UniformCounts(qs[5..], language, Es, stratum, Absent);
    assert qs == qs[..5] + qs[5..];
    LanguageConcat(qs[..5], qs[5..], language);
    StratumConcat(qs[..5], qs[5..], stratum);
  }

  lemma CountParts(a: seq<Question>, b: seq<Question>, d: seq<Question>, language: Language, stratum: Stratum)
    ensures CountLanguage(a + b + d, language) == CountLanguage(a, language) + CountLanguage(b, language)
      + CountLanguage(d, language)
    ensures CountStratum(a + b + d, stratum) == CountStratum(a, stratum) + CountStratum(b, stratum)
      + CountStratum(d, stratum)
  {
    LanguageConcat(a, b, language);
    LanguageConcat(a + b, d, language);
    StratumConcat(a, b, stratum);
    StratumConcat(a + b, d, stratum);
  }

  lemma QuestionsCount(plans: seq<Plan>, negatives: seq<Negative>, language: Language, stratum: Stratum)
    requires AllPlanned(plans) && |plans| == 20 && |negatives| == 10 && NegativesLabelled(negatives)
    ensures CountLanguage(Questions(plans, negatives), language) == 50 * One(En == language) + 25 * One(De == language)
      + 25 * One(Es == language)
    ensures CountStratum(Questions(plans, negatives), stratum) == 30 * One(Direct == stratum)
      + 40 * One(CrossLanguage == stratum) + 10 * One(SourceDiscrimination == stratum)
      + 10 * One(MultiSource == stratum) + 10 * One(Absent == stratum)
  {
    CountParts(Flatten(Blocks(plans)), Pairs(plans), Unsupporteds(negatives), language, stratum);
    SinglesCounts(plans, language, stratum);
    StratumSharesSum(20, stratum, One(Direct == stratum), One(CrossLanguage == stratum),
        One(SourceDiscrimination == stratum));
    PairsCounts(plans, language, stratum);
    UnsupportedsCounts(negatives, language, stratum);
  }

  lemma LanguagesAreExact(plans: seq<Plan>, negatives: seq<Negative>)
    requires AllPlanned(plans) && |plans| == 20 && |negatives| == 10 && NegativesLabelled(negatives)
    ensures LanguageCounts(Questions(plans, negatives))
  {
    QuestionsCount(plans, negatives, En, Direct);
    QuestionsCount(plans, negatives, De, Direct);
    QuestionsCount(plans, negatives, Es, Direct);
  }

  lemma StrataAreExact(plans: seq<Plan>, negatives: seq<Negative>)
    requires AllPlanned(plans) && |plans| == 20 && |negatives| == 10 && NegativesLabelled(negatives)
    ensures StratumCounts(Questions(plans, negatives))
  {
    QuestionsCount(plans, negatives, En, Direct);
    QuestionsCount(plans, negatives, En, CrossLanguage);
    QuestionsCount(plans, negatives, En, SourceDiscrimination);
    QuestionsCount(plans, negatives, En, MultiSource);
    QuestionsCount(plans, negatives, En, Absent);
  }

  /**
    One hundred questions in order, with the exact language and stratum counts. The set is valid exactly
    when every answer used occurs in the text of its title and no question used is blank.
   */
  lemma SetIsValid(plans: seq<Plan>, negatives: seq<Negative>, c: Corpus)
    requires Placed(plans, negatives, c)
    ensures ValidSet(Questions(plans, negatives), c.sources, c.selected, c.fold)
       <==> WellGrounded(plans, negatives, c.fold)
  {
    ghost var judge: Judge := q => Passes(q, c);
    QuestionsPass(plans, negatives, c, judge);
    QuestionsInOrder(plans, negatives);
    LanguagesAreExact(plans, negatives);
    StrataAreExact(plans, negatives);
    AllMeansValid(Questions(plans, negatives), c, judge);
  }

  lemma AllMeansValid(qs: seq<Question>, c: Corpus, judge: Judge)
    requires Judges(judge, c) && InOrder(qs) && LanguageCounts(qs) && StratumCounts(qs)
    ensures ValidSet(qs, c.sources, c.selected, c.fold) <==> All(qs, judge)
  {
    if ValidSet(qs, c.sources, c.selected, c.fold) {
      forall i | 0 <= i < |qs| ensures judge(qs[i]) { assert Passes(qs[i], c); }
    }
    if All(qs, judge) {
      forall i | 0 <= i < |qs| ensures Schema(qs[i]) && ValidQuestion(qs[i], c.sources, c.selected, c.fold) {
        assert Passes(qs[i], c) <==> judge(qs[i]);
      }
    }
  }
}
