/**
  The generator itself: checks, selection and question construction as the script performs them, and
  the theorems about every upstream it accepts.
 */
module HoldoutGenerator {
  import opened Wrappers
  import opened Unicode
  import opened HoldoutSet
  import opened HoldoutUpstream
  import opened HoldoutGeneration
  import opened HoldoutValidity
  import HoldoutRows
  import Statistics

  datatype Generated = Generated(plans: seq<Plan>, negatives: seq<Negative>, questions: seq<Question>)

  // ---------------------------------------------------------------- what the generator is given

  /** An index that `_upstream_index` returned. */
  ghost predicate ProperIndex(index: Index) {
    && DistinctTitles(index.titles)
    && (forall t :: t in index.titles ==> t in index.qas && t in index.contexts)
    && forall t :: t in index.qas ==> ProperQas(index.qas[t])
  }

  ghost predicate ProperUpstream(up: Upstream) {
    ProperIndex(up.de) && ProperIndex(up.en) && ProperIndex(up.es)
  }

  lemma IndexedIsProper(index: Index, data: seq<Article>)
    requires Indexes(index, data) && WellFormed(data)
    ensures ProperIndex(index)
  {
    forall t | t in index.titles ensures t in index.qas && t in index.contexts && ProperQas(index.qas[t]) {
      var i :| 0 <= i < |data| && TitlesOf(data)[i] == t;
      assert IndexesArticle(index, data[i]);
    }
  }

  // ---------------------------------------------------------------- selection

  ghost predicate AllSelectable(tools: Tools, up: Upstream, titles: seq<Text>) {
    forall i :: 0 <= i < |titles| ==> Selectable(tools, up, titles[i])
  }

  ghost predicate AllAskable(up: Upstream, titles: seq<Text>) {
    forall i :: 0 <= i < |titles| ==> Askable(up, titles[i])
  }

  ghost predicate DistinctKeys(tools: Tools, titles: seq<Text>) {
    forall i, j :: 0 <= i < j < |titles| ==> Key(tools, titles[i]) != Key(tools, titles[j])
  }

  function PlansOf(tools: Tools, up: Upstream, titles: seq<Text>): (plans: seq<Plan>)
    requires AllSelectable(tools, up, titles)
    ensures |plans| == |titles|
  {
    seq(|titles|, i requires 0 <= i < |titles| => PlanOf(tools, up, titles[i]))
  }

  function NegativesOf(tools: Tools, up: Upstream, titles: seq<Text>): (negatives: seq<Negative>)
    requires AllAskable(up, titles)
    ensures |negatives| == |titles|
  {
    seq(|titles|, i requires 0 <= i < |titles| => NegativeOf(tools, up, titles[i], i))
  }

  function Selected(tools: Tools, titles: seq<Text>): (r: seq<Text>)
    requires |titles| >= 30
    ensures |r| == 20
  {
    Statistics.SortByIsPermutation(titles, TitleOrder(tools.rank));
    RankTitles(tools, titles)[..20]
  }

  function Held(tools: Tools, titles: seq<Text>): (r: seq<Text>)
    requires |titles| >= 30
    ensures |r| == 10
  {
    Statistics.SortByIsPermutation(titles, TitleOrder(tools.rank));
    RankTitles(tools, titles)[20..30]
  }

  /** What is written can be hashed: the questions have canonical bytes. */
  ghost predicate Recordable(plans: seq<Plan>, negatives: seq<Negative>)
    requires |plans| == 20 && |negatives| == 10
  {
    AllPlanned(plans) && AllQuestionsEncode(Questions(plans, negatives))
  }

  /** When generation succeeds. */
  ghost predicate Generable(tools: Tools, up: Upstream) {
    && Parallel(up) && AllEncode(up.en.titles) && |up.en.titles| >= 30
    && AllSelectable(tools, up, Selected(tools, up.en.titles)) && DistinctKeys(tools, Selected(tools, up.en.titles))
    && AllAskable(up, Held(tools, up.en.titles))
    && Recordable(PlansOf(tools, up, Selected(tools, up.en.titles)), NegativesOf(tools, up, Held(tools, up.en.titles)))
  }

  // ---------------------------------------------------------------- the script

  method CheckParallel(up: Upstream) returns (r: Result<nat>)
    requires ProperUpstream(up)
    ensures r.Ok? <==> Parallel(up)
  {
    if up.de.titles != up.en.titles || up.es.titles != up.en.titles { return Fail("parallel_titles"); }
    for i := 0 to |up.en.titles|
      invariant forall k :: 0 <= k < i ==> ParallelTitle(up, up.en.titles[k])
    {
      if !ParallelTitle(up, up.en.titles[i]) { return Fail("parallel_questions"); }
    }
    return Ok(|up.en.titles|);
  }

  /** Plans one title whose key is not yet taken. */
  method SelectPlan(tools: Tools, up: Upstream, title: Text, keys: set<Text>) returns (r: Result<Plan>)
    requires ParallelTitle(up, title)
    ensures r.Ok? <==> Selectable(tools, up, title) && Key(tools, title) !in keys
    ensures r.Ok? ==> r.value == PlanOf(tools, up, title)
    ensures r == Fail("source_key_collision") ==> Key(tools, title) in keys
  {
    if Slug(tools.fold, title).None? { return Fail("source_key"); }
    if Key(tools, title) in keys { return Fail("source_key_collision"); }
    if !AllEncode(Ids(up.en.qas[title])) { return Fail("UnicodeEncodeError"); }
    if |up.en.qas[title]| < 5 { return Fail("question_selection"); }
    if !NoSurrogates(Body(tools, title, up.en.contexts[title])) { return Fail("UnicodeEncodeError"); }
    return Ok(PlanOf(tools, up, title));
  }

  ghost predicate KeysOf(tools: Tools, titles: seq<Text>, keys: set<Text>) {
    forall key :: key in keys <==> exists k :: 0 <= k < |titles| && Key(tools, titles[k]) == key
  }

  lemma KeysGrow(tools: Tools, titles: seq<Text>, title: Text, keys: set<Text>)
    requires KeysOf(tools, titles, keys)
    ensures KeysOf(tools, titles + [title], keys + {Key(tools, title)})
    ensures Key(tools, title) !in keys && DistinctKeys(tools, titles) <==> DistinctKeys(tools, titles + [title])
  {
    var longer := titles + [title];
    assert forall k :: 0 <= k < |titles| ==> longer[k] == titles[k];
    assert longer[|titles|] == title;
  }

  lemma SelectableFront(tools: Tools, up: Upstream, titles: seq<Text>, i: nat)
    requires i < |titles|
    ensures AllSelectable(tools, up, titles) ==> Selectable(tools, up, titles[i])
    ensures DistinctKeys(tools, titles) ==> DistinctKeys(tools, titles[..i + 1])
  {
    assert forall k :: 0 <= k < i + 1 ==> titles[..i + 1][k] == titles[k];
  }

  method SelectPlans(tools: Tools, up: Upstream, titles: seq<Text>) returns (r: Result<seq<Plan>>)
    requires forall i :: 0 <= i < |titles| ==> ParallelTitle(up, titles[i])
    ensures r.Ok? <==> AllSelectable(tools, up, titles) && DistinctKeys(tools, titles)
    ensures r.Ok? ==> r.value == PlansOf(tools, up, titles)
    ensures r == Fail("source_key_collision") ==> !DistinctKeys(tools, titles)
  {
    var plans: seq<Plan>, keys: set<Text> := [], {};
    for i := 0 to |titles|
      invariant Chosen(tools, up, titles[..i], plans, keys)
    {
      SelectableFront(tools, up, titles, i);
      var plan := SelectPlan(tools, up, titles[i], keys);
      ChosenGrows(tools, up, titles[..i], titles[i], plans, keys);
      assert titles[..i + 1] == titles[..i] + [titles[i]];
      if plan.Fail? { return Fail(plan.category); }
      keys, plans := keys + {Key(tools, titles[i])}, plans + [plan.value];
    }
    assert titles[..|titles|] == titles;
    return Ok(plans);
  }

  /** The loop state after some titles. */
  ghost predicate Chosen(tools: Tools, up: Upstream, titles: seq<Text>, plans: seq<Plan>, keys: set<Text>) {
    && AllSelectable(tools, up, titles) && DistinctKeys(tools, titles)
    && plans == PlansOf(tools, up, titles) && KeysOf(tools, titles, keys)
  }

  lemma ChosenGrows(tools: Tools, up: Upstream, titles: seq<Text>, title: Text, plans: seq<Plan>, keys: set<Text>)
    requires Chosen(tools, up, titles, plans, keys)
    ensures Key(tools, title) in keys ==> !DistinctKeys(tools, titles + [title])
    ensures Selectable(tools, up, title) && Key(tools, title) !in keys ==>
      Chosen(tools, up, titles + [title], plans + [PlanOf(tools, up, title)], keys + {Key(tools, title)})
  {
    KeysGrow(tools, titles, title, keys);
    if Selectable(tools, up, title) { PlansGrow(tools, up, titles, title); }
  }

  lemma PlansGrow(tools: Tools, up: Upstream, titles: seq<Text>, title: Text)
    requires AllSelectable(tools, up, titles) && Selectable(tools, up, title)
    ensures AllSelectable(tools, up, titles + [title])
    ensures PlansOf(tools, up, titles + [title]) == PlansOf(tools, up, titles) + [PlanOf(tools, up, title)]
  {
  }

  method SelectNegatives(tools: Tools, up: Upstream, titles: seq<Text>) returns (r: Result<seq<Negative>>)
    requires forall i :: 0 <= i < |titles| ==> ParallelTitle(up, titles[i])
    ensures r.Ok? <==> AllAskable(up, titles)
    ensures r.Ok? ==> r.value == NegativesOf(tools, up, titles)
  {
    var negatives: seq<Negative> := [];
    for i := 0 to |titles|
      invariant AllAskable(up, titles[..i]) && negatives == NegativesOf(tools, up, titles[..i])
    {
      if !AllEncode(Ids(up.en.qas[titles[i]])) {
        assert !Askable(up, titles[i]);
        return Fail("UnicodeEncodeError");
      }
      if |up.en.qas[titles[i]]| == 0 {
        assert !Askable(up, titles[i]);
        return Fail("IndexError");
      }
      negatives := negatives + [NegativeOf(tools, up, titles[i], i)];
      assert titles[..i + 1] == titles[..i] + [titles[i]];
    }
    assert titles[..|titles|] == titles;
    return Ok(negatives);
  }

  /** The next identifier is always that of the next position. */
  method SingleQuestions(plans: seq<Plan>) returns (qs: seq<Question>)
    requires AllPlanned(plans) && |plans| == 20
    ensures qs == Flatten(Blocks(plans)) && |qs| == 80
  {
    ghost var blocks := Blocks(plans);
    qs := [];
    for i := 0 to |plans|
      invariant qs == Flatten(blocks[..i]) && |qs| == 4 * i
    {
      var four := BlockAfter(|qs|, i, plans[i]);
      BlockIs(plans, i, four);
      FlattenNext(blocks, i);
      qs := qs + four;
    }
    assert blocks[..20] == blocks;
  }

  lemma BlockIs(plans: seq<Plan>, i: nat, four: seq<Question>)
    requires AllPlanned(plans) && |plans| == 20 && i < 20 && four == Block(i, plans[i])
    ensures Blocks(plans)[i] == four && |four| == 4
  {
  }

  lemma FlattenNext(blocks: seq<seq<Question>>, i: nat)
    requires i < |blocks|
    ensures Flatten(blocks[..i + 1]) == Flatten(blocks[..i]) + blocks[i]
  {
    assert blocks[..i + 1][..i] == blocks[..i];
  }

  method PairQuestion(plans: seq<Plan>, k: nat, n: nat) returns (q: Question)
    requires AllPlanned(plans) && |plans| == 20 && k < 10 && n == 81 + k
    ensures q == Pairs(plans)[k]
  {
    q := Multi(n, plans[2 * k], plans[2 * k + 1]);
    PairItem(plans, k, q);
  }

  method PairQuestions(plans: seq<Plan>, start: nat) returns (qs: seq<Question>)
    requires AllPlanned(plans) && |plans| == 20 && start == 80
    ensures qs == Pairs(plans)
  {
    ghost var all := Pairs(plans);
    qs := [];
    for k := 0 to 10
      invariant |qs| == k && qs == all[..k]
    {
      var q := PairQuestion(plans, k, start + |qs| + 1);
      qs := qs + [q];
    }
  }

  method UnsupportedQuestions(negatives: seq<Negative>, start: nat) returns (qs: seq<Question>)
    requires |negatives| == 10 && start == 90
    ensures qs == Unsupporteds(negatives)
  {
    qs := [];
    for k := 0 to 10
      invariant |qs| == k && qs == Unsupporteds(negatives)[..k]
    {
      qs := qs + [Unsupported(start + |qs| + 1, negatives[k])];
    }
  }

  method BuildQuestions(plans: seq<Plan>, negatives: seq<Negative>) returns (qs: seq<Question>)
    requires AllPlanned(plans) && |plans| == 20 && |negatives| == 10
    ensures qs == Questions(plans, negatives)
  {
    var singles := SingleQuestions(plans);
    var pairs := PairQuestions(plans, |singles|);
    var unsupported := UnsupportedQuestions(negatives, |singles| + |pairs|);
    qs := singles + pairs + unsupported;
  }

  lemma RankedParallel(tools: Tools, up: Upstream)
    requires Parallel(up) && |up.en.titles| >= 30
    ensures forall i :: 0 <= i < 20 ==> ParallelTitle(up, Selected(tools, up.en.titles)[i])
    ensures forall i :: 0 <= i < 10 ==> ParallelTitle(up, Held(tools, up.en.titles)[i])
  {
    var ranked := RankTitles(tools, up.en.titles);
    Statistics.SortByIsPermutation(up.en.titles, TitleOrder(tools.rank));
    forall i | 0 <= i < |ranked| ensures ParallelTitle(up, ranked[i]) {
      assert ranked[i] in multiset(ranked);
      var j :| 0 <= j < |up.en.titles| && up.en.titles[j] == ranked[i];
    }
  }

  lemma PlansArePlanned(tools: Tools, up: Upstream, titles: seq<Text>)
    requires ProperUpstream(up) && AllSelectable(tools, up, titles)
    ensures AllPlanned(PlansOf(tools, up, titles))
  {
    var plans := PlansOf(tools, up, titles);
    forall i | 0 <= i < |plans| ensures Planned(plans[i]) {
      assert Selectable(tools, up, titles[i]);
      PicksAreAnswered(up.en.qas[titles[i]], plans[i]);
    }
  }

  lemma PicksAreAnswered(qas: seq<Qa>, plan: Plan)
    requires ProperQas(qas) && |plan.picks| == 5 && forall k :: 0 <= k < 5 ==> plan.picks[k] in qas
    ensures Planned(plan)
  {
  }

  /** The selection and question construction of `generate_holdout`. */
  method Generate(tools: Tools, up: Upstream) returns (r: Result<Generated>)
    requires ProperUpstream(up)
    ensures r.Ok? <==> Generable(tools, up)
    ensures r.Ok? ==> r.value.plans == PlansOf(tools, up, Selected(tools, up.en.titles))
    ensures r.Ok? ==> r.value.negatives == NegativesOf(tools, up, Held(tools, up.en.titles))
    ensures r.Ok? ==> AllPlanned(r.value.plans) && |r.value.plans| == 20 && |r.value.negatives| == 10
    ensures r.Ok? ==> r.value.questions == Questions(r.value.plans, r.value.negatives)
  {
    var parallel := CheckParallel(up);
    if parallel.Fail? { return Fail(parallel.category); }
    if !AllEncode(up.en.titles) { return Fail("UnicodeEncodeError"); }
    if |up.en.titles| < 30 { return Fail("selection_count"); }
    RankedParallel(tools, up);
    var selected, held := Selected(tools, up.en.titles), Held(tools, up.en.titles);
    var plans := SelectPlans(tools, up, selected);
    if plans.Fail? { return Fail(plans.category); }
    PlansArePlanned(tools, up, selected);
    var negatives := SelectNegatives(tools, up, held);
    if negatives.Fail? { return Fail(negatives.category); }
    var questions := BuildQuestions(plans.value, negatives.value);
    if !AllQuestionsEncode(questions) { return Fail("canonicalization"); }
    return Ok(Generated(plans.value, negatives.value, questions));
  }

  // ---------------------------------------------------------------- the generated set is valid

  /** The corpus that is written with the questions: each plan's text under its key. */
  function CorpusOf(tools: Tools, plans: seq<Plan>): Corpus {
    Corpus(SourcesOf(plans), set i | 0 <= i < |plans| :: plans[i].title, tools.fold)
  }

  function SourcesOf(plans: seq<Plan>): map<Text, Text> {
    if plans == [] then map[]
    else SourcesOf(plans[..|plans| - 1])[plans[|plans| - 1].key := plans[|plans| - 1].body]
  }

  ghost predicate DistinctPlans(plans: seq<Plan>) {
    forall i, j :: 0 <= i < j < |plans| ==> plans[i].key != plans[j].key
  }

  lemma {:induction false} SourcesHold(plans: seq<Plan>, i: nat)
    requires DistinctPlans(plans) && i < |plans|
    ensures plans[i].key in SourcesOf(plans) && SourcesOf(plans)[plans[i].key] == plans[i].body
  {
    var n := |plans| - 1;
    if i < n {
      SourcesHold(plans[..n], i);
      assert plans[i].key != plans[n].key;
    }
  }

  /** A held title is none of the selected ones. */
  lemma HeldAreNotSelected(tools: Tools, titles: seq<Text>, i: nat, j: nat)
    requires DistinctTitles(titles) && |titles| >= 30 && i < 20 && j < 10
    ensures Selected(tools, titles)[i] != Held(tools, titles)[j]
  {
    var ranked := RankTitles(tools, titles);
    Statistics.SortByIsPermutation(titles, TitleOrder(tools.rank));
    DistinctIsStable(titles, ranked);
    assert Selected(tools, titles)[i] == ranked[i] && Held(tools, titles)[j] == ranked[20 + j];
  }

  lemma {:induction false} SingleOccurrences(s: seq<Text>)
    ensures DistinctTitles(s) <==> forall t :: multiset(s)[t] <= 1
  {
    if s != [] {
      var n := |s| - 1;
      var front := s[..n];
      SingleOccurrences(front);
      assert s == front + [s[n]];
      assert multiset(s) == multiset(front) + multiset{s[n]};
      if DistinctTitles(s) {
        assert s[n] !in front;
      } else if DistinctTitles(front) {
        assert s[n] in front by {
          var i, j :| 0 <= i < j < |s| && s[i] == s[j];
          assert front[i] == s[n];
        }
        assert multiset(s)[s[n]] == multiset(front)[s[n]] + 1;
      } else {
        var t :| multiset(front)[t] > 1;
        assert multiset(s)[t] > 1;
      }
    }
  }

  lemma DistinctIsStable(a: seq<Text>, b: seq<Text>)
    requires DistinctTitles(a) && multiset(a) == multiset(b)
    ensures DistinctTitles(b)
  {
    SingleOccurrences(a);
    SingleOccurrences(b);
  }

  lemma PlansAreStored(tools: Tools, up: Upstream, titles: seq<Text>, i: nat)
    requires AllSelectable(tools, up, titles) && DistinctKeys(tools, titles) && i < |titles|
    ensures DistinctPlans(PlansOf(tools, up, titles))
    ensures Stored(PlansOf(tools, up, titles)[i], CorpusOf(tools, PlansOf(tools, up, titles)))
  {
    var plans := PlansOf(tools, up, titles);
    forall j | 0 <= j < |plans| ensures plans[j].key == Key(tools, titles[j]) {}
    SourcesHold(plans, i);
    assert Selectable(tools, up, titles[i]);
    PrefixedIsKey(Slug(tools.fold, titles[i]).value);
  }

  lemma GeneratedIsPlaced(tools: Tools, up: Upstream)
    requires ProperUpstream(up) && Generable(tools, up)
    ensures var plans := PlansOf(tools, up, Selected(tools, up.en.titles));
            Placed(plans, NegativesOf(tools, up, Held(tools, up.en.titles)), CorpusOf(tools, plans))
  {
    var selected, held := Selected(tools, up.en.titles), Held(tools, up.en.titles);
    var plans, negatives := PlansOf(tools, up, selected), NegativesOf(tools, up, held);
    PlansArePlanned(tools, up, selected);
    forall i | 0 <= i < 20 ensures Stored(plans[i], CorpusOf(tools, plans)) { PlansAreStored(tools, up, selected, i); }
    PlansAreStored(tools, up, selected, 0);
    forall i | 0 <= i < 10
      ensures negatives[i].title !in CorpusOf(tools, plans).selected && negatives[i].language == NegativeLanguage(i)
    {
      assert negatives[i].title == held[i];
      forall j | 0 <= j < 20 ensures plans[j].title != held[i] { HeldAreNotSelected(tools, up.en.titles, j, i); }
    }
  }

  /**
    Every upstream from which generation succeeds gives one hundred questions that pass validation
    against the written corpus, exactly when every answer used occurs in the text of its title and no
    question used is blank.
   */
  lemma GeneratedSetIsValid(tools: Tools, up: Upstream, plans: seq<Plan>, negatives: seq<Negative>)
    requires ProperUpstream(up) && Generable(tools, up)
    requires plans == PlansOf(tools, up, Selected(tools, up.en.titles))
    requires negatives == NegativesOf(tools, up, Held(tools, up.en.titles))
    ensures AllPlanned(plans)
    ensures var c := CorpusOf(tools, plans);
            ValidSet(Questions(plans, negatives), c.sources, c.selected, c.fold) <==>
            WellGrounded(plans, negatives, tools.fold)
  {
    GeneratedIsPlaced(tools, up);
    SetIsValid(plans, negatives, CorpusOf(tools, plans));
  }

  ghost predicate SameArticles(a: Upstream, b: Upstream) {
    && multiset(a.en.titles) == multiset(b.en.titles)
    && a.en.qas == b.en.qas && a.de.qas == b.de.qas && a.es.qas == b.es.qas && a.en.contexts == b.en.contexts
  }

  lemma SameTitles(a: seq<Text>, b: seq<Text>, t: Text)
    requires multiset(a) == multiset(b)
    ensures t in a <==> t in b
  {
    assert t in a <==> t in multiset(a);
    assert t in b <==> t in multiset(b);
  }

  lemma ReorderedIsParallel(a: Upstream, b: Upstream)
    requires Parallel(a) && AllEncode(a.en.titles) && SameArticles(a, b)
    requires b.de.titles == b.en.titles && b.es.titles == b.en.titles
    ensures Parallel(b) && AllEncode(b.en.titles) && |b.en.titles| == |a.en.titles|
  {
    assert |multiset(a.en.titles)| == |a.en.titles| && |multiset(b.en.titles)| == |b.en.titles|;
    forall i | 0 <= i < |b.en.titles| ensures ParallelTitle(b, b.en.titles[i]) && NoSurrogates(b.en.titles[i]) {
      SameTitles(a.en.titles, b.en.titles, b.en.titles[i]);
      var j :| 0 <= j < |a.en.titles| && a.en.titles[j] == b.en.titles[i];
      assert ParallelTitle(a, a.en.titles[j]);
    }
  }

  lemma SamePlan(tools: Tools, a: Upstream, b: Upstream, title: Text)
    requires SameArticles(a, b)
    ensures Selectable(tools, a, title) == Selectable(tools, b, title) && Askable(a, title) == Askable(b, title)
    ensures Selectable(tools, a, title) ==> PlanOf(tools, a, title) == PlanOf(tools, b, title)
  {
  }

  lemma SamePlans(tools: Tools, a: Upstream, b: Upstream, titles: seq<Text>)
    requires SameArticles(a, b) && AllSelectable(tools, a, titles)
    ensures AllSelectable(tools, b, titles) && PlansOf(tools, a, titles) == PlansOf(tools, b, titles)
  {
    forall i | 0 <= i < |titles| ensures Selectable(tools, b, titles[i]) { SamePlan(tools, a, b, titles[i]); }
    forall i | 0 <= i < |titles| ensures PlansOf(tools, a, titles)[i] == PlansOf(tools, b, titles)[i] {
      SamePlan(tools, a, b, titles[i]);
    }
  }

  lemma SameNegatives(tools: Tools, a: Upstream, b: Upstream, titles: seq<Text>)
    requires SameArticles(a, b) && AllAskable(a, titles)
    ensures AllAskable(b, titles) && NegativesOf(tools, a, titles) == NegativesOf(tools, b, titles)
  {
    forall i | 0 <= i < |titles| ensures Askable(b, titles[i]) { SamePlan(tools, a, b, titles[i]); }
  }

  /**
    Reordering the articles of parallel files changes neither whether generation succeeds, nor the selected
    titles, nor anything generated from them.
   */
  lemma GenerationIgnoresArticleOrder(tools: Tools, a: Upstream, b: Upstream)
    requires Generable(tools, a) && SameArticles(a, b)
    requires b.de.titles == b.en.titles && b.es.titles == b.en.titles
    ensures Generable(tools, b) && Selected(tools, a.en.titles) == Selected(tools, b.en.titles)
    ensures PlansOf(tools, a, Selected(tools, a.en.titles)) == PlansOf(tools, b, Selected(tools, b.en.titles))
    ensures NegativesOf(tools, a, Held(tools, a.en.titles)) == NegativesOf(tools, b, Held(tools, b.en.titles))
  {
    ReorderedIsParallel(a, b);
    RankIgnoresArticleOrder(tools, a.en.titles, b.en.titles);
    SamePlans(tools, a, b, Selected(tools, a.en.titles));
    SameNegatives(tools, a, b, Held(tools, a.en.titles));
  }

  // ---------------------------------------------------------------- answers that occur in their contexts

  /** Folding works code point by code point. */
  ghost predicate FoldsPointwise(fold: Fold) {
    forall a, b :: fold(a + b) == fold(a) + fold(b)
  }

  lemma MentionedWhereFound(fold: Fold, before: Text, part: Text, after: Text)
    requires FoldsPointwise(fold)
    ensures Mentions(fold, before + part + after, part)
  {
    assert fold(before + part + after) == fold(before + part) + fold(after);
    var body, i := fold(before) + fold(part) + fold(after), |fold(before)|;
    assert body[i..i + |fold(part)|] == fold(part);
    assert HoldoutRows.OccursAt(body, fold(part), i);
  }

  /** Each stripped context is a part of the joined text. */
  lemma {:induction false} ContextIsPart(tools: Tools, contexts: seq<Text>, i: nat) returns (before: Text, after: Text)
    requires i < |contexts|
    ensures Joined(tools, contexts) == before + tools.rstrip(contexts[i]) + after
  {
    var n := |contexts| - 1;
    if n == 0 {
      before, after := [], [];
    } else if i == n {
      before, after := Joined(tools, contexts[..n]) + BREAK, [];
    } else {
      before, after := ContextIsPart(tools, contexts[..n], i);
      after := after + BREAK + tools.rstrip(contexts[n]);
    }
  }

  /** An answer that occurs in a stripped context of its title is mentioned by the title's text. */
  lemma ContextGrounds(tools: Tools, title: Text, contexts: seq<Text>, i: nat, answer: Text, at: nat)
    requires FoldsPointwise(tools.fold) && i < |contexts| && HoldoutRows.OccursAt(tools.rstrip(contexts[i]), answer, at)
    ensures Mentions(tools.fold, Body(tools, title, contexts), answer)
  {
    var before, after := ContextIsPart(tools, contexts, i);
    var context, lead := tools.rstrip(contexts[i]), T("# ") + Spaced(title) + BREAK;
    assert context == context[..at] + answer + context[at + |answer|..];
    var head, tail := lead + before + context[..at], context[at + |answer|..] + after + [10];
    assert Body(tools, title, contexts) == head + answer + tail;
    MentionedWhereFound(tools.fold, head, answer, tail);
  }

  /** Some answer of the question occurs in some stripped context. */
  ghost predicate AnswerFound(tools: Tools, contexts: seq<Text>, qa: Qa) {
    exists i, a, at :: 0 <= i < |contexts| && a in qa.answers && HoldoutRows.OccursAt(tools.rstrip(contexts[i]), a, at)
  }

  /** No question is blank, and every English question has an answer in a context of its title. */
  ghost predicate Faithful(tools: Tools, up: Upstream) {
    && (forall t, qa :: t in up.en.qas && t in up.en.contexts && qa in up.en.qas[t] ==>
      AnswerFound(tools, up.en.contexts[t], qa))
    && NoBlanks(up.de) && NoBlanks(up.en) && NoBlanks(up.es)
  }

  ghost predicate NoBlanks(index: Index) {
    forall t, qa :: t in index.qas && qa in index.qas[t] ==> qa.question != []
  }

  lemma PlanIsGrounded(tools: Tools, up: Upstream, title: Text, k: nat)
    requires Selectable(tools, up, title) && Faithful(tools, up) && FoldsPointwise(tools.fold) && k < 5
    ensures Grounded(PlanOf(tools, up, title), PlanOf(tools, up, title).picks[k], tools.fold)
  {
    var plan, contexts := PlanOf(tools, up, title), up.en.contexts[title];
    assert AnswerFound(tools, contexts, plan.picks[k]);
    var i, a, at :| 0 <= i < |contexts| && a in plan.picks[k].answers
        && HoldoutRows.OccursAt(tools.rstrip(contexts[i]), a, at);
    ContextGrounds(tools, title, contexts, i, a, at);
  }

  lemma PlanIsReady(tools: Tools, up: Upstream, title: Text)
    requires Selectable(tools, up, title) && Faithful(tools, up) && FoldsPointwise(tools.fold)
    ensures SinglesReady(PlanOf(tools, up, title), tools.fold) && PairReady(PlanOf(tools, up, title), tools.fold)
  {
    PlanIsGrounded(tools, up, title, 0);
    PlanIsGrounded(tools, up, title, 1);
    PlanIsGrounded(tools, up, title, 2);
    PlanIsGrounded(tools, up, title, 3);
    PlanIsGrounded(tools, up, title, 4);
  }

  /** From faithful files, whatever generation yields is a valid question set. */
  lemma FaithfulUpstreamIsValid(tools: Tools, up: Upstream, plans: seq<Plan>, negatives: seq<Negative>)
    requires ProperUpstream(up) && Generable(tools, up) && Faithful(tools, up) && FoldsPointwise(tools.fold)
    requires plans == PlansOf(tools, up, Selected(tools, up.en.titles))
    requires negatives == NegativesOf(tools, up, Held(tools, up.en.titles))
    ensures AllPlanned(plans)
    ensures var c := CorpusOf(tools, plans); ValidSet(Questions(plans, negatives), c.sources, c.selected, c.fold)
  {
    var selected, held := Selected(tools, up.en.titles), Held(tools, up.en.titles);
    GeneratedSetIsValid(tools, up, plans, negatives);
    forall i | 0 <= i < 20 ensures SinglesReady(plans[i], tools.fold) && PairReady(plans[i], tools.fold) {
      PlanIsReady(tools, up, selected[i]);
    }
    forall i | 0 <= i < 10 ensures negatives[i].qa.question != [] {
      assert negatives[i] == NegativeOf(tools, up, held[i], i) && Askable(up, held[i]);
    }
    assert WellGrounded(plans, negatives, tools.fold);
  }

  // ---------------------------------------------------------------- from articles to a valid set

  /** The three files as parsed articles. */
  datatype Files = Files(de: seq<Article>, en: seq<Article>, es: seq<Article>)

  ghost predicate AllWellFormed(files: Files) {
    WellFormed(files.de) && WellFormed(files.en) && WellFormed(files.es)
  }

  method IndexFiles(files: Files) returns (r: Result<Upstream>)
    ensures r.Ok? <==> AllWellFormed(files)
    ensures r.Ok? ==> Indexes(r.value.de, files.de) && Indexes(r.value.en, files.en) && Indexes(r.value.es, files.es)
    ensures r.Ok? ==> ProperUpstream(r.value)
  {
    var de := UpstreamIndex(files.de);
    if de.Fail? { return Fail(de.category); }
    var en := UpstreamIndex(files.en);
    if en.Fail? { return Fail(en.category); }
    var es := UpstreamIndex(files.es);
    if es.Fail? { return Fail(es.category); }
    IndexedIsProper(de.value, files.de);
    IndexedIsProper(en.value, files.en);
    IndexedIsProper(es.value, files.es);
    return Ok(Upstream(de.value, en.value, es.value));
  }

  /** The article under a title. */
  function ArticleAt(data: seq<Article>, title: Text): (a: Article)
    requires title in TitlesOf(data)
    ensures a in data && a.title == title
  {
    if data[0].title == title then data[0]
    else
      assert TitlesOf(data) == [data[0].title] + TitlesOf(data[1..]);
      ArticleAt(data[1..], title)
  }

  /** The one index of well-formed articles. */
  function IndexOf(data: seq<Article>): Index {
    Index(TitlesOf(data), map t | t in TitlesOf(data) :: ContextsOf(ArticleAt(data, t).paragraphs),
          map t | t in TitlesOf(data) :: QasOf(ArticleAt(data, t).paragraphs))
  }

  function UpstreamOf(files: Files): Upstream {
    Upstream(IndexOf(files.de), IndexOf(files.en), IndexOf(files.es))
  }

  lemma IndexIsUnique(index: Index, data: seq<Article>)
    requires Indexes(index, data)
    ensures index == IndexOf(data)
  {
    forall i | 0 <= i < |data| ensures data[i].title in index.qas { assert IndexesArticle(index, data[i]); }
    forall t ensures t in index.qas <==> t in TitlesOf(data) {
      if t in TitlesOf(data) {
        var i :| 0 <= i < |data| && TitlesOf(data)[i] == t;
      }
    }
    forall t | t in index.qas
      ensures index.contexts[t] == IndexOf(data).contexts[t] && index.qas[t] == IndexOf(data).qas[t]
    {
      var i :| 0 <= i < |data| && data[i] == ArticleAt(data, t);
      assert IndexesArticle(index, data[i]);
    }
    assert index.qas == IndexOf(data).qas && index.contexts == IndexOf(data).contexts;
  }

  /**
    From parsed articles to questions. It succeeds exactly when the articles are well formed and what they
    index is generable; whatever comes out passes validation against the corpus written
    with it exactly when every used answer occurs in its text and no used question is blank, and it does
    whenever the files are faithful.
   */
  method GenerateFromArticles(tools: Tools, files: Files) returns (r: Result<Generated>)
    ensures r.Ok? <==> AllWellFormed(files) && Generable(tools, UpstreamOf(files))
    ensures r.Ok? ==> AllPlanned(r.value.plans)
    ensures r.Ok? ==>
      (ValidFor(r.value, tools) <==> WellGrounded(r.value.plans, r.value.negatives, tools.fold))
    ensures r.Ok? && FaithfulFiles(tools, files) && FoldsPointwise(tools.fold) ==> ValidFor(r.value, tools)
  {
    var up := IndexFiles(files);
    if up.Fail? { return Fail(up.category); }
    IndexIsUnique(up.value.de, files.de);
    IndexIsUnique(up.value.en, files.en);
    IndexIsUnique(up.value.es, files.es);
    r := Generate(tools, up.value);
    if r.Ok? {
      GeneratedSetIsValid(tools, up.value, r.value.plans, r.value.negatives);
      if FaithfulFiles(tools, files) && FoldsPointwise(tools.fold) {
        FaithfulIndexes(tools, files, up.value);
        FaithfulUpstreamIsValid(tools, up.value, r.value.plans, r.value.negatives);
      }
    }
  }

  /** The questions are a valid set for the corpus that was written with them. */
  ghost predicate ValidFor(g: Generated, tools: Tools) {
    var c := CorpusOf(tools, g.plans);
    ValidSet(g.questions, c.sources, c.selected, c.fold)
  }

  ghost predicate NoBlankArticles(data: seq<Article>) {
    forall i, qa :: 0 <= i < |data| && qa in QasOf(data[i].paragraphs) ==> qa.question != []
  }

  /** No question is blank, and every English question has an answer in a context of its article. */
  ghost predicate FaithfulFiles(tools: Tools, files: Files) {
    && NoBlankArticles(files.de) && NoBlankArticles(files.en) && NoBlankArticles(files.es)
    && forall i, qa :: 0 <= i < |files.en| && qa in QasOf(files.en[i].paragraphs) ==>
         AnswerFound(tools, ContextsOf(files.en[i].paragraphs), qa)
  }

  lemma IndexedArticle(index: Index, data: seq<Article>, title: Text) returns (i: nat)
    requires Indexes(index, data) && title in index.qas
    ensures i < |data| && index.qas[title] == QasOf(data[i].paragraphs)
    ensures title in index.contexts && index.contexts[title] == ContextsOf(data[i].paragraphs)
  {
    assert title in index.titles;
    i :| 0 <= i < |data| && TitlesOf(data)[i] == title;
    assert IndexesArticle(index, data[i]);
  }

  lemma NoBlanksIndexed(index: Index, data: seq<Article>)
    requires Indexes(index, data) && NoBlankArticles(data)
    ensures NoBlanks(index)
  {
    forall t, qa | t in index.qas && qa in index.qas[t] ensures qa.question != [] {
      var i := IndexedArticle(index, data, t);
    }
  }

  lemma FaithfulIndexes(tools: Tools, files: Files, up: Upstream)
    requires FaithfulFiles(tools, files)
    requires Indexes(up.de, files.de) && Indexes(up.en, files.en) && Indexes(up.es, files.es)
    ensures Faithful(tools, up)
  {
    NoBlanksIndexed(up.de, files.de);
    NoBlanksIndexed(up.en, files.en);
    NoBlanksIndexed(up.es, files.es);
    forall t, qa | t in up.en.qas && t in up.en.contexts && qa in up.en.qas[t]
      ensures AnswerFound(tools, up.en.contexts[t], qa)
    {
      var i := IndexedArticle(up.en, files.en, t);
    }
  }
}
