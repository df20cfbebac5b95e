/**
  Evaluation of one retrieval observation under a review-item budget, by the benchmark and by its
  independent validator.

  A raw field holds what `dict.get` returns: JNull when the key is absent, or the default that the
  script passes.
 */
module ReviewBudget {
  import opened Wrappers
  import opened Unicode
  import opened CanonicalJson
  import opened PythonValues

  datatype RawItem = RawItem(order: Json, relevant: Json, citationValid: Json, covered: Json, sourceKey: Json,
                             score: Json, maximum: Json)

  /** `selected` is None unless it is a list of dicts; `selectedCount` is None when absent. */
  datatype Observation = Observation(questionId: Json, requiredAtoms: Json, requiredSources: Json, abstained: Json,
                                     wallNs: Json, selected: Option<seq<RawItem>>, selectedCount: Option<Json>)

  /** One inspected item, reduced to what the loop uses. */
  datatype Item = Irrelevant | Uncited | Cited(atoms: set<Text>, source: Text, score: nat, maximum: nat)

  /** The loop variables of the evaluation. */
  datatype State = State(atoms: set<Text>, sources: map<Text, (nat, nat)>, relevant: nat, cited: nat,
                         completion: Option<nat>)

  datatype Row = Row(questionId: Text, budget: int, answerable: bool, selectedCount: nat, inspectedCount: nat,
                     requiredAtoms: nat, trustedAtoms: nat, requiredSources: nat, trustedSources: nat,
                     relevantInspected: nat, citationValidRelevant: nat, citationIntegrity: bool,
                     fitnessScore: nat, fitnessMax: nat, itemsToCompletion: Option<nat>, answerableCompletion: bool,
                     safeUnsupported: bool, taskCompletion: bool, wallNs: nat)

  const START: State := State({}, map[], 0, 0, None)

  // ---------------------------------------------------------------- raw fields

  predicate IsNat(v: Json) {
    v.JInt? && v.i >= 0
  }

  predicate IsName(v: Json) {
    v.JStr? && v.s != []
  }

  predicate IsNameList(v: Json) {
    v.JArr? && forall k :: 0 <= k < |v.items| ==> IsName(v.items[k])
  }

  function Names(v: Json): set<Text>
    requires IsNameList(v)
  {
    set k | 0 <= k < |v.items| :: v.items[k].s
  }

  predicate ItemShaped(raw: RawItem) {
    raw.relevant.JBool? && raw.citationValid.JBool? && IsNameList(raw.covered) && IsName(raw.sourceKey)
  }

  function ReadItem(raw: RawItem, index: nat): Result<Item> {
    if !EqualsInt(raw.order, index) then Fail("selected_order")
    else if !ItemShaped(raw) then Fail("selected_item_shape")
    else if !raw.relevant.b then
      if raw.covered.items != [] then Fail("irrelevant_atom_coverage") else Ok(Irrelevant)
    else if !raw.citationValid.b then Ok(Uncited)
    else if !IsNat(raw.score) || !IsNat(raw.maximum) || raw.score.i > raw.maximum.i then Fail("source_fitness")
    else Ok(Cited(Names(raw.covered), raw.sourceKey.s, raw.score.i, raw.maximum.i))
  }

  /** The items of a prefix, or the first failure in it. */
  function ReadItems(raw: seq<RawItem>): (r: Result<seq<Item>>)
    ensures r.Ok? ==> |r.value| == |raw|
  {
    if raw == [] then Ok([])
    else
      var n := |raw| - 1;
      var items :- ReadItems(raw[..n]);
      var item :- ReadItem(raw[n], n);
      Ok(items + [item])
  }

  // ---------------------------------------------------------------- the loop

  /** Whether a later pair replaces the one kept for its source. */
  predicate Replaces(current: (nat, nat), score: nat, maximum: nat) {
    current.1 == 0 || (maximum > 0 && score * current.1 > current.0 * maximum)
  }

  function Keep(sources: map<Text, (nat, nat)>, source: Text, score: nat, maximum: nat): map<Text, (nat, nat)> {
    if source !in sources || Replaces(sources[source], score, maximum) then sources[source := (score, maximum)]
    else sources
  }

  predicate Covers(needAtoms: nat, needSources: nat, atoms: set<Text>, sources: map<Text, (nat, nat)>) {
    needAtoms > 0 && |atoms| >= needAtoms && |sources| >= needSources
  }

  /** One turn of the loop; `rank` counts from one. */
  function Step(needAtoms: nat, needSources: nat, st: State, item: Item, rank: nat): State {
    match item
    case Irrelevant => st
    case Uncited => st.(relevant := st.relevant + 1)
    case Cited(atoms, source, score, maximum) =>
      var atoms' := st.atoms + atoms;
      var sources' := Keep(st.sources, source, score, maximum);
      State(atoms', sources', st.relevant + 1, st.cited + 1,
            if st.completion.None? && Covers(needAtoms, needSources, atoms', sources') then Some(rank)
            else st.completion)
  }

  function Fold(needAtoms: nat, needSources: nat, items: seq<Item>): State {
    if items == [] then START
    else
      var n := |items|;
      Step(needAtoms, needSources, Fold(needAtoms, needSources, items[..n - 1]), items[n - 1], n)
  }

  function SumScores(pairs: map<Text, (nat, nat)>): nat
    decreases |pairs|
  {
    if pairs == map[] then 0
    else var k := Least(pairs.Keys); pairs[k].0 + SumScores(pairs - {k})
  }

  function SumMaxima(pairs: map<Text, (nat, nat)>): nat
    decreases |pairs|
  {
    if pairs == map[] then 0
    else var k := Least(pairs.Keys); pairs[k].1 + SumMaxima(pairs - {k})
  }

  function Min(a: int, b: int): int {
    if a < b then a else b
  }

  function Prefix<T>(s: seq<T>, budget: int): seq<T>
    requires budget >= 0
  {
    s[..Min(budget, |s|)]
  }

  // ---------------------------------------------------------------- the benchmark

  /** The checks before the loop, in their order. */
  function CheckObservation(obs: Observation, budget: int): Result<()> {
    if budget <= 0 then Fail("budget")
    else if !IsName(obs.questionId) then Fail("question_identity")
    else if !IsNat(obs.requiredAtoms) then Fail("atom_count")
    else if !IsNat(obs.requiredSources) then Fail("source_count")
    else if (obs.requiredAtoms.i == 0) != (obs.requiredSources.i == 0) then Fail("answerability_shape")
    else if !obs.abstained.JBool? then Fail("abstention_shape")
    else if !IsNat(obs.wallNs) then Fail("wall_time")
    else if obs.selected.None? then Fail("selected_shape")
    else if obs.selectedCount.Some? && obs.selectedCount.value != JInt(|obs.selected.value|) then Fail("selected_count")
    else Ok(())
  }

  function MakeRow(obs: Observation, budget: int, st: State): Row
    requires CheckObservation(obs, budget).Ok?
  {
    var needAtoms, needSources := obs.requiredAtoms.i, obs.requiredSources.i;
    var selected := obs.selected.value;
    var answerable := needAtoms > 0;
    var completed := answerable && st.completion.Some?;
    var safe := !answerable && obs.abstained.b && selected == [];
    Row(obs.questionId.s, budget, answerable, |selected|, |Prefix(selected, budget)|,
        needAtoms, Min(|st.atoms|, needAtoms), needSources, Min(|st.sources|, needSources),
        st.relevant, st.cited, st.cited == st.relevant,
        SumScores(st.sources), SumMaxima(st.sources), st.completion, completed, safe, completed || safe, obs.wallNs.i)
  }

  /** `evaluate_observation`, as a fold over the items of the prefix. */
  function Evaluate(obs: Observation, budget: int): Result<Row> {
    var _ :- CheckObservation(obs, budget);
    var items :- ReadItems(Prefix(obs.selected.value, budget));
    Ok(MakeRow(obs, budget, Fold(obs.requiredAtoms.i, obs.requiredSources.i, items)))
  }

  lemma ReadItemsSplit(raw: seq<RawItem>)
    requires raw != [] && ReadItems(raw).Ok?
    ensures var n := |raw| - 1;
            && ReadItems(raw[..n]).Ok? && ReadItem(raw[n], n).Ok?
            && ReadItems(raw).value == ReadItems(raw[..n]).value + [ReadItem(raw[n], n).value]
            && ReadItems(raw).value[..n] == ReadItems(raw[..n]).value
  {
  }

  ghost predicate ItemBounded(item: Item) {
    item.Cited? ==> item.score <= item.maximum
  }

  lemma ReadItemBounded(raw: RawItem, index: nat)
    requires ReadItem(raw, index).Ok?
    ensures ItemBounded(ReadItem(raw, index).value)
  {
  }

  lemma {:induction false} FirstFailure(raw: seq<RawItem>, i: nat)
    requires i < |raw| && ReadItems(raw[..i]).Ok? && ReadItem(raw[i], i).Fail?
    ensures ReadItems(raw) == Fail(ReadItem(raw[i], i).category)
  {
    if i == |raw| - 1 {
    } else {
      assert raw[..|raw| - 1][..i] == raw[..i];
      FirstFailure(raw[..|raw| - 1], i);
    }
  }

  lemma ReadOneMore(raw: seq<RawItem>, i: nat)
    requires i < |raw| && ReadItems(raw[..i]).Ok? && ReadItem(raw[i], i).Ok?
    ensures ReadItems(raw[..i + 1]) == Ok(ReadItems(raw[..i]).value + [ReadItem(raw[i], i).value])
  {
    assert raw[..i + 1][..i] == raw[..i];
  }

  lemma FoldOneMore(needAtoms: nat, needSources: nat, items: seq<Item>, item: Item)
    ensures Fold(needAtoms, needSources, items + [item])
      == Step(needAtoms, needSources, Fold(needAtoms, needSources, items), item, |items| + 1)
  {
    assert (items + [item])[..|items|] == items;
  }

  /** The loop of `evaluate_observation`, with its own variables and early failures. */
  method EvaluateObservation(obs: Observation, budget: int) returns (r: Result<Row>)
    ensures r == Evaluate(obs, budget)
  {
    var _ :- CheckObservation(obs, budget);
    var needAtoms, needSources := obs.requiredAtoms.i, obs.requiredSources.i;
    var prefix := Prefix(obs.selected.value, budget);
    var atoms: set<Text> := {};
    var sources: map<Text, (nat, nat)> := map[];
    var relevantCount, citedCount := 0, 0;
    var completion: Option<nat> := None;
    ghost var items: seq<Item> := [];
    for i := 0 to |prefix|
      invariant relevantCount >= 0 && citedCount >= 0
      invariant ReadItems(prefix[..i]) == Ok(items)
      invariant State(atoms, sources, relevantCount, citedCount, completion) == Fold(needAtoms, needSources, items)
    {
      var raw := prefix[i];
      ghost var read := ReadItem(raw, i);
      if read.Fail? { FirstFailure(prefix, i); } else { ReadOneMore(prefix, i); }
      if !EqualsInt(raw.order, i) {
        return Fail("selected_order");
      }
      if !ItemShaped(raw) {
        return Fail("selected_item_shape");
      }
      if raw.relevant.b {
        relevantCount := relevantCount + 1;
        if raw.citationValid.b {
          citedCount := citedCount + 1;
          if !IsNat(raw.score) || !IsNat(raw.maximum) || raw.score.i > raw.maximum.i {
            return Fail("source_fitness");
          }
          atoms := atoms + Names(raw.covered);
          sources := Keep(sources, raw.sourceKey.s, raw.score.i, raw.maximum.i);
          if completion.None? && Covers(needAtoms, needSources, atoms, sources) {
            completion := Some(i + 1);
          }
        }
      } else if raw.covered.items != [] {
        return Fail("irrelevant_atom_coverage");
      }
      FoldOneMore(needAtoms, needSources, items, read.value);
      items := items + [read.value];
    }
    assert prefix[..|prefix|] == prefix;
    return Ok(MakeRow(obs, budget, State(atoms, sources, relevantCount, citedCount, completion)));
  }

  // ---------------------------------------------------------------- the independent validator

  function CheckIndependently(obs: Observation): Result<()> {
    if !IsNat(obs.requiredAtoms) then Fail("atom_count")
    else if !IsNat(obs.requiredSources) then Fail("source_count")
    else if !IsNat(obs.wallNs) then Fail("wall_time")
    else if !IsName(obs.questionId) || (obs.requiredAtoms.i == 0) != (obs.requiredSources.i == 0)
            || !obs.abstained.JBool? || obs.selected.None?
            || (obs.selectedCount.Some? && !EqualsInt(obs.selectedCount.value, |obs.selected.value|))
    then Fail("observation_shape")
    else Ok(())
  }

  /** The declared count with Booleans and integral floats read as the integers they equal. */
  function CountAsInteger(obs: Observation): Observation {
    match obs.selectedCount
    case Some(count) => obs.(selectedCount := Some(Comparable(count)))
    case None => obs
  }

  predicate SameOutcome(a: Result<Row>, b: Result<Row>) {
    if a.Ok? then b == a else b.Fail?
  }

  /** One turn of either loop: it fails as the reading does, or the reading and the fold go one item on. */
  lemma NextItem(needAtoms: nat, needSources: nat, prefix: seq<RawItem>, items: seq<Item>, i: nat)
    requires i < |prefix| && ReadItems(prefix[..i]) == Ok(items)
    ensures ReadItem(prefix[i], i).Fail? ==> ReadItems(prefix).Fail?
    ensures ReadItem(prefix[i], i).Ok? ==>
      var item := ReadItem(prefix[i], i).value;
      && ReadItems(prefix[..i + 1]) == Ok(items + [item])
      && Fold(needAtoms, needSources, items + [item])
         == Step(needAtoms, needSources, Fold(needAtoms, needSources, items), item, i + 1)
  {
    var read := ReadItem(prefix[i], i);
    if read.Fail? {
      FirstFailure(prefix, i);
    } else {
      ReadOneMore(prefix, i);
      FoldOneMore(needAtoms, needSources, items, read.value);
    }
  }

  /** The loop of `_evaluate`: the same reading and the same fold, with its own order of checks. */
  method FoldIndependently(needAtoms: nat, needSources: nat, prefix: seq<RawItem>) returns (r: Result<State>)
    ensures r.Ok? <==> ReadItems(prefix).Ok?
    ensures r.Ok? ==> r.value == Fold(needAtoms, needSources, ReadItems(prefix).value)
  {
    var atoms: set<Text> := {};
    var sources: map<Text, (nat, nat)> := map[];
    var relevantCount, citationCount := 0, 0;
    var completionRank: Option<nat> := None;
    ghost var items: seq<Item> := [];
    for i := 0 to |prefix|
      invariant relevantCount >= 0 && citationCount >= 0
      invariant ReadItems(prefix[..i]) == Ok(items)
      invariant State(atoms, sources, relevantCount, citationCount, completionRank)
             == Fold(needAtoms, needSources, items)
    {
      var raw := prefix[i];
      ghost var read := ReadItem(raw, i);
      NextItem(needAtoms, needSources, prefix, items, i);
      if !EqualsInt(raw.order, i) || !ItemShaped(raw) {
        return Fail("selected_shape");
      }
      if !raw.relevant.b {
        if raw.covered.items != [] {
          return Fail("irrelevant_coverage");
        }
        assert read == Ok(Irrelevant);
      } else {
        relevantCount := relevantCount + 1;
        if raw.citationValid.b {
          citationCount := citationCount + 1;
          atoms := atoms + Names(raw.covered);
          if !IsNat(raw.score) || !IsNat(raw.maximum) || raw.score.i > raw.maximum.i {
            return Fail("fitness");
          }
          assert read == Ok(Cited(Names(raw.covered), raw.sourceKey.s, raw.score.i, raw.maximum.i));
          sources := Keep(sources, raw.sourceKey.s, raw.score.i, raw.maximum.i);
          if Covers(needAtoms, needSources, atoms, sources) && completionRank.None? {
            completionRank := Some(i + 1);
          }
        }
      }
      items := items + [read.value];
    }
    assert prefix[..|prefix|] == prefix;
    r := Ok(State(atoms, sources, relevantCount, citationCount, completionRank));
  }

  /**
    `_evaluate` of the independent validator, for the positive budgets that a frozen protocol holds.
    It yields the row of every observation that the benchmark accepts, and accepts in addition a count
    that equals the right integer without being one, such as True or 2.0.
   */
  method EvaluateIndependently(obs: Observation, budget: int) returns (r: Result<Row>)
    requires budget > 0
    ensures SameOutcome(Evaluate(CountAsInteger(obs), budget), r)
    ensures Evaluate(obs, budget).Ok? ==> r == Evaluate(obs, budget)
    ensures r.Ok? && Evaluate(obs, budget).Fail? <==> LooseCount(obs) && Evaluate(CountAsInteger(obs), budget).Ok?
  {
    BenchmarkRowsAreReproduced(obs, budget);
    assert CheckIndependently(obs).Ok? <==> CheckObservation(CountAsInteger(obs), budget).Ok?;
    var _ :- CheckIndependently(obs);
    var needAtoms, needSources := obs.requiredAtoms.i, obs.requiredSources.i;
    var selected := obs.selected.value;
    var st :- FoldIndependently(needAtoms, needSources, Prefix(selected, budget));
    var answerable := needAtoms > 0;
    var completed := answerable && st.completion.Some?;
    var safe := !answerable && obs.abstained.b && selected == [];
    return Ok(Row(obs.questionId.s, budget, answerable, |selected|, Min(budget, |selected|),
                  needAtoms, Min(|st.atoms|, needAtoms), needSources, Min(|st.sources|, needSources),
                  st.relevant, st.cited, st.cited == st.relevant,
                  SumScores(st.sources), SumMaxima(st.sources), st.completion, completed, safe, completed || safe,
                  obs.wallNs.i));
  }

  /** A count is declared that is not an integer. */
  predicate LooseCount(obs: Observation) {
    obs.selectedCount.Some? && !obs.selectedCount.value.JInt?
  }

  /**
    Reading the count loosely accepts exactly what the benchmark accepts, with the same row, and the
    observations whose declared count equals the right integer without being one.
   */
  lemma BenchmarkRowsAreReproduced(obs: Observation, budget: int)
    ensures Evaluate(obs, budget).Ok? ==> Evaluate(CountAsInteger(obs), budget) == Evaluate(obs, budget)
    ensures Evaluate(obs, budget).Ok? <==> Evaluate(CountAsInteger(obs), budget).Ok? && !LooseCount(obs)
  {
    if LooseCount(obs) {
      assert CheckObservation(obs, budget).Fail?;
    } else {
      assert CountAsInteger(obs) == obs;
    }
  }

  // ---------------------------------------------------------------- the budget curve

  lemma {:induction false} ReadPrefix(raw: seq<RawItem>, n: nat)
    requires n <= |raw| && ReadItems(raw).Ok?
    ensures ReadItems(raw[..n]) == Ok(ReadItems(raw).value[..n])
  {
    if n == |raw| {
      assert raw[..n] == raw && ReadItems(raw).value[..n] == ReadItems(raw).value;
    } else {
      var shorter := raw[..|raw| - 1];
      ReadPrefix(shorter, n);
      assert shorter[..n] == raw[..n];
      assert ReadItems(raw).value[..n] == ReadItems(shorter).value[..n];
    }
  }

  lemma StepOnlyGrows(needAtoms: nat, needSources: nat, st: State, item: Item, rank: nat)
    ensures var st' := Step(needAtoms, needSources, st, item, rank);
            && st.atoms <= st'.atoms && st.sources.Keys <= st'.sources.Keys
            && (st.completion.Some? ==> st'.completion == st.completion)
  {
  }

  lemma {:induction false} FoldOnlyGrows(needAtoms: nat, needSources: nat, items: seq<Item>, n: nat)
    requires n <= |items|
    ensures var early, late := Fold(needAtoms, needSources, items[..n]), Fold(needAtoms, needSources, items);
            && early.atoms <= late.atoms && early.sources.Keys <= late.sources.Keys
            && (early.completion.Some? ==> late.completion == early.completion)
  {
    if n == |items| {
      assert items[..n] == items;
    } else {
      var shorter := items[..|items| - 1];
      FoldOnlyGrows(needAtoms, needSources, shorter, n);
      assert shorter[..n] == items[..n];
      StepOnlyGrows(needAtoms, needSources, Fold(needAtoms, needSources, shorter), items[|items| - 1], |items|);
    }
  }

  lemma {:induction false} SubsetSize<A>(a: set<A>, b: set<A>)
    requires a <= b
    ensures |a| <= |b|
  {
    if a != {} {
      var x :| x in a;
      SubsetSize(a - {x}, b - {x});
    }
  }

  /** The prefix of the given length has every required atom and enough sources. */
  predicate PrefixCovers(needAtoms: nat, needSources: nat, items: seq<Item>, n: nat)
    requires n <= |items|
  {
    var st := Fold(needAtoms, needSources, items[..n]);
    Covers(needAtoms, needSources, st.atoms, st.sources)
  }

  lemma CoverageOnlyGrows(needAtoms: nat, needSources: nat, items: seq<Item>, m: nat, n: nat)
    requires m <= n <= |items| && PrefixCovers(needAtoms, needSources, items, m)
    ensures PrefixCovers(needAtoms, needSources, items, n)
  {
    assert items[..n][..m] == items[..m];
    FoldOnlyGrows(needAtoms, needSources, items[..n], m);
    var early, late := Fold(needAtoms, needSources, items[..m]), Fold(needAtoms, needSources, items[..n]);
    SubsetSize(early.atoms, late.atoms);
    SubsetSize(early.sources.Keys, late.sources.Keys);
  }

  /** The latch holds the least covering prefix length, and is unset when no prefix covers. */
  lemma {:induction false} CompletionIsLeastCover(needAtoms: nat, needSources: nat, items: seq<Item>)
    ensures var completion := Fold(needAtoms, needSources, items).completion;
            && (completion.Some? <==> PrefixCovers(needAtoms, needSources, items, |items|))
            && (completion.Some? ==>
                  && completion.value <= |items|
                  && PrefixCovers(needAtoms, needSources, items, completion.value)
                  && forall m :: 0 <= m < completion.value ==> !PrefixCovers(needAtoms, needSources, items, m))
  {
    assert items[..|items|] == items;
    if items != [] {
      var n := |items| - 1;
      var shorter := items[..n];
      CompletionIsLeastCover(needAtoms, needSources, shorter);
      assert forall m :: 0 <= m <= n ==> shorter[..m] == items[..m];
      assert forall m :: 0 <= m <= n ==>
        PrefixCovers(needAtoms, needSources, items, m) == PrefixCovers(needAtoms, needSources, shorter, m);
      if PrefixCovers(needAtoms, needSources, items, n) {
        CoverageOnlyGrows(needAtoms, needSources, items, n, n + 1);
      } else {
        forall m | 0 <= m <= n ensures !PrefixCovers(needAtoms, needSources, items, m) {
          if PrefixCovers(needAtoms, needSources, items, m) {
            CoverageOnlyGrows(needAtoms, needSources, items, m, n);
          }
        }
      }
    }
  }

  /**
    The budget curve. What is accepted under a budget is accepted under every smaller positive one;
    a larger budget never lowers the trusted counts or the completion; and the completion rank, once
    reached, is the same at every larger budget.
   */
  lemma BudgetCurve(obs: Observation, small: int, large: int)
    requires 0 < small <= large && Evaluate(obs, large).Ok?
    ensures Evaluate(obs, small).Ok?
    ensures var a, b := Evaluate(obs, small).value, Evaluate(obs, large).value;
            && a.trustedAtoms <= b.trustedAtoms && a.trustedSources <= b.trustedSources
            && (a.taskCompletion ==> b.taskCompletion)
            && (a.itemsToCompletion.Some? ==> b.itemsToCompletion == a.itemsToCompletion)
  {
    var selected := obs.selected.value;
    var raw := Prefix(selected, large);
    var n := Min(small, |selected|);
    assert Prefix(selected, small) == raw[..n];
    ReadPrefix(raw, n);
    var items := ReadItems(raw).value;
    var needAtoms, needSources := obs.requiredAtoms.i, obs.requiredSources.i;
    FoldOnlyGrows(needAtoms, needSources, items, n);
    var early, late := Fold(needAtoms, needSources, items[..n]), Fold(needAtoms, needSources, items);
    SubsetSize(early.atoms, late.atoms);
    SubsetSize(early.sources.Keys, late.sources.Keys);
  }

  /** An answerable question is complete exactly when both trusted counts reach what it requires. */
  lemma CompletionMeansTrusted(obs: Observation, budget: int)
    requires Evaluate(obs, budget).Ok?
    ensures var row := Evaluate(obs, budget).value;
            && (row.answerableCompletion <==>
                  row.answerable && row.trustedAtoms == row.requiredAtoms && row.trustedSources == row.requiredSources)
            && (row.itemsToCompletion.Some? ==>
              row.answerable && 1 <= row.itemsToCompletion.value <= row.inspectedCount)
  {
    var items := ReadItems(Prefix(obs.selected.value, budget)).value;
    var needAtoms, needSources := obs.requiredAtoms.i, obs.requiredSources.i;
    CompletionIsLeastCover(needAtoms, needSources, items);
    assert items[..|items|] == items;
    if Fold(needAtoms, needSources, items).completion == Some(0) {
      assert items[..0] == [];
    }
  }
}
