/** When the summed source-fitness score of a review falls as the budget grows. */
module ReviewScore {
  import opened Wrappers
  import opened Unicode
  import opened CanonicalJson
  import opened ReviewBudget
  import opened ReviewFitness

  type Kept = map<Text, (nat, nat)>

  // ---------------------------------------------------------------- one step

  lemma {:induction false} SumSplit(m: Kept, k: Text)
    requires k in m
    ensures SumScores(m) == m[k].0 + SumScores(m - {k})
    decreases |m|
  {
    var least := Least(m.Keys);
    if least != k {
      var rest := m - {least};
      SumSplit(rest, k);
      SumSplit(m - {k}, least);
      assert rest - {k} == (m - {k}) - {least};
    }
  }

  lemma SumWith(m: Kept, k: Text, pair: (nat, nat))
    ensures SumScores(m[k := pair]) == pair.0 + SumScores(m - {k})
  {
    SumSplit(m[k := pair], k);
    assert m[k := pair] - {k} == m - {k};
  }

  /** One more pair lowers the sum exactly when it replaces a pair of larger score. */
  lemma KeepDrops(m: Kept, source: Text, score: nat, maximum: nat)
    ensures SumScores(Keep(m, source, score, maximum)) < SumScores(m)
       <==> source in m && Replaces(m[source], score, maximum) && score < m[source].0
  {
    SumWith(m, source, (score, maximum));
    if source in m { SumSplit(m, source); } else { assert m - {source} == m; }
  }

  // ---------------------------------------------------------------- along the budget curve

  /** The item cites a source whose kept pair it beats on ratio with a smaller score. */
  predicate Undercuts(item: Item, kept: Kept) {
    && item.Cited? && item.source in kept
    && Replaces(kept[item.source], item.score, item.maximum) && item.score < kept[item.source].0
  }

  lemma StepDrops(needAtoms: nat, needSources: nat, st: State, item: Item, rank: nat)
    ensures SumScores(Step(needAtoms, needSources, st, item, rank).sources) < SumScores(st.sources)
       <==> Undercuts(item, st.sources)
  {
    if item.Cited? { KeepDrops(st.sources, item.source, item.score, item.maximum); }
  }

  lemma ScoreIsSum(obs: Observation, budget: int)
    requires Evaluate(obs, budget).Ok?
    ensures Evaluate(obs, budget).value.fitnessScore == SumScores(SourcesAt(obs, budget))
  {
  }

  /** The next item, for a budget that still leaves one. */
  lemma OneMoreItem(obs: Observation, budget: int)
    requires obs.selected.Some? && 0 < budget < |obs.selected.value| && Evaluate(obs, budget + 1).Ok?
    ensures Evaluate(obs, budget).Ok? && ReadItem(obs.selected.value[budget], budget).Ok?
    ensures var needAtoms, needSources := obs.requiredAtoms.i, obs.requiredSources.i;
            var items := ReadItems(Prefix(obs.selected.value, budget)).value;
            var item := ReadItem(obs.selected.value[budget], budget).value;
            && SourcesAt(obs, budget) == Fold(needAtoms, needSources, items).sources
            && SourcesAt(obs, budget + 1)
               == Step(needAtoms, needSources, Fold(needAtoms, needSources, items), item, budget + 1).sources
  {
    var raw := Prefix(obs.selected.value, budget + 1);
    assert raw[..budget] == Prefix(obs.selected.value, budget);
    var items := ReadItems(raw).value;
    assert items[..budget] == ReadItems(raw[..budget]).value;
  }

  /**
    The summed score at one more item falls exactly when that item exists, is cited, and beats the pair
    kept for its source on ratio with a smaller score.
   */
  lemma ScoreDropsExactly(obs: Observation, budget: int)
    requires 0 < budget && Evaluate(obs, budget + 1).Ok?
    ensures Evaluate(obs, budget).Ok?
    ensures Evaluate(obs, budget + 1).value.fitnessScore < Evaluate(obs, budget).value.fitnessScore
       <==> && budget < |obs.selected.value|
            && ReadItem(obs.selected.value[budget], budget).Ok?
            && Undercuts(ReadItem(obs.selected.value[budget], budget).value, SourcesAt(obs, budget))
  {
    BudgetCurve(obs, budget, budget + 1);
    ScoreIsSum(obs, budget);
    ScoreIsSum(obs, budget + 1);
    var selected := obs.selected.value;
    if budget < |selected| {
      OneMoreItem(obs, budget);
      var items := ReadItems(Prefix(selected, budget)).value;
      StepDrops(obs.requiredAtoms.i, obs.requiredSources.i,
                Fold(obs.requiredAtoms.i, obs.requiredSources.i, items), ReadItem(selected[budget], budget).value,
                budget + 1);
    } else {
      assert Prefix(selected, budget + 1) == Prefix(selected, budget);
    }
  }

  // ---------------------------------------------------------------- one common maximum

  /** Every citable item of the observation has no maximum or the common one. */
  predicate CommonMaximum(selected: seq<RawItem>, maximum: nat) {
    forall i :: 0 <= i < |selected| ==> selected[i].maximum == JInt(0) || selected[i].maximum == JInt(maximum)
  }

  ghost predicate KeptUnder(kept: Kept, maximum: nat) {
    forall k :: k in kept ==> kept[k].1 == maximum || kept[k] == (0, 0)
  }

  predicate MaximumIs(item: Item, maximum: nat) {
    item.Cited? ==> item.maximum == maximum || (item.maximum == 0 && item.score == 0)
  }

  lemma ReadMaximum(raw: RawItem, index: nat, maximum: nat)
    requires ReadItem(raw, index).Ok? && (raw.maximum == JInt(0) || raw.maximum == JInt(maximum))
    ensures MaximumIs(ReadItem(raw, index).value, maximum)
  {
  }

  lemma StepKeepsMaxima(needAtoms: nat, needSources: nat, st: State, item: Item, rank: nat, maximum: nat)
    requires KeptUnder(st.sources, maximum) && MaximumIs(item, maximum)
    ensures KeptUnder(Step(needAtoms, needSources, st, item, rank).sources, maximum)
  {
  }

  lemma {:induction false} KeptMaxima(needAtoms: nat, needSources: nat, raw: seq<RawItem>, maximum: nat)
    requires ReadItems(raw).Ok? && CommonMaximum(raw, maximum)
    ensures KeptUnder(Fold(needAtoms, needSources, ReadItems(raw).value).sources, maximum)
  {
    if raw != [] {
      var n := |raw| - 1;
      KeptMaxima(needAtoms, needSources, raw[..n], maximum);
      ReadItemsSplit(raw);
      ReadMaximum(raw[n], n, maximum);
      StepKeepsMaxima(needAtoms, needSources, Fold(needAtoms, needSources, ReadItems(raw[..n]).value),
                      ReadItem(raw[n], n).value, n + 1, maximum);
    }
  }

  lemma ScaledLess(score: nat, other: nat, maximum: nat)
    requires score * maximum > other * maximum
    ensures score > other
  {
    CancelFactor(other, score, maximum);
  }

  /** With one common maximum, as `selected_observation` gives, no item undercuts. */
  lemma NoneUndercuts(kept: Kept, item: Item, maximum: nat)
    requires KeptUnder(kept, maximum) && MaximumIs(item, maximum) && maximum > 0
    ensures !Undercuts(item, kept)
  {
    if item.Cited? && item.source in kept && Replaces(kept[item.source], item.score, item.maximum) {
      var current := kept[item.source];
      if current.1 > 0 {
        assert item.maximum == maximum && current.1 == maximum;
        ScaledLess(item.score, current.0, maximum);
      }
    }
  }

  /** One more is no less, wherever it is there. */
  ghost predicate Climbs(f: int -> Result<Row>, b: int) {
    f(b + 1).Ok? ==> f(b).Ok? && f(b).value.fitnessScore <= f(b + 1).value.fitnessScore
  }

  lemma {:induction false} StepByStep(f: int -> Result<Row>, small: int, large: int)
    requires small <= large && f(large).Ok? && forall b :: small <= b < large ==> Climbs(f, b)
    ensures f(small).Ok? && f(small).value.fitnessScore <= f(large).value.fitnessScore
    decreases large - small
  {
    if small < large {
      assert Climbs(f, large - 1);
      StepByStep(f, small, large - 1);
    }
  }

  /** With one common maximum the summed score never falls with the budget. */
  lemma CommonMaximumNeverDrops(obs: Observation, small: int, large: int, maximum: nat)
    requires 0 < small <= large && maximum > 0 && Evaluate(obs, large).Ok?
    requires CommonMaximum(obs.selected.value, maximum)
    ensures Evaluate(obs, small).Ok?
    ensures Evaluate(obs, small).value.fitnessScore <= Evaluate(obs, large).value.fitnessScore
  {
    var f := (b: int) => Evaluate(obs, b);
    forall b | small <= b < large ensures Climbs(f, b) {
      if f(b + 1).Ok? { OneStepNeverDrops(obs, b, maximum); }
    }
    StepByStep(f, small, large);
  }

  lemma OneStepNeverDrops(obs: Observation, budget: int, maximum: nat)
    requires 0 < budget && maximum > 0 && Evaluate(obs, budget + 1).Ok?
    requires CommonMaximum(obs.selected.value, maximum)
    ensures Evaluate(obs, budget).Ok?
    ensures Evaluate(obs, budget).value.fitnessScore <= Evaluate(obs, budget + 1).value.fitnessScore
  {
    ScoreDropsExactly(obs, budget);
    NoDropUnderCommonMaximum(obs, budget, maximum);
  }

  lemma NoDropUnderCommonMaximum(obs: Observation, budget: int, maximum: nat)
    requires 0 < budget && maximum > 0 && Evaluate(obs, budget).Ok? && CommonMaximum(obs.selected.value, maximum)
    ensures budget < |obs.selected.value| && ReadItem(obs.selected.value[budget], budget).Ok? ==>
      !Undercuts(ReadItem(obs.selected.value[budget], budget).value, SourcesAt(obs, budget))
  {
    var selected := obs.selected.value;
    if budget < |selected| && ReadItem(selected[budget], budget).Ok? {
      var raw := Prefix(selected, budget);
      assert CommonMaximum(raw, maximum);
      KeptMaxima(obs.requiredAtoms.i, obs.requiredSources.i, raw, maximum);
      ReadMaximum(selected[budget], budget, maximum);
      NoneUndercuts(SourcesAt(obs, budget), ReadItem(selected[budget], budget).value, maximum);
    }
  }

  // ---------------------------------------------------------------- an observation whose score falls

  function ExampleItem(order: int, score: int, maximum: int): RawItem {
    RawItem(JInt(order), JBool(true), JBool(true), JArr([JStr(T("A01"))]), JStr(T("s")), JInt(score), JInt(maximum))
  }

  const EXAMPLE: Observation :=
    Observation(JStr(T("Q")), JInt(1), JInt(1), JBool(false), JInt(0),
                Some([ExampleItem(0, 5, 10), ExampleItem(1, 1, 1)]), None)

  const COVERED: set<Text> := Names(JArr([JStr(T("A01"))]))

  lemma ExampleItems()
    ensures ReadItem(ExampleItem(0, 5, 10), 0) == Ok(Cited(COVERED, T("s"), 5, 10))
    ensures ReadItem(ExampleItem(1, 1, 1), 1) == Ok(Cited(COVERED, T("s"), 1, 1))
  {
  }

  lemma ReadTwo(a: RawItem, b: RawItem, x: Item, y: Item)
    requires ReadItem(a, 0) == Ok(x) && ReadItem(b, 1) == Ok(y)
    ensures ReadItems([a]) == Ok([x]) && ReadItems([a, b]) == Ok([x, y])
  {
    assert [a][..0] == [] && [a, b][..1] == [a];
    assert [] + [x] == [x] && [x] + [y] == [x, y];
  }

  lemma FoldTwo(needAtoms: nat, needSources: nat, x: Item, y: Item)
    ensures var one := Step(needAtoms, needSources, START, x, 1);
            && Fold(needAtoms, needSources, [x]) == one
            && Fold(needAtoms, needSources, [x, y]) == Step(needAtoms, needSources, one, y, 2)
  {
    FoldLast(needAtoms, needSources, [], x);
    FoldLast(needAtoms, needSources, [x], y);
    assert [] + [x] == [x] && [x] + [y] == [x, y];
  }

  lemma FoldLast(needAtoms: nat, needSources: nat, items: seq<Item>, last: Item)
    ensures Fold(needAtoms, needSources, items + [last])
      == Step(needAtoms, needSources, Fold(needAtoms, needSources, items), last, |items| + 1)
  {
    assert (items + [last])[..|items|] == items;
  }

  /** A second item of better ratio but smaller score lowers the summed score: 5 at budget 1, 1 at budget 2. */
  lemma SummedScoreCanDrop()
    ensures Evaluate(EXAMPLE, 1).Ok? && Evaluate(EXAMPLE, 1).value.fitnessScore == 5
    ensures Evaluate(EXAMPLE, 2).Ok? && Evaluate(EXAMPLE, 2).value.fitnessScore == 1
  {
    var a, b := ExampleItem(0, 5, 10), ExampleItem(1, 1, 1);
    var x, y := Cited(COVERED, T("s"), 5, 10), Cited(COVERED, T("s"), 1, 1);
    assert Prefix([a, b], 1) == [a] && Prefix([a, b], 2) == [a, b];
    ExampleItems();
    ReadTwo(a, b, x, y);
    FoldTwo(1, 1, x, y);
    assert Fold(1, 1, [x]).sources == map[T("s") := (5, 10)];
    assert Fold(1, 1, [x, y]).sources == map[T("s") := (1, 1)];
    SumOfOne(T("s"), (5, 10));
    SumOfOne(T("s"), (1, 1));
  }

  lemma SumOfOne(source: Text, pair: (nat, nat))
    ensures SumScores(map[source := pair]) == pair.0
  {
    var m := map[source := pair];
    assert Least(m.Keys) == source;
    assert m - {source} == map[];
  }
}
