/** Aggregation, summary and decision of the downstream-utility benchmark, on both paths. */
module ReviewSummary {
  import opened Wrappers
  import opened Unicode
  import opened CanonicalJson
  import opened ReviewBudget
  import opened ReviewPipeline
  import opened ReviewRepeats
  import opened Statistics

  /** `_fraction`: an empty denominator counts as complete. */
  datatype Fraction = Fraction(numerator: int, denominator: int)

  function MakeFraction(numerator: nat, denominator: nat): Fraction {
    if denominator == 0 then Fraction(1, 1) else Fraction(numerator, denominator)
  }

  datatype Aggregated = Aggregated(questions: nat, answerable: nat, unsupported: nat,
                                   metric: map<Metric, Fraction>, inspected: nat,
                                   efforts: nat, p50: Option<int>, p95: Option<int>)

  function Total(rows: seq<Row>, value: Row -> nat): nat {
    if rows == [] then 0 else value(rows[0]) + Total(rows[1..], value)
  }

  function Count(rows: seq<Row>, holds: Row -> bool): nat {
    Total(rows, (row: Row) => if holds(row) then 1 else 0)
  }

  function Where(rows: seq<Row>, holds: Row -> bool): (r: seq<Row>)
    ensures |r| <= |rows|
    ensures forall x :: x in r ==> x in rows && holds(x)
  {
    if rows == [] then [] else (if holds(rows[0]) then [rows[0]] else []) + Where(rows[1..], holds)
  }

  function Efforts(rows: seq<Row>): seq<int> {
    if rows == [] then []
    else
      (if rows[0].answerable && rows[0].answerableCompletion && rows[0].itemsToCompletion.Some?
       then [rows[0].itemsToCompletion.value] else []) + Efforts(rows[1..])
  }

  function Percentile(values: seq<int>, percent: nat): Option<int>
    requires percent <= 100
  {
    if values == [] then None else Some(NearestRank(values, percent, 100))
  }

  function MetricOf(rows: seq<Row>, metric: Metric): Fraction {
    var answerable := Where(rows, (r: Row) => r.answerable);
    var unsupported := Where(rows, (r: Row) => !r.answerable);
    match metric
    case TaskCompletion => MakeFraction(Count(rows, (r: Row) => r.taskCompletion), |rows|)
    case AnswerableCompletion =>
      MakeFraction(Count(answerable, (r: Row) => r.answerableCompletion), |answerable|)
    case SafeAbstention => MakeFraction(Count(unsupported, (r: Row) => r.safeUnsupported), |unsupported|)
    case AtomCoverage =>
      MakeFraction(Total(answerable, (r: Row) => r.trustedAtoms), Total(answerable, (r: Row) => r.requiredAtoms))
    case SourceCoverage =>
      MakeFraction(Total(answerable, (r: Row) => r.trustedSources), Total(answerable, (r: Row) => r.requiredSources))
    case CitationIntegrity =>
      MakeFraction(Total(rows, (r: Row) => r.citationValidRelevant), Total(rows, (r: Row) => r.relevantInspected))
    case SourceFitness =>
      MakeFraction(Total(rows, (r: Row) => r.fitnessScore), Total(rows, (r: Row) => r.fitnessMax))
  }

  const METRICS: set<Metric> := {TaskCompletion, AnswerableCompletion, AtomCoverage, SourceCoverage,
                                 CitationIntegrity, SourceFitness, SafeAbstention}

  /** `aggregate`; an empty population raises. */
  function Aggregate(rows: seq<Row>): Result<Aggregated> {
    if rows == [] then Fail("aggregate_empty")
    else
      var efforts := Efforts(rows);
      Ok(Aggregated(|rows|, |Where(rows, (r: Row) => r.answerable)|, |Where(rows, (r: Row) => !r.answerable)|,
                    map m | m in METRICS :: MetricOf(rows, m),
                    Total(rows, (r: Row) => r.inspectedCount),
                    |efforts|, Percentile(efforts, 50), Percentile(efforts, 95)))
  }

  function AtLeast(left: Fraction, right: Fraction): bool {
    left.numerator * right.denominator >= right.numerator * left.denominator
  }

  function WarmTimes(sources: seq<SourceRow>, treatment: Text, minimum: nat): seq<int> {
    if sources == [] then []
    else
      var row := sources[0];
      (if row.suite == T("f025_development") && row.treatment == treatment && row.ordinal >= minimum
          && IsNat(row.observation.wallNs) then [row.observation.wallNs.i] else [])
      + WarmTimes(sources[1..], treatment, minimum)
  }

  function Sum(values: seq<int>): int {
    if values == [] then 0 else values[0] + Sum(values[1..])
  }

  datatype Timing = Timing(count: nat, p50: Option<int>, p95: Option<int>, total: int)

  function MakeTiming(sources: seq<SourceRow>, treatment: Text, minimum: nat): Timing {
    var values := WarmTimes(sources, treatment, minimum);
    Timing(|values|, Percentile(values, 50), Percentile(values, 95), Sum(values))
  }

  datatype DevCheck = NonRegression(metric: Metric) | ProfilesDeterministic | WarmP50 | WarmP95
  datatype HoldoutCheck = CandidateDeterministic | BudgetNonRegression(budget: int, metric: Metric)

  datatype Summary = Summary(
    rowCount: nat,
    byRun: map<(GroupKey, int), Aggregated>,
    deterministic: map<Text, bool>,
    timing: map<Text, Timing>,
    devChecks: map<DevCheck, bool>,
    candidateDeterministic: bool,
    holdoutChecks: map<HoldoutCheck, bool>)

  datatype Decision = Decision(valid: bool, accepted: bool, positive: bool, failures: set<string>,
                               validity: map<string, bool>, devChecks: map<DevCheck, bool>,
                               holdoutChecks: map<HoldoutCheck, bool>)

  type Identity = seq<ReviewRow> -> Text

  /** How a path gathers the rows of one development run before hashing them. */
  type Gather = (seq<ReviewRow>, GroupKey) -> seq<ReviewRow>

  function Unwrap(rows: seq<ReviewRow>): seq<Row> {
    seq(|rows|, i requires 0 <= i < |rows| => rows[i].row)
  }

  function DevKey(p: Protocol, profile: Text, run: nat): GroupKey {
    (p.devSuite, profile, Index(run))
  }

  function CandidateKey(p: Protocol, run: nat): GroupKey {
    (p.holdoutSuite, p.candidate, Index(run))
  }

  /** Every aggregate that the summary reports, or the failure of an empty one. */
  function ByRun(rows: seq<ReviewRow>, p: Protocol): Result<map<(GroupKey, int), Aggregated>> {
    var keys := DevKeys(p) + HoldoutKeys(p);
    if exists k, b :: k in keys && b in p.budgets && BudgetRows(rows, k, b) == [] then Fail("aggregate_empty")
    else Ok(map k, b | k in keys && b in p.budgets :: (k, b) := Aggregate(Unwrap(BudgetRows(rows, k, b))).value)
  }

  /** All runs of a profile have one and the same identity. */
  predicate Deterministic(rows: seq<ReviewRow>, keys: set<GroupKey>, gather: Gather, identity: Identity) {
    |set k | k in keys :: identity(Projection(gather(rows, k)))| == 1
  }

  function ProfileKeys(p: Protocol, profile: Text): set<GroupKey> {
    set run | run in p.devRuns :: DevKey(p, profile, run)
  }

  function CandidateKeys(p: Protocol): set<GroupKey> {
    set run | run in p.candidateRuns :: CandidateKey(p, run)
  }

  type Aggregates = map<(GroupKey, int), Aggregated>

  /** One exact comparison; a group or metric that is not reported compares as failed. */
  predicate NotWorse(byRun: Aggregates, left: (GroupKey, int), right: (GroupKey, int), metric: Metric) {
    && left in byRun && right in byRun && metric in byRun[left].metric && metric in byRun[right].metric
    && AtLeast(byRun[left].metric[metric], byRun[right].metric[metric])
  }

  function Baseline029(p: Protocol): GroupKey {
    (p.holdoutSuite, T("f029_semantic_direct"), Named(T("f034_reference")))
  }

  function Baseline027(p: Protocol): GroupKey {
    (p.holdoutSuite, T("f027_lexical_direct"), Named(T("f034_reference")))
  }

  /** Every group that the summary looks up by name was reported; otherwise a KeyError ends the path. */
  predicate NamedGroupsReported(byRun: Aggregates, p: Protocol) {
    && (DevKey(p, T("f029_baseline"), 0), p.primaryBudget) in byRun
    && (DevKey(p, T("f035_candidate"), 0), p.primaryBudget) in byRun
    && (Baseline027(p), p.primaryBudget) in byRun
    && forall b :: b in p.budgets ==> (Baseline029(p), b) in byRun && (CandidateKey(p, 0), b) in byRun
  }

  function DevChecks(byRun: Aggregates, p: Protocol, allDeterministic: bool, before: Timing, after: Timing)
    : map<DevCheck, bool>
    requires before.p50.Some? && before.p95.Some? && after.p50.Some? && after.p95.Some?
  {
    var candidate := (DevKey(p, T("f035_candidate"), 0), p.primaryBudget);
    var baseline := (DevKey(p, T("f029_baseline"), 0), p.primaryBudget);
    var gates := map m | m in p.metrics :: NonRegression(m) := NotWorse(byRun, candidate, baseline, m);
    gates[ProfilesDeterministic := allDeterministic]
         [WarmP50 := after.p50.value * p.warmFraction.1 <= before.p50.value * p.warmFraction.0]
         [WarmP95 := after.p95.value <= before.p95.value]
  }

  function HoldoutChecks(byRun: Aggregates, p: Protocol, deterministic: bool): map<HoldoutCheck, bool> {
    var curve := map m, b | m in p.metrics && b in p.budgets ::
      BudgetNonRegression(b, m) := NotWorse(byRun, (CandidateKey(p, 0), b), (Baseline029(p), b), m);
    curve[CandidateDeterministic := deterministic]
  }

  /** `summarize`, with the gathering of development runs left open. */
  function SummarizeWith(rows: seq<ReviewRow>, sources: seq<SourceRow>, p: Protocol, gather: Gather,
                         identity: Identity): Result<Summary>
  {
    var byRun :- ByRun(rows, p);
    if !NamedGroupsReported(byRun, p) then Fail("internal")
    else
      var before := MakeTiming(sources, T("f029_baseline"), p.warmMinOrdinal);
      var after := MakeTiming(sources, T("f035_candidate"), p.warmMinOrdinal);
      if before.p50.None? || before.p95.None? || after.p50.None? || after.p95.None? then Fail("internal")
      else
        var deterministic := map profile | profile in p.devProfiles ::
          Deterministic(rows, ProfileKeys(p, profile), gather, identity);
        var timing := map profile | profile in p.devProfiles :: MakeTiming(sources, profile, p.warmMinOrdinal);
        var candidateDeterministic :=
          Deterministic(rows, CandidateKeys(p), (all, key) => RunRows(all, key), identity);
        var allDeterministic := forall profile :: profile in p.devProfiles ==> deterministic[profile];
        Ok(Summary(|rows|, byRun, deterministic, timing, DevChecks(byRun, p, allDeterministic, before, after),
                   candidateDeterministic, HoldoutChecks(byRun, p, candidateDeterministic)))
  }

  /** `summarize` of the benchmark: development rows are gathered budget by budget. */
  function Summarize(rows: seq<ReviewRow>, sources: seq<SourceRow>, p: Protocol, identity: Identity): Result<Summary> {
    SummarizeWith(rows, sources, p, ByBudget(p.budgets), identity)
  }

  /** `_summary` of the validator: they are selected in one pass. */
  function SummarizeIndependently(rows: seq<ReviewRow>, sources: seq<SourceRow>, p: Protocol, identity: Identity)
    : Result<Summary>
  {
    SummarizeWith(rows, sources, p, InOnePass(), identity)
  }

  function Decide(summary: Summary, failures: set<string>): Decision {
    var validity := map["no_failures" := failures == {},
                        "development_deterministic" := forall k :: k in summary.deterministic ==>
                            summary.deterministic[k],
                        "holdout_candidate_deterministic" := summary.candidateDeterministic];
    Decision(forall k :: k in validity ==> validity[k],
             forall k :: k in summary.devChecks ==> summary.devChecks[k],
             forall k :: k in summary.holdoutChecks ==> summary.holdoutChecks[k],
             failures, validity, summary.devChecks, summary.holdoutChecks)
  }

  // ---------------------------------------------------------------- the two paths

  datatype Outcome = Outcome(rows: seq<ReviewRow>, summary: Summary, decision: Decision)

  /** Load, review, summarize and decide, as the benchmark does without failures of its own. */
  ghost function BenchmarkPath(inputs: Inputs, p: Protocol, str: Json -> Text, identity: Identity): Result<Outcome> {
    var sources :- LoadBenchmark(inputs, p, str);
    var rows :- ReviewRows(sources, p, Evaluate);
    var summary :- Summarize(rows, sources, p, identity);
    Ok(Outcome(rows, summary, Decide(summary, {})))
  }

  ghost function IndependentPath(inputs: Inputs, p: Protocol, str: Json -> Text, identity: Identity): Result<Outcome> {
    var sources :- LoadIndependently(inputs, p, str);
    var rows :- ReviewRows(sources, p, IndependentRow);
    var summary :- SummarizeIndependently(rows, sources, p, identity);
    Ok(Outcome(rows, summary, Decide(summary, {})))
  }

  lemma SameProjections(rows: seq<ReviewRow>, keys: set<GroupKey>, g: Gather, h: Gather, identity: Identity)
    requires forall k :: k in keys ==> Projection(g(rows, k)) == Projection(h(rows, k))
    ensures Deterministic(rows, keys, g, identity) == Deterministic(rows, keys, h, identity)
  {
    assert (set k | k in keys :: identity(Projection(g(rows, k))))
      == (set k | k in keys :: identity(Projection(h(rows, k))));
  }

  function ByBudget(budgets: seq<int>): Gather {
    (all, key) => RunRowsByBudget(all, key, budgets)
  }

  function InOnePass(): Gather {
    (all, key) => RunRows(all, key)
  }

  predicate ToldApart(a: seq<ReviewRow>, b: seq<ReviewRow>, identity: Identity) {
    identity(a) == identity(b) ==> a == b
  }

  /** Among the given runs, different projections have different identities. */
  ghost predicate Distinguishes(rows: seq<ReviewRow>, keys: set<GroupKey>, gather: Gather, identity: Identity) {
    forall k, l :: k in keys && l in keys ==>
      ToldApart(Projection(gather(rows, k)), Projection(gather(rows, l)), identity)
  }

  /** All runs have the same projection, and there is one. */
  ghost predicate AllAlike(rows: seq<ReviewRow>, keys: set<GroupKey>, gather: Gather) {
    keys != {} && forall k, l :: k in keys && l in keys ==>
      Projection(gather(rows, k)) == Projection(gather(rows, l))
  }

  lemma OneElement<T>(s: set<T>)
    ensures |s| == 1 <==> s != {} && forall x, y :: x in s && y in s ==> x == y
  {
    if s != {} {
      var x :| x in s;
      assert s == {x} + (s - {x});
      if |s| == 1 { assert s - {x} == {}; }
      if forall y, z :: y in s && z in s ==> y == z { assert s == {x}; }
    }
  }

  lemma DeterministicIffAlike(rows: seq<ReviewRow>, keys: set<GroupKey>, gather: Gather, identity: Identity)
    requires Distinguishes(rows, keys, gather, identity)
    ensures Deterministic(rows, keys, gather, identity) <==> AllAlike(rows, keys, gather)
  {
    var ids := set k | k in keys :: identity(Projection(gather(rows, k)));
    OneElement(ids);
    if keys != {} {
      var k :| k in keys;
      assert identity(Projection(gather(rows, k))) in ids;
    }
    if forall x, y :: x in ids && y in ids ==> x == y {
      forall k, l | k in keys && l in keys ensures Projection(gather(rows, k)) == Projection(gather(rows, l)) {
        assert identity(Projection(gather(rows, k))) in ids && identity(Projection(gather(rows, l))) in ids;
      }
    }
  }

  /** Whether a profile's runs coincide does not depend on how they are gathered. */
  lemma AlikeEitherWay(rows: seq<ReviewRow>, keys: set<GroupKey>, budgets: seq<int>)
    requires RowsDistinct(rows) && BudgetsKnown(rows, budgets)
    ensures AllAlike(rows, keys, ByBudget(budgets)) <==> AllAlike(rows, keys, InOnePass())
  {
    forall k, l | k in keys && l in keys
      ensures Projection(ByBudget(budgets)(rows, k)) == Projection(ByBudget(budgets)(rows, l))
         <==> Projection(InOnePass()(rows, k)) == Projection(InOnePass()(rows, l))
    {
      GatheringsDecideAlike(rows, k, l, budgets);
    }
  }

  /** No budget repeats, or the identity does not collide on the runs compared. */
  ghost predicate Separates(rows: seq<ReviewRow>, keys: set<GroupKey>, budgets: seq<int>, identity: Identity) {
    DistinctBudgets(budgets)
    || (Distinguishes(rows, keys, ByBudget(budgets), identity) && Distinguishes(rows, keys, InOnePass(), identity))
  }

  lemma DistinctMeansOnceEach(rows: seq<ReviewRow>, key: GroupKey, budgets: seq<int>)
    requires DistinctBudgets(budgets) && BudgetsKnown(rows, budgets)
    ensures OnceEach(rows, key, budgets)
  {
    forall x | x in RunRows(rows, key) ensures multiset(budgets)[x.row.budget] == 1 {
      SelectCounts(rows, (row: ReviewRow) => InGroup(row, key), x);
      assert x in multiset(RunRows(rows, key));
      assert x in multiset(rows);
      OccursOnce(budgets, x.row.budget);
    }
  }

  lemma DeterminismAgrees(rows: seq<ReviewRow>, keys: set<GroupKey>, budgets: seq<int>, identity: Identity)
    requires RowsDistinct(rows) && BudgetsKnown(rows, budgets) && Separates(rows, keys, budgets, identity)
    ensures Deterministic(rows, keys, ByBudget(budgets), identity) == Deterministic(rows, keys, InOnePass(), identity)
  {
    if DistinctBudgets(budgets) {
      forall k | k in keys ensures Projection(ByBudget(budgets)(rows, k)) == Projection(InOnePass()(rows, k)) {
        DistinctMeansOnceEach(rows, k, budgets);
        ProjectionsAgree(rows, k, budgets);
      }
      SameProjections(rows, keys, ByBudget(budgets), InOnePass(), identity);
    } else {
      DeterministicIffAlike(rows, keys, ByBudget(budgets), identity);
      DeterministicIffAlike(rows, keys, InOnePass(), identity);
      AlikeEitherWay(rows, keys, budgets);
    }
  }

  /** What the comparison of runs needs of the identity: nothing, unless a budget repeats. */
  ghost predicate SeparatesProfiles(rows: seq<ReviewRow>, p: Protocol, identity: Identity) {
    forall profile :: profile in p.devProfiles ==> Separates(rows, ProfileKeys(p, profile), p.budgets, identity)
  }

  lemma SummariesAgree(rows: seq<ReviewRow>, sources: seq<SourceRow>, p: Protocol, identity: Identity)
    requires RowsDistinct(rows) && BudgetsKnown(rows, p.budgets) && SeparatesProfiles(rows, p, identity)
    ensures Summarize(rows, sources, p, identity) == SummarizeIndependently(rows, sources, p, identity)
  {
    var a, b := ByBudget(p.budgets), InOnePass();
    forall profile | profile in p.devProfiles
      ensures Deterministic(rows, ProfileKeys(p, profile), a, identity)
           == Deterministic(rows, ProfileKeys(p, profile), b, identity)
    {
      DeterminismAgrees(rows, ProfileKeys(p, profile), p.budgets, identity);
    }
    assert (map profile | profile in p.devProfiles :: Deterministic(rows, ProfileKeys(p, profile), a, identity))
        == (map profile | profile in p.devProfiles :: Deterministic(rows, ProfileKeys(p, profile), b, identity));
  }

  /**
    Whatever inputs the benchmark accepts, the independent validator accepts, and computes the same
    review rows, the same summary and the same decision, for every list of positive budgets.
   */
  lemma PathsAgree(inputs: Inputs, p: Protocol, str: Json -> Text, identity: Identity)
    requires Frozen(p) && BenchmarkPath(inputs, p, str, identity).Ok?
    requires SeparatesProfiles(BenchmarkPath(inputs, p, str, identity).value.rows, p, identity)
    ensures IndependentPath(inputs, p, str, identity) == BenchmarkPath(inputs, p, str, identity)
  {
    LoadersAgree(inputs, p, str);
    var sources := LoadBenchmark(inputs, p, str).value;
    ReviewAllAgrees(sources, p.budgets);
    var rows := ReviewRows(sources, p, Evaluate).value;
    ReviewRowsDistinct(sources, p);
    SummariesAgree(rows, sources, p, identity);
  }

  // ---------------------------------------------------------------- metrics are fractions

  ghost predicate RowBounded(row: Row) {
    && row.trustedAtoms <= row.requiredAtoms && row.trustedSources <= row.requiredSources
    && row.citationValidRelevant <= row.relevantInspected && row.fitnessScore <= row.fitnessMax
  }

  ghost predicate PairsBounded(sources: map<Text, (nat, nat)>) {
    forall k :: k in sources ==> sources[k].0 <= sources[k].1
  }

  lemma {:induction false} SumsBounded(sources: map<Text, (nat, nat)>)
    requires PairsBounded(sources)
    ensures SumScores(sources) <= SumMaxima(sources)
    decreases |sources|
  {
    if sources != map[] {
      SumsBounded(sources - {Least(sources.Keys)});
    }
  }

  lemma StepBounded(needAtoms: nat, needSources: nat, st: State, item: Item, rank: nat)
    requires st.cited <= st.relevant && PairsBounded(st.sources) && ItemBounded(item)
    ensures var next := Step(needAtoms, needSources, st, item, rank);
            next.cited <= next.relevant && PairsBounded(next.sources)
  {
  }

  lemma {:induction false} FoldBounded(needAtoms: nat, needSources: nat, raw: seq<RawItem>)
    requires ReadItems(raw).Ok?
    ensures var st := Fold(needAtoms, needSources, ReadItems(raw).value);
            st.cited <= st.relevant && PairsBounded(st.sources)
  {
    if raw != [] {
      var n := |raw| - 1;
      FoldBounded(needAtoms, needSources, raw[..n]);
      ReadItemsSplit(raw);
      ReadItemBounded(raw[n], n);
      StepBounded(needAtoms, needSources, Fold(needAtoms, needSources, ReadItems(raw[..n]).value),
                  ReadItem(raw[n], n).value, n + 1);
    }
  }

  lemma EvaluatedRowBounded(obs: Observation, budget: int)
    requires Evaluate(obs, budget).Ok?
    ensures RowBounded(Evaluate(obs, budget).value)
  {
    var raw := Prefix(obs.selected.value, budget);
    FoldBounded(obs.requiredAtoms.i, obs.requiredSources.i, raw);
    SumsBounded(Fold(obs.requiredAtoms.i, obs.requiredSources.i, ReadItems(raw).value).sources);
  }

  lemma {:induction false} TotalAtMost(rows: seq<Row>, small: Row -> nat, large: Row -> nat)
    requires forall x :: x in rows ==> small(x) <= large(x)
    ensures Total(rows, small) <= Total(rows, large)
  {
    if rows != [] { TotalAtMost(rows[1..], small, large); }
  }

  lemma {:induction false} CountAtMostLength(rows: seq<Row>, holds: Row -> bool)
    ensures Count(rows, holds) <= |rows|
  {
    if rows != [] { CountAtMostLength(rows[1..], holds); }
  }

  /** Some observation evaluates to the row under some budget. */
  ghost predicate Evaluated(row: Row) {
    exists obs, budget :: Evaluate(obs, budget) == Ok(row)
  }

  /** Every metric of rows that were evaluated lies between zero and one. */
  lemma MetricsAreFractions(rows: seq<Row>, metric: Metric)
    requires forall x :: x in rows ==> Evaluated(x)
    ensures 0 <= MetricOf(rows, metric).numerator <= MetricOf(rows, metric).denominator
    ensures MetricOf(rows, metric).denominator > 0
  {
    forall x | x in rows ensures RowBounded(x) {
      var obs, budget :| Evaluate(obs, budget) == Ok(x);
      EvaluatedRowBounded(obs, budget);
    }
    BoundedMetrics(rows, metric);
  }

  lemma BoundedMetrics(rows: seq<Row>, metric: Metric)
    requires forall x :: x in rows ==> RowBounded(x)
    ensures 0 <= MetricOf(rows, metric).numerator <= MetricOf(rows, metric).denominator
    ensures MetricOf(rows, metric).denominator > 0
  {
    var answerable := Where(rows, (r: Row) => r.answerable);
    var unsupported := Where(rows, (r: Row) => !r.answerable);
    match metric
    case TaskCompletion => CountAtMostLength(rows, (r: Row) => r.taskCompletion);
    case AnswerableCompletion => CountAtMostLength(answerable, (r: Row) => r.answerableCompletion);
    case SafeAbstention => CountAtMostLength(unsupported, (r: Row) => r.safeUnsupported);
    case AtomCoverage => TotalAtMost(answerable, (r: Row) => r.trustedAtoms, (r: Row) => r.requiredAtoms);
    case SourceCoverage => TotalAtMost(answerable, (r: Row) => r.trustedSources, (r: Row) => r.requiredSources);
    case CitationIntegrity => TotalAtMost(rows, (r: Row) => r.citationValidRelevant, (r: Row) => r.relevantInspected);
    case SourceFitness => TotalAtMost(rows, (r: Row) => r.fitnessScore, (r: Row) => r.fitnessMax);
  }
}
