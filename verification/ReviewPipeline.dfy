/**
  The two paths over the downstream-utility inputs: the benchmark, which produces review rows, a
  summary and a decision, and the independent validator, which recomputes all three.

  Content identities are a parameter: any function of the projected rows.
 */
module ReviewPipeline {
  import opened Wrappers
  import opened Unicode
  import opened CanonicalJson
  import opened ReviewBudget
  import opened Statistics

  datatype Run = Index(n: nat) | Named(name: Text)

  /** One wrapper of the profiled-retrieval input; `closed` when it has exactly the five keys. */
  datatype Wrapper = Wrapper(closed: bool, suite: Json, run: Json, profile: Json, ordinal: Json,
                             observation: Option<Observation>)

  /** One row of the holdout input: None unless it is a dict. */
  datatype Baseline = Baseline(treatment: Json, observation: Observation)

  datatype Inputs = Inputs(wrappers: seq<Wrapper>, baselines: seq<Option<Baseline>>)

  datatype SourceRow = SourceRow(suite: Text, treatment: Text, run: Run, ordinal: nat, observation: Observation)

  datatype ReviewRow = ReviewRow(suite: Text, treatment: Text, run: Run, ordinal: nat, row: Row)

  datatype Metric = TaskCompletion | AnswerableCompletion | AtomCoverage | SourceCoverage | CitationIntegrity
                  | SourceFitness | SafeAbstention

  datatype Protocol = Protocol(devSuite: Text, devProfiles: seq<Text>, devRuns: seq<nat>, warmMinOrdinal: nat,
                               holdoutSuite: Text, baselineRun: Text, baselineTreatments: seq<Text>,
                               candidate: Text, candidateRuns: seq<nat>, budgets: seq<int>, primaryBudget: int,
                               metrics: seq<Metric>, warmFraction: (int, int))

  /** What the protocol check fixes: budgets are positive, though they may repeat, and the suites differ by name. */
  ghost predicate Frozen(p: Protocol) {
    p.devSuite != p.holdoutSuite && forall i :: 0 <= i < |p.budgets| ==> p.budgets[i] > 0
  }

  // ---------------------------------------------------------------- loading

  type GroupKey = (Text, Text, Run)

  function KeyOf(row: SourceRow): GroupKey {
    (row.suite, row.treatment, row.run)
  }

  function DevKeys(p: Protocol): set<GroupKey> {
    set profile, run | profile in p.devProfiles && run in p.devRuns :: (p.devSuite, profile, Index(run))
  }

  function HoldoutKeys(p: Protocol): set<GroupKey> {
    (set treatment | treatment in p.baselineTreatments :: (p.holdoutSuite, treatment, Named(p.baselineRun)))
    + (set run | run in p.candidateRuns :: (p.holdoutSuite, p.candidate, Index(run)))
  }

  /** What both loaders ask of a wrapper before it can become a row. */
  predicate WrapperShaped(w: Wrapper) {
    w.closed && IsNat(w.run) && IsNat(w.ordinal) && w.observation.Some? && w.suite.JStr? && w.profile.JStr?
  }

  /** The further check of the benchmark's loader. */
  predicate WrapperExpected(w: Wrapper, p: Protocol) {
    if w.suite == JStr(p.devSuite) then w.profile.JStr? && w.profile.s in p.devProfiles
    else w.suite == JStr(p.holdoutSuite) && w.profile == JStr(p.candidate)
  }

  function WrapperRow(w: Wrapper): SourceRow
    requires WrapperShaped(w)
  {
    SourceRow(w.suite.s, w.profile.s, Index(w.run.i), w.ordinal.i, w.observation.value)
  }

  predicate BaselineExpected(b: Option<Baseline>, p: Protocol) {
    b.Some? && b.value.treatment.JStr? && b.value.treatment.s in p.baselineTreatments
  }

  /** How many of the first n rows have the treatment: the ordinal of the next one. */
  function Seen(baselines: seq<Option<Baseline>>, n: nat, treatment: Json): nat
    requires n <= |baselines|
  {
    if n == 0 then 0
    else Seen(baselines, n - 1, treatment)
         + if baselines[n - 1].Some? && baselines[n - 1].value.treatment == treatment then 1 else 0
  }

  function BaselineRow(baselines: seq<Option<Baseline>>, i: nat, p: Protocol): SourceRow
    requires i < |baselines| && BaselineExpected(baselines[i], p)
  {
    var b := baselines[i].value;
    SourceRow(p.holdoutSuite, b.treatment.s, Named(p.baselineRun), Seen(baselines, i, b.treatment), b.observation)
  }

  predicate Shaped(inputs: Inputs, p: Protocol) {
    && (forall i :: 0 <= i < |inputs.wrappers| ==> WrapperShaped(inputs.wrappers[i]))
    && (forall i :: 0 <= i < |inputs.baselines| ==> BaselineExpected(inputs.baselines[i], p))
  }

  function Rows(inputs: Inputs, p: Protocol): (rows: seq<SourceRow>)
    requires Shaped(inputs, p)
    ensures |rows| == |inputs.wrappers| + |inputs.baselines|
  {
    seq(|inputs.wrappers|, i requires 0 <= i < |inputs.wrappers| => WrapperRow(inputs.wrappers[i]))
    + seq(|inputs.baselines|, i requires 0 <= i < |inputs.baselines| => BaselineRow(inputs.baselines, i, p))
  }

  // ---------------------------------------------------------------- coverage

  function Group(rows: seq<SourceRow>, key: GroupKey): seq<SourceRow> {
    if rows == [] then []
    else
      var n := |rows| - 1;
      Group(rows[..n], key) + if KeyOf(rows[n]) == key then [rows[n]] else []
  }

  function GroupKeys(rows: seq<SourceRow>): set<GroupKey> {
    set i | 0 <= i < |rows| :: KeyOf(rows[i])
  }

  ghost predicate NoDuplicates(rows: seq<SourceRow>) {
    forall i, j :: 0 <= i < j < |rows| ==> KeyOf(rows[i]) != KeyOf(rows[j]) || rows[i].ordinal != rows[j].ordinal
  }

  predicate ByOrdinal(a: SourceRow, b: SourceRow) {
    a.ordinal <= b.ordinal
  }

  /** The questions of a group in ordinal order; `str` is Python's conversion of the raw identifier. */
  function Questions(rows: seq<SourceRow>, str: Json -> Text): seq<Text> {
    var ordered := SortBy(rows, ByOrdinal);
    seq(|ordered|, i requires 0 <= i < |ordered| => str(ordered[i].observation.questionId))
  }

  /** The ordinals are 0, 1, ... and no question repeats. */
  predicate GroupComplete(rows: seq<SourceRow>, str: Json -> Text) {
    var ordered, questions := SortBy(rows, ByOrdinal), Questions(rows, str);
    && (forall i :: 0 <= i < |ordered| ==> ordered[i].ordinal == i)
    && (forall i, j :: 0 <= i < j < |questions| ==> questions[i] != questions[j])
  }

  function Sequences(rows: seq<SourceRow>, keys: set<GroupKey>, str: Json -> Text): set<seq<Text>> {
    set k | k in keys :: Questions(Group(rows, k), str)
  }

  /** `_validate_source_coverage`. */
  ghost predicate BenchmarkCoverage(rows: seq<SourceRow>, p: Protocol, str: Json -> Text) {
    && NoDuplicates(rows)
    && GroupKeys(rows) == DevKeys(p) + HoldoutKeys(p)
    && |Sequences(rows, DevKeys(p), str)| == 1
    && |Sequences(rows, HoldoutKeys(p), str)| == 1
    && forall k :: k in GroupKeys(rows) ==> GroupComplete(Group(rows, k), str)
  }

  function KeysOfSuite(rows: seq<SourceRow>, suite: Text): set<GroupKey> {
    set k | k in GroupKeys(rows) && k.0 == suite
  }

  /** `_coverage` of the independent validator: one question sequence per suite that occurs. */
  ghost predicate IndependentCoverage(rows: seq<SourceRow>, p: Protocol, str: Json -> Text) {
    && NoDuplicates(rows)
    && GroupKeys(rows) == DevKeys(p) + HoldoutKeys(p)
    && (forall k :: k in GroupKeys(rows) ==> GroupComplete(Group(rows, k), str))
    && forall k :: k in GroupKeys(rows) ==> |Sequences(rows, KeysOfSuite(rows, k.0), str)| == 1
  }

  /** The benchmark's loader, including its coverage check. */
  ghost function LoadBenchmark(inputs: Inputs, p: Protocol, str: Json -> Text): Result<seq<SourceRow>> {
    if !(forall i :: 0 <= i < |inputs.wrappers| ==>
           WrapperShaped(inputs.wrappers[i]) && WrapperExpected(inputs.wrappers[i], p)) then Fail("wrapper")
    else if !Shaped(inputs, p) then Fail("baseline")
    else if !BenchmarkCoverage(Rows(inputs, p), p, str) then Fail("coverage")
    else Ok(Rows(inputs, p))
  }

  ghost function LoadIndependently(inputs: Inputs, p: Protocol, str: Json -> Text): Result<seq<SourceRow>> {
    if !Shaped(inputs, p) then Fail("shape")
    else if !IndependentCoverage(Rows(inputs, p), p, str) then Fail("coverage")
    else Ok(Rows(inputs, p))
  }

  lemma SuiteKeys(rows: seq<SourceRow>, p: Protocol)
    requires p.devSuite != p.holdoutSuite && GroupKeys(rows) == DevKeys(p) + HoldoutKeys(p)
    ensures KeysOfSuite(rows, p.devSuite) == DevKeys(p)
    ensures KeysOfSuite(rows, p.holdoutSuite) == HoldoutKeys(p)
    ensures forall k :: k in GroupKeys(rows) ==> k.0 == p.devSuite || k.0 == p.holdoutSuite
  {
  }

  /** Each suite has at least one group. */
  predicate HasGroups(p: Protocol) {
    DevKeys(p) != {} && HoldoutKeys(p) != {}
  }

  lemma SequencesNeedKeys(rows: seq<SourceRow>, keys: set<GroupKey>, str: Json -> Text)
    ensures Sequences(rows, keys, str) != {} ==> keys != {}
  {
    if Sequences(rows, keys, str) != {} {
      var x :| x in Sequences(rows, keys, str);
      var k :| k in keys && Questions(Group(rows, k), str) == x;
    }
  }

  lemma CoverageNeedsGroups(rows: seq<SourceRow>, p: Protocol, str: Json -> Text)
    requires Frozen(p) && BenchmarkCoverage(rows, p, str)
    ensures IndependentCoverage(rows, p, str) && HasGroups(p)
  {
    SuiteKeys(rows, p);
    SequencesNeedKeys(rows, DevKeys(p), str);
    SequencesNeedKeys(rows, HoldoutKeys(p), str);
  }

  /** The benchmark's coverage check accepts what the validator's does, if each suite has a group. */
  lemma CoverageAgrees(rows: seq<SourceRow>, p: Protocol, str: Json -> Text)
    requires Frozen(p)
    ensures BenchmarkCoverage(rows, p, str) <==> IndependentCoverage(rows, p, str) && HasGroups(p)
  {
    if BenchmarkCoverage(rows, p, str) { CoverageNeedsGroups(rows, p, str); }
    if IndependentCoverage(rows, p, str) && HasGroups(p) {
      SuiteKeys(rows, p);
      var dev :| dev in DevKeys(p);
      var holdout :| holdout in HoldoutKeys(p);
      assert dev in GroupKeys(rows) && holdout in GroupKeys(rows);
    }
  }

  /** Coverage leaves no room for a wrapper that the benchmark's own suite and profile check rejects. */
  lemma CoveredWrappersExpected(inputs: Inputs, p: Protocol, i: nat)
    requires Frozen(p) && Shaped(inputs, p) && i < |inputs.wrappers|
    requires GroupKeys(Rows(inputs, p)) == DevKeys(p) + HoldoutKeys(p)
    ensures WrapperExpected(inputs.wrappers[i], p)
  {
    var row := WrapperRow(inputs.wrappers[i]);
    assert Rows(inputs, p)[i] == row;
    assert KeyOf(row) in GroupKeys(Rows(inputs, p));
  }

  /** The loaders accept the same inputs, if each suite has a group, and yield the same rows. */
  lemma LoadersAgree(inputs: Inputs, p: Protocol, str: Json -> Text)
    requires Frozen(p)
    ensures LoadBenchmark(inputs, p, str).Ok? <==> LoadIndependently(inputs, p, str).Ok? && HasGroups(p)
    ensures LoadBenchmark(inputs, p, str).Ok? ==> LoadBenchmark(inputs, p, str) == LoadIndependently(inputs, p, str)
  {
    if Shaped(inputs, p) {
      CoverageAgrees(Rows(inputs, p), p, str);
      if IndependentCoverage(Rows(inputs, p), p, str) {
        forall i | 0 <= i < |inputs.wrappers| ensures WrapperExpected(inputs.wrappers[i], p) {
          CoveredWrappersExpected(inputs, p, i);
        }
      }
    }
  }

  // ---------------------------------------------------------------- review rows

  /** Python's `str` of a run. */
  function RunText(run: Run): Text {
    match run
    case Index(n) => Digits(n)
    case Named(name) => name
  }

  /** The sort key of the review rows. */
  predicate ByKey(a: ReviewRow, b: ReviewRow) {
    if a.suite != b.suite then Less(a.suite, b.suite)
    else if a.treatment != b.treatment then Less(a.treatment, b.treatment)
    else if RunText(a.run) != RunText(b.run) then Less(RunText(a.run), RunText(b.run))
    else if a.ordinal != b.ordinal then a.ordinal < b.ordinal
    else a.row.budget <= b.row.budget
  }

  type Evaluator = (Observation, int) -> Result<Row>

  /** One source under every budget. */
  function ReviewSource(source: SourceRow, budgets: seq<int>, evaluate: Evaluator): (r: Result<seq<ReviewRow>>)
    ensures r.Ok? ==> |r.value| == |budgets|
    ensures r.Ok? ==> forall i :: 0 <= i < |budgets| ==>
      evaluate(source.observation, budgets[i]).Ok? && r.value[i]
      == ReviewRow(source.suite, source.treatment, source.run, source.ordinal,
                   evaluate(source.observation, budgets[i]).value)
  {
    if budgets == [] then Ok([])
    else
      var row :- evaluate(source.observation, budgets[0]);
      var rest :- ReviewSource(source, budgets[1..], evaluate);
      Ok([ReviewRow(source.suite, source.treatment, source.run, source.ordinal, row)] + rest)
  }

  function ReviewAll(sources: seq<SourceRow>, budgets: seq<int>, evaluate: Evaluator): Result<seq<ReviewRow>> {
    if sources == [] then Ok([])
    else
      var first :- ReviewSource(sources[0], budgets, evaluate);
      var rest :- ReviewAll(sources[1..], budgets, evaluate);
      Ok(first + rest)
  }

  function ReviewRows(sources: seq<SourceRow>, p: Protocol, evaluate: Evaluator): Result<seq<ReviewRow>> {
    var rows :- ReviewAll(sources, p.budgets, evaluate);
    Ok(SortBy(rows, ByKey))
  }

  /** The validator's evaluation, as `EvaluateIndependently` specifies it. */
  function IndependentRow(obs: Observation, budget: int): Result<Row> {
    Evaluate(CountAsInteger(obs), budget)
  }

  lemma {:induction false} ReviewSourceAgrees(source: SourceRow, budgets: seq<int>)
    requires ReviewSource(source, budgets, Evaluate).Ok?
    ensures ReviewSource(source, budgets, IndependentRow) == ReviewSource(source, budgets, Evaluate)
  {
    if budgets != [] {
      BenchmarkRowsAreReproduced(source.observation, budgets[0]);
      ReviewSourceAgrees(source, budgets[1..]);
    }
  }

  lemma {:induction false} ReviewAllAgrees(sources: seq<SourceRow>, budgets: seq<int>)
    requires ReviewAll(sources, budgets, Evaluate).Ok?
    ensures ReviewAll(sources, budgets, IndependentRow) == ReviewAll(sources, budgets, Evaluate)
  {
    if sources != [] {
      ReviewSourceAgrees(sources[0], budgets);
      ReviewAllAgrees(sources[1..], budgets);
    }
  }

  // ---------------------------------------------------------------- projections

  function Select(rows: seq<ReviewRow>, keep: ReviewRow -> bool): (r: seq<ReviewRow>)
    ensures forall x :: x in r ==> x in rows && keep(x)
  {
    if rows == [] then []
    else (if keep(rows[0]) then [rows[0]] else []) + Select(rows[1..], keep)
  }

  predicate InGroup(row: ReviewRow, key: GroupKey) {
    row.suite == key.0 && row.treatment == key.1 && row.run == key.2
  }

  function RunRows(rows: seq<ReviewRow>, key: GroupKey): seq<ReviewRow> {
    Select(rows, (row: ReviewRow) => InGroup(row, key))
  }

  function BudgetRows(rows: seq<ReviewRow>, key: GroupKey, budget: int): seq<ReviewRow> {
    Select(rows, (row: ReviewRow) => InGroup(row, key) && row.row.budget == budget)
  }

  /** The benchmark gathers the rows of a run budget by budget. */
  function RunRowsByBudget(rows: seq<ReviewRow>, key: GroupKey, budgets: seq<int>): seq<ReviewRow> {
    if budgets == [] then [] else BudgetRows(rows, key, budgets[0]) + RunRowsByBudget(rows, key, budgets[1..])
  }

  predicate ByOrdinalAndBudget(a: ReviewRow, b: ReviewRow) {
    a.ordinal < b.ordinal || (a.ordinal == b.ordinal && a.row.budget <= b.row.budget)
  }

  /** A row without its run and its wall time. */
  function Project(row: ReviewRow): ReviewRow {
    row.(run := Index(0), row := row.row.(wallNs := 0))
  }

  function Projection(rows: seq<ReviewRow>): seq<ReviewRow> {
    var ordered := SortBy(rows, ByOrdinalAndBudget);
    seq(|ordered|, i requires 0 <= i < |ordered| => Project(ordered[i]))
  }

  lemma {:induction false} SelectCounts(rows: seq<ReviewRow>, keep: ReviewRow -> bool, x: ReviewRow)
    ensures multiset(Select(rows, keep))[x] == if keep(x) then multiset(rows)[x] else 0
  {
    if rows != [] {
      SelectCounts(rows[1..], keep, x);
      assert rows == [rows[0]] + rows[1..];
    }
  }

  ghost predicate DistinctBudgets(budgets: seq<int>) {
    forall i, j :: 0 <= i < j < |budgets| ==> budgets[i] != budgets[j]
  }

  lemma OccursOnceMore(budgets: seq<int>, b: int)
    requires budgets != []
    ensures multiset(budgets)[b] == multiset(budgets[1..])[b] + if b == budgets[0] then 1 else 0
  {
    assert budgets == [budgets[0]] + budgets[1..];
  }

  lemma OneMoreTime(n: nat, k: nat, hit: bool)
    ensures (n + if hit then 1 else 0) * k == n * k + if hit then k else 0
  {
  }

  /** Budget by budget, each row of the run is met as often as its budget occurs. */
  lemma {:induction false} ByBudgetCounts(rows: seq<ReviewRow>, key: GroupKey, budgets: seq<int>, x: ReviewRow)
    ensures multiset(RunRowsByBudget(rows, key, budgets))[x]
         == multiset(budgets)[x.row.budget] * multiset(RunRows(rows, key))[x]
  {
    if budgets != [] {
      var rest := budgets[1..];
      ByBudgetCounts(rows, key, rest, x);
      SelectCounts(rows, (row: ReviewRow) => InGroup(row, key) && row.row.budget == budgets[0], x);
      SelectCounts(rows, (row: ReviewRow) => InGroup(row, key), x);
      OccursOnceMore(budgets, x.row.budget);
      OneMoreTime(multiset(rest)[x.row.budget], multiset(RunRows(rows, key))[x], x.row.budget == budgets[0]);
    }
  }

  /** The budget of every row of the run occurs exactly once. */
  ghost predicate OnceEach(rows: seq<ReviewRow>, key: GroupKey, budgets: seq<int>) {
    forall x :: x in RunRows(rows, key) ==> multiset(budgets)[x.row.budget] == 1
  }

  lemma TimesItself(n: nat, k: nat)
    requires k > 0
    ensures n * k == k <==> n == 1
  {
    if n > 1 { assert n * k >= 2 * k; }
  }

  /** Both gatherings meet the same rows as often exactly when the budget of every row occurs exactly once. */
  lemma GatheringsAgree(rows: seq<ReviewRow>, key: GroupKey, budgets: seq<int>)
    ensures multiset(RunRowsByBudget(rows, key, budgets)) == multiset(RunRows(rows, key)) <==>
      OnceEach(rows, key, budgets)
  {
    var gathered, run := multiset(RunRowsByBudget(rows, key, budgets)), multiset(RunRows(rows, key));
    forall x ensures gathered[x] == run[x] <==> x !in RunRows(rows, key) || multiset(budgets)[x.row.budget] == 1 {
      ByBudgetCounts(rows, key, budgets, x);
      if x in RunRows(rows, key) {
        assert x in run;
        TimesItself(multiset(budgets)[x.row.budget], run[x]);
      }
    }
  }

  lemma {:induction false} OccursOnce(budgets: seq<int>, b: int)
    requires DistinctBudgets(budgets) && b in budgets
    ensures multiset(budgets)[b] == 1
  {
    OccursOnceMore(budgets, b);
    if b != budgets[0] { OccursOnce(budgets[1..], b); } else { assert b !in budgets[1..]; }
  }

  /** Within a run no two rows share an ordinal and a budget. */
  ghost predicate RowsDistinct(rows: seq<ReviewRow>) {
    forall a, b :: a in rows && b in rows && SameKey(a, b) ==> a == b
  }

  predicate SameKey(a: ReviewRow, b: ReviewRow) {
    && a.suite == b.suite && a.treatment == b.treatment && a.run == b.run
    && a.ordinal == b.ordinal && a.row.budget == b.row.budget
  }

  lemma OrdinalOrderIsTotal()
    ensures Preorder(ByOrdinalAndBudget)
  {
  }

  lemma RunRowsHaveNoTies(rows: seq<ReviewRow>, key: GroupKey)
    requires RowsDistinct(rows)
    ensures NoTies(RunRows(rows, key), ByOrdinalAndBudget)
  {
    var run := RunRows(rows, key);
    forall a, b | a in run && b in run && ByOrdinalAndBudget(a, b) && ByOrdinalAndBudget(b, a) ensures a == b {
      assert InGroup(a, key) && InGroup(b, key);
      assert SameKey(a, b);
    }
  }

  // ---------------------------------------------------------------- facts of review rows

  /** Where a review row comes from. */
  ghost predicate FromSource(row: ReviewRow, source: SourceRow, budgets: seq<int>, evaluate: Evaluator) {
    && row.suite == source.suite && row.treatment == source.treatment && row.run == source.run
    && row.ordinal == source.ordinal && row.row.budget in budgets
    && evaluate(source.observation, row.row.budget) == Ok(row.row)
  }

  /** Evaluated rows carry the budget they were evaluated under. */
  lemma BudgetOfRow(obs: Observation, budget: int)
    ensures Evaluate(obs, budget).Ok? ==> Evaluate(obs, budget).value.budget == budget
  {
  }

  lemma {:induction false} RowsComeFromSources(sources: seq<SourceRow>, budgets: seq<int>, row: ReviewRow)
    requires ReviewAll(sources, budgets, Evaluate).Ok?
    requires row in ReviewAll(sources, budgets, Evaluate).value
    ensures exists i :: 0 <= i < |sources| && FromSource(row, sources[i], budgets, Evaluate)
  {
    var first := ReviewSource(sources[0], budgets, Evaluate).value;
    if row in first {
      var k :| 0 <= k < |first| && first[k] == row;
      BudgetOfRow(sources[0].observation, budgets[k]);
      assert FromSource(row, sources[0], budgets, Evaluate);
    } else {
      RowsComeFromSources(sources[1..], budgets, row);
      var i :| 0 <= i < |sources[1..]| && FromSource(row, sources[1..][i], budgets, Evaluate);
      assert FromSource(row, sources[i + 1], budgets, Evaluate);
    }
  }

  /** Sources without duplicate keys give rows without duplicate keys. */
  lemma ReviewRowsDistinct(sources: seq<SourceRow>, p: Protocol)
    requires NoDuplicates(sources) && ReviewRows(sources, p, Evaluate).Ok?
    ensures RowsDistinct(ReviewRows(sources, p, Evaluate).value)
    ensures forall x :: x in ReviewRows(sources, p, Evaluate).value ==> x.row.budget in p.budgets
  {
    var unsorted := ReviewAll(sources, p.budgets, Evaluate).value;
    var rows := SortBy(unsorted, ByKey);
    SortByIsPermutation(unsorted, ByKey);
    forall x | x in rows ensures exists i :: 0 <= i < |sources| && FromSource(x, sources[i], p.budgets, Evaluate) {
      assert x in multiset(rows);
      RowsComeFromSources(sources, p.budgets, x);
    }
    forall a, b | a in rows && b in rows && SameKey(a, b) ensures a == b {
      var i :| 0 <= i < |sources| && FromSource(a, sources[i], p.budgets, Evaluate);
      var j :| 0 <= j < |sources| && FromSource(b, sources[j], p.budgets, Evaluate);
      assert KeyOf(sources[i]) == KeyOf(sources[j]) && sources[i].ordinal == sources[j].ordinal;
    }
  }
}
