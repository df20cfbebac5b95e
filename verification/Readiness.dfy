/**
  Readiness and holdout verdicts from exact metrics.

  Thresholds are part of the protocol; a metric meets one when the cross-multiplied integers say so.
 */
module Readiness {
  import opened Unicode

  /** An exact metric or threshold. The scripts build both with a positive denominator. */
  datatype Ratio = Ratio(numerator: int, denominator: int)

  /** `_meets` and `_at_least`. */
  predicate Meets(metric: Ratio, threshold: Ratio) {
    metric.numerator * threshold.denominator >= threshold.numerator * metric.denominator
  }

  /** The order of the fractions, cross-multiplied. */
  ghost predicate AtMost(a: Ratio, b: Ratio) {
    a.numerator * b.denominator <= b.numerator * a.denominator
  }

  ghost predicate Positive(r: Ratio) {
    r.denominator > 0
  }

  lemma CrossChain(a: int, b: int, c: int, d: int, n: int, m: int)
    requires b > 0 && d > 0 && m > 0
    requires n * b <= a * m && a * d <= c * b
    ensures n * d <= c * m
  {
    assert n * b * d <= a * m * d by { assert (a * m - n * b) * d >= 0; }
    assert a * d * m <= c * b * m by { assert (c * b - a * d) * m >= 0; }
    assert a * m * d == a * d * m;
    assert b * (n * d) <= b * (c * m) by { assert n * b * d == b * (n * d) && c * b * m == b * (c * m); }
    assert b * (c * m - n * d) >= 0;
  }

  /** A metric that is no smaller meets every threshold the other one met. */
  lemma MeetsIsMonotone(worse: Ratio, better: Ratio, threshold: Ratio)
    requires Positive(worse) && Positive(better) && Positive(threshold)
    requires AtMost(worse, better) && Meets(worse, threshold)
    ensures Meets(better, threshold)
  {
    CrossChain(worse.numerator, worse.denominator, better.numerator, better.denominator, threshold.numerator,
               threshold.denominator);
  }

  // ---------------------------------------------------------------- summaries

  /** The metrics of one treatment that a decision reads. */
  datatype Treatment = Treatment(fullSupport: Ratio, atomRecall: Ratio, evidencePrecision: Ratio, mrr: Ratio,
                                 sourceRecall: Ratio, citationIntegrity: Ratio, abstention: Ratio,
                                 germanAtomRecall: Ratio)

  datatype Summary = Summary(direct: Treatment, operator: Treatment, ingestion: Ratio, runsIdentical: bool)

  datatype ReadyPolicy = ReadyPolicy(fullSupport: Ratio, atomRecall: Ratio, evidencePrecision: Ratio, mrr: Ratio,
                                     sourceRecall: Ratio, citationIntegrity: Ratio, ingestion: Ratio,
                                     abstention: Ratio, germanAtomRecall: Ratio)

  datatype ConditionalPolicy = ConditionalPolicy(operatorFullSupport: Ratio, operatorAtomRecall: Ratio,
                                                 operatorSourceRecall: Ratio, operatorCitationIntegrity: Ratio,
                                                 directFullSupport: Ratio)

  datatype Policy = Policy(ready: ReadyPolicy, conditional: ConditionalPolicy)

  datatype Verdict = NotReady | Conditional | Ready

  datatype Decision = Decision(verdict: Verdict, failures: seq<Text>, blockers: seq<Text>, satisfied: seq<Text>)

  /** Named outcomes, as the dict of checks. */
  type Checks = map<Text, bool>

  /** One threshold on one metric. */
  datatype Rule = Rule(name: Text, metric: Ratio, threshold: Ratio)

  function ReadyRules(s: Summary, p: ReadyPolicy): seq<Rule> {
    [Rule(T("direct_full_support"), s.direct.fullSupport, p.fullSupport),
     Rule(T("direct_atom_recall"), s.direct.atomRecall, p.atomRecall),
     Rule(T("direct_evidence_precision"), s.direct.evidencePrecision, p.evidencePrecision),
     Rule(T("direct_mrr"), s.direct.mrr, p.mrr),
     Rule(T("direct_source_recall"), s.direct.sourceRecall, p.sourceRecall),
     Rule(T("direct_citation_integrity"), s.direct.citationIntegrity, p.citationIntegrity),
     Rule(T("supported_format_ingestion"), s.ingestion, p.ingestion),
     Rule(T("direct_abstention"), s.direct.abstention, p.abstention),
     Rule(T("direct_german_atom_recall"), s.direct.germanAtomRecall, p.germanAtomRecall)]
  }

  function ConditionalRules(s: Summary, p: ConditionalPolicy): seq<Rule> {
    [Rule(T("operator_full_support"), s.operator.fullSupport, p.operatorFullSupport),
     Rule(T("operator_atom_recall"), s.operator.atomRecall, p.operatorAtomRecall),
     Rule(T("operator_source_recall"), s.operator.sourceRecall, p.operatorSourceRecall),
     Rule(T("operator_citation_integrity"), s.operator.citationIntegrity, p.operatorCitationIntegrity),
     Rule(T("direct_full_support_floor"), s.direct.fullSupport, p.directFullSupport)]
  }

  function Judge(rules: seq<Rule>): Checks {
    if rules == [] then map[]
    else
      var last := rules[|rules| - 1];
      Judge(rules[..|rules| - 1])[last.name := Meets(last.metric, last.threshold)]
  }

  function ReadyChecks(s: Summary, p: ReadyPolicy): Checks {
    Judge(ReadyRules(s, p))[T("semantic_runs_identical") := s.runsIdentical]
  }

  function ConditionalChecks(s: Summary, p: ConditionalPolicy): Checks {
    Judge(ConditionalRules(s, p))[T("semantic_runs_identical") := s.runsIdentical]
  }

  predicate AllPass(checks: Checks) {
    forall name :: name in checks ==> checks[name]
  }

  function Named(checks: Checks, passed: bool): (names: seq<Text>)
    ensures forall name :: name in names <==> name in checks && checks[name] == passed
    ensures StrictlyIncreasing(names)
  {
    SortedKeys(set name | name in checks && checks[name] == passed)
  }

  function Failures(hard: seq<Text>): (names: seq<Text>)
    ensures names == [] <==> hard == []
    ensures forall name :: name in names <==> name in hard
  {
    var distinct := set i | 0 <= i < |hard| :: hard[i];
    assert hard != [] ==> hard[0] in distinct;
    var names := SortedKeys(distinct);
    assert names != [] ==> names[0] in distinct;
    names
  }

  /** `decide`. */
  function Decide(s: Summary, p: Policy, hard: seq<Text>): Decision {
    Conclude(ReadyChecks(s, p.ready), ConditionalChecks(s, p.conditional), Failures(hard))
  }

  function Conclude(ready: Checks, conditional: Checks, failures: seq<Text>): Decision {
    var verdict := if failures == [] && AllPass(ready) then Ready
                   else if failures == [] && AllPass(conditional) then Conditional
                   else NotReady;
    var checks := if verdict == Conditional then conditional else ready;
    Decision(verdict, failures, Named(checks, false), Named(checks, true))
  }

  // ---------------------------------------------------------------- blockers

  lemma NoBlockersIffAllPass(checks: Checks)
    ensures Named(checks, false) == [] <==> AllPass(checks)
  {
    var names := Named(checks, false);
    if names != [] { assert names[0] in names; }
    if !AllPass(checks) {
      var name :| name in checks && !checks[name];
      assert name in names;
    }
  }

  /** A ready or conditional verdict has neither blockers nor failures; a rejection names at least one. */
  lemma VerdictIsExplained(s: Summary, p: Policy, hard: seq<Text>)
    ensures var d := Decide(s, p, hard);
            && (d.verdict != NotReady ==> d.blockers == [] && d.failures == [] && hard == [])
            && (d.verdict == NotReady ==> d.blockers != [] || d.failures != [])
  {
    NoBlockersIffAllPass(ReadyChecks(s, p.ready));
    NoBlockersIffAllPass(ConditionalChecks(s, p.conditional));
  }

  // ---------------------------------------------------------------- monotonicity

  ghost predicate AllPositive(t: Treatment) {
    && Positive(t.fullSupport) && Positive(t.atomRecall) && Positive(t.evidencePrecision) && Positive(t.mrr)
    && Positive(t.sourceRecall) && Positive(t.citationIntegrity) && Positive(t.abstention)
    && Positive(t.germanAtomRecall)
  }

  ghost predicate Exact(s: Summary) {
    AllPositive(s.direct) && AllPositive(s.operator) && Positive(s.ingestion)
  }

  ghost predicate PolicyPositive(p: Policy) {
    && Positive(p.ready.fullSupport) && Positive(p.ready.atomRecall) && Positive(p.ready.evidencePrecision)
    && Positive(p.ready.mrr) && Positive(p.ready.sourceRecall) && Positive(p.ready.citationIntegrity)
    && Positive(p.ready.ingestion) && Positive(p.ready.abstention) && Positive(p.ready.germanAtomRecall)
    && Positive(p.conditional.operatorFullSupport) && Positive(p.conditional.operatorAtomRecall)
    && Positive(p.conditional.operatorSourceRecall) && Positive(p.conditional.operatorCitationIntegrity)
    && Positive(p.conditional.directFullSupport)
  }

  ghost predicate NoWorse(a: Treatment, b: Treatment) {
    && AtMost(a.fullSupport, b.fullSupport) && AtMost(a.atomRecall, b.atomRecall)
    && AtMost(a.evidencePrecision, b.evidencePrecision) && AtMost(a.mrr, b.mrr)
    && AtMost(a.sourceRecall, b.sourceRecall) && AtMost(a.citationIntegrity, b.citationIntegrity)
    && AtMost(a.abstention, b.abstention) && AtMost(a.germanAtomRecall, b.germanAtomRecall)
  }

  ghost predicate Improves(a: Summary, b: Summary) {
    && NoWorse(a.direct, b.direct) && NoWorse(a.operator, b.operator) && AtMost(a.ingestion, b.ingestion)
    && (a.runsIdentical ==> b.runsIdentical)
  }

  /** Every check that passed still passes. */
  ghost predicate Refines(a: Checks, b: Checks) {
    a.Keys == b.Keys && forall name :: name in a && a[name] ==> b[name]
  }

  ghost predicate RuleImproves(a: Rule, b: Rule) {
    && a.name == b.name && a.threshold == b.threshold && Positive(a.threshold)
    && Positive(a.metric) && Positive(b.metric) && AtMost(a.metric, b.metric)
  }

  ghost predicate RulesImprove(a: seq<Rule>, b: seq<Rule>) {
    |a| == |b| && forall i :: 0 <= i < |a| ==> RuleImproves(a[i], b[i])
  }

  lemma {:induction false} JudgeRefines(a: seq<Rule>, b: seq<Rule>)
    requires RulesImprove(a, b)
    ensures Refines(Judge(a), Judge(b))
  {
    if a != [] {
      var n := |a| - 1;
      JudgeRefines(a[..n], b[..n]);
      assert RuleImproves(a[n], b[n]);
      if Meets(a[n].metric, a[n].threshold) { MeetsIsMonotone(a[n].metric, b[n].metric, a[n].threshold); }
    }
  }

  lemma ReadyChecksImprove(a: Summary, b: Summary, p: Policy)
    requires Exact(a) && Exact(b) && PolicyPositive(p) && Improves(a, b)
    ensures Refines(ReadyChecks(a, p.ready), ReadyChecks(b, p.ready))
  {
    JudgeRefines(ReadyRules(a, p.ready), ReadyRules(b, p.ready));
  }

  lemma ConditionalChecksImprove(a: Summary, b: Summary, p: Policy)
    requires Exact(a) && Exact(b) && PolicyPositive(p) && Improves(a, b)
    ensures Refines(ConditionalChecks(a, p.conditional), ConditionalChecks(b, p.conditional))
  {
    JudgeRefines(ConditionalRules(a, p.conditional), ConditionalRules(b, p.conditional));
  }

  function Rank(v: Verdict): nat {
    match v case NotReady => 0 case Conditional => 1 case Ready => 2
  }

  ghost predicate Within(a: seq<Text>, b: seq<Text>) {
    forall name :: name in a ==> name in b
  }

  lemma WithinEmpty(a: seq<Text>, b: seq<Text>)
    requires Within(a, b)
    ensures b == [] ==> a == []
  {
    if a != [] { assert a[0] in b; }
  }

  lemma ConcludeIsMonotone(ra: Checks, ca: Checks, rb: Checks, cb: Checks, fa: seq<Text>, fb: seq<Text>)
    requires Refines(ra, rb) && Refines(ca, cb) && Within(fb, fa)
    ensures Rank(Conclude(ra, ca, fa).verdict) <= Rank(Conclude(rb, cb, fb).verdict)
    ensures Conclude(ra, ca, fa).verdict == Conclude(rb, cb, fb).verdict ==>
      Within(Conclude(rb, cb, fb).blockers, Conclude(ra, ca, fa).blockers)
  {
    WithinEmpty(fb, fa);
  }

  /**
    If no metric falls, the identity of runs is not lost and hard failures only shrink, the verdict
    never drops; an unchanged verdict has no new blockers.
   */
  lemma DecisionsAreMonotone(a: Summary, b: Summary, p: Policy, hardA: seq<Text>, hardB: seq<Text>)
    requires Exact(a) && Exact(b) && PolicyPositive(p) && Improves(a, b) && Within(hardB, hardA)
    ensures Rank(Decide(a, p, hardA).verdict) <= Rank(Decide(b, p, hardB).verdict)
    ensures Decide(a, p, hardA).verdict == Decide(b, p, hardB).verdict ==>
      Within(Decide(b, p, hardB).blockers, Decide(a, p, hardA).blockers)
  {
    ReadyChecksImprove(a, b, p);
    ConditionalChecksImprove(a, b, p);
    ConcludeIsMonotone(ReadyChecks(a, p.ready), ConditionalChecks(a, p.conditional), ReadyChecks(b, p.ready),
                       ConditionalChecks(b, p.conditional), Failures(hardA), Failures(hardB));
  }

  /** The decision depends on the values of the fractions only, not on how they are written. */
  lemma EqualFractionsDecideAlike(a: Summary, b: Summary, p: Policy, hard: seq<Text>)
    requires Exact(a) && Exact(b) && PolicyPositive(p) && Improves(a, b) && Improves(b, a)
    ensures Decide(a, p, hard) == Decide(b, p, hard)
  {
    ReadyChecksImprove(a, b, p);
    ReadyChecksImprove(b, a, p);
    ConditionalChecksImprove(a, b, p);
    ConditionalChecksImprove(b, a, p);
    assert ReadyChecks(a, p.ready) == ReadyChecks(b, p.ready);
    assert ConditionalChecks(a, p.conditional) == ConditionalChecks(b, p.conditional);
  }

  // ---------------------------------------------------------------- holdout verdict

  datatype Quality = NotEvaluable | BelowTargets | TargetsMet

  datatype Holdout = Holdout(valid: bool, quality: Quality, failures: seq<Text>, validityBlockers: seq<Text>,
                             qualityBlockers: seq<Text>)

  /** `evaluate_verdict`. */
  function EvaluateVerdict(validity: Checks, quality: Checks, hard: seq<Text>): Holdout {
    var validityBlockers, qualityBlockers := Named(validity, false), Named(quality, false);
    var valid := hard == [] && validityBlockers == [];
    Holdout(valid, if valid then (if qualityBlockers == [] then TargetsMet else BelowTargets) else NotEvaluable,
            Failures(hard), validityBlockers, if valid then qualityBlockers else [])
  }

  function QualityRank(q: Quality): nat {
    match q case NotEvaluable => 0 case BelowTargets => 1 case TargetsMet => 2
  }

  /** An invalid run never reports quality, and says why; a valid one below target names what it misses. */
  lemma HoldoutVerdictIsExplained(validity: Checks, quality: Checks, hard: seq<Text>)
    ensures var h := EvaluateVerdict(validity, quality, hard);
            && (h.valid <==> hard == [] && AllPass(validity))
            && (h.quality == TargetsMet <==> hard == [] && AllPass(validity) && AllPass(quality))
            && (h.quality == NotEvaluable <==> h.failures != [] || h.validityBlockers != [])
            && (h.quality == BelowTargets <==> h.qualityBlockers != [])
  {
    NoBlockersIffAllPass(validity);
    NoBlockersIffAllPass(quality);
  }

  /** More passing checks and fewer failures never lower either axis. */
  lemma HoldoutVerdictIsMonotone(va: Checks, vb: Checks, qa: Checks, qb: Checks, hardA: seq<Text>, hardB: seq<Text>)
    requires Refines(va, vb) && Refines(qa, qb) && Within(hardB, hardA)
    ensures QualityRank(EvaluateVerdict(va, qa, hardA).quality) <= QualityRank(EvaluateVerdict(vb, qb, hardB).quality)
    ensures EvaluateVerdict(va, qa, hardA).valid ==> EvaluateVerdict(vb, qb, hardB).valid
  {
    HoldoutVerdictIsExplained(va, qa, hardA);
    HoldoutVerdictIsExplained(vb, qb, hardB);
    WithinEmpty(hardB, hardA);
  }
}
