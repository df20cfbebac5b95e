/**
  The value decision of the product benchmark: hard thresholds, conditional thresholds, no waiver.

  Numbers are exact reals; a metric that was not measured is None.
 */
module ValueDecision {
  import opened Wrappers
  import opened Unicode

  type Number = Option<real>

  datatype Metrics = Metrics(anchorCorrectness: Number, contextCoverage: Number, precision: Number, recall: Number,
                             replayMatch: Number, staleIncidents: Number, parserInvocations: Number,
                             referenceBlocks: Number, richFormats: seq<Text>, scaleBlocks: Number,
                             searchP95: Number, statusP95: Number, contextRatio: Number, breakEven: Number,
                             complete: bool)

  datatype Policy = Policy(minimumAnchor: real, minimumCoverage: real, minimumPrecision: real, minimumRecall: real,
                           minimumReplay: real, maximumStale: real, maximumParser: real, minimumReference: real,
                           requiredFormats: seq<Text>, minimumScale: real, maximumSearchP95: real,
                           maximumStatusP95: real, maximumRatio: real, horizon: real)

  datatype Outcome = NotDemonstrated | Conditionally | Worthwhile

  datatype Check = Check(id: string, passed: bool)

  datatype Decision = Decision(outcome: Outcome, reasons: seq<Text>, checks: seq<Check>)

  // ---------------------------------------------------------------- thresholds

  predicate AtLeast(n: Number, bound: real) {
    n.Some? && n.value >= bound
  }

  predicate AtMost(n: Number, bound: real) {
    n.Some? && n.value <= bound
  }

  /** `_number` accepts the value. */
  predicate IsNumber(n: Number) {
    n.Some? ==> n.value >= 0.0
  }

  predicate Numbers(m: Metrics) {
    && IsNumber(m.anchorCorrectness) && IsNumber(m.contextCoverage) && IsNumber(m.precision) && IsNumber(m.recall)
    && IsNumber(m.replayMatch) && IsNumber(m.staleIncidents) && IsNumber(m.parserInvocations)
    && IsNumber(m.referenceBlocks) && IsNumber(m.scaleBlocks) && IsNumber(m.searchP95) && IsNumber(m.statusP95)
    && IsNumber(m.contextRatio) && IsNumber(m.breakEven)
  }

  /** Correctness, safety and the reference workload. */
  predicate HardHolds(p: Policy, m: Metrics) {
    && AtLeast(m.anchorCorrectness, p.minimumAnchor) && AtLeast(m.contextCoverage, p.minimumCoverage)
    && AtLeast(m.precision, p.minimumPrecision) && AtLeast(m.recall, p.minimumRecall)
    && AtLeast(m.replayMatch, p.minimumReplay) && AtMost(m.staleIncidents, p.maximumStale)
    && AtMost(m.parserInvocations, p.maximumParser) && AtLeast(m.referenceBlocks, p.minimumReference)
  }

  ghost predicate FormatsHold(p: Policy, m: Metrics) {
    forall f :: f in p.requiredFormats ==> f in m.richFormats
  }

  /** Scale, latency, reduction and completeness. A search latency that was not measured is not judged. */
  ghost predicate ConditionalHolds(p: Policy, m: Metrics) {
    && FormatsHold(p, m) && AtLeast(m.scaleBlocks, p.minimumScale)
    && (m.searchP95.Some? ==> AtMost(m.searchP95, p.maximumSearchP95))
    && AtMost(m.statusP95, p.maximumStatusP95) && AtMost(m.contextRatio, p.maximumRatio)
    && AtMost(m.breakEven, p.horizon) && m.complete
  }

  // ---------------------------------------------------------------- the decision

  ghost predicate AllPassed(checks: seq<Check>) {
    forall i :: 0 <= i < |checks| ==> checks[i].passed
  }

  /** Appends the check, and the reason when it failed. */
  method Judge(checks: seq<Check>, reasons: seq<Text>, id: string, passed: bool, reason: string)
    returns (c: seq<Check>, r: seq<Text>)
    ensures c == checks + [Check(id, passed)] && |c| == |checks| + 1
    ensures AllPassed(c) <==> AllPassed(checks) && passed
    ensures r == if passed then reasons else reasons + [T(reason)]
    ensures r == [] <==> reasons == [] && passed
  {
    c, r := checks + [Check(id, passed)], if passed then reasons else reasons + [T(reason)];
    assert c[|checks|] == Check(id, passed);
    assert forall i :: 0 <= i < |checks| ==> c[i] == checks[i];
  }

  /** `tuple(dict.fromkeys(reasons))`: each reason once, in order of first appearance. */
  function Once(reasons: seq<Text>): (r: seq<Text>)
    ensures forall x :: x in r <==> x in reasons
    ensures forall i, j :: 0 <= i < j < |r| ==> r[i] != r[j]
  {
    if reasons == [] then []
    else
      var earlier := Once(reasons[..|reasons| - 1]);
      if reasons[|reasons| - 1] in earlier then earlier else earlier + [reasons[|reasons| - 1]]
  }

  method HardChecks(p: Policy, m: Metrics) returns (checks: seq<Check>, reasons: seq<Text>)
    ensures |checks| == 8 && (AllPassed(checks) <==> HardHolds(p, m))
    ensures reasons == [] <==> HardHolds(p, m)
  {
    checks, reasons := [], [];
    checks, reasons := Judge(checks, reasons, "anchor-correctness", AtLeast(m.anchorCorrectness, p.minimumAnchor),
        "anchor-correctness-failed");
    checks, reasons := Judge(checks, reasons, "context-coverage", AtLeast(m.contextCoverage, p.minimumCoverage),
        "context-coverage-failed");
    checks, reasons := Judge(checks, reasons, "precision", AtLeast(m.precision, p.minimumPrecision),
        "precision-failed");
    checks, reasons := Judge(checks, reasons, "recall", AtLeast(m.recall, p.minimumRecall), "recall-failed");
    checks, reasons := Judge(checks, reasons, "replay", AtLeast(m.replayMatch, p.minimumReplay), "replay-failed");
    checks, reasons := Judge(checks, reasons, "stale-safety", AtMost(m.staleIncidents, p.maximumStale),
        "stale-evidence-served");
    checks, reasons := Judge(checks, reasons, "unchanged-parser-avoidance",
        AtMost(m.parserInvocations, p.maximumParser), "unchanged-parser-invoked");
    checks, reasons := Judge(checks, reasons, "reference-workload", AtLeast(m.referenceBlocks, p.minimumReference),
        "reference-workload-incomplete");
  }

  /** The required formats that were not completed, in order. */
  method MissingFormats(p: Policy, m: Metrics) returns (missing: seq<Text>)
    ensures forall f :: f in missing <==> f in p.requiredFormats && f !in m.richFormats
    ensures missing == [] <==> FormatsHold(p, m)
  {
    missing := [];
    for i := 0 to |p.requiredFormats|
      invariant forall f :: f in missing <==> f in p.requiredFormats[..i] && f !in m.richFormats
    {
      if p.requiredFormats[i] !in m.richFormats { missing := missing + [p.requiredFormats[i]]; }
    }
    assert p.requiredFormats[..|p.requiredFormats|] == p.requiredFormats;
    if missing != [] { assert missing[0] in missing; }
  }

  method FormatCheck(p: Policy, m: Metrics) returns (checks: seq<Check>, reasons: seq<Text>)
    ensures checks == [Check("rich-format-completeness", FormatsHold(p, m))]
      && (AllPassed(checks) <==> FormatsHold(p, m))
    ensures reasons == [] <==> FormatsHold(p, m)
    ensures forall r :: r in reasons <==>
      exists f :: f in p.requiredFormats && f !in m.richFormats && r == f + T("-unavailable")
  {
    var missing := MissingFormats(p, m);
    checks, reasons := [Check("rich-format-completeness", missing == [])], [];
    for i := 0 to |missing|
      invariant |reasons| == i
      invariant forall k :: 0 <= k < i ==> reasons[k] == missing[k] + T("-unavailable")
    {
      reasons := reasons + [missing[i] + T("-unavailable")];
    }
    assert AllPassed(checks) <==> checks[0].passed;
    forall f | f in p.requiredFormats && f !in m.richFormats ensures f + T("-unavailable") in reasons {
      assert f in missing;
      var k :| 0 <= k < |missing| && missing[k] == f;
      assert reasons[k] in reasons;
    }
  }

  method ConditionalChecks(p: Policy, m: Metrics) returns (checks: seq<Check>, reasons: seq<Text>)
    ensures AllPassed(checks) <==> ConditionalHolds(p, m)
    ensures reasons == [] <==> ConditionalHolds(p, m)
    ensures |checks| == if m.searchP95.Some? then 7 else 6
  {
    checks, reasons := FormatCheck(p, m);
    checks, reasons := Judge(checks, reasons, "scale-workload", AtLeast(m.scaleBlocks, p.minimumScale),
        "scale-target-not-completed");
    if m.searchP95.Some? {
      checks, reasons := Judge(checks, reasons, "scale-search-latency", AtMost(m.searchP95, p.maximumSearchP95),
          "search-latency-target-missed");
    }
    checks, reasons := Judge(checks, reasons, "status-latency", AtMost(m.statusP95, p.maximumStatusP95),
        "status-latency-target-missed");
    checks, reasons := Judge(checks, reasons, "context-reduction", AtMost(m.contextRatio, p.maximumRatio),
        "context-reduction-target-missed");
    checks, reasons := Judge(checks, reasons, "break-even", AtMost(m.breakEven, p.horizon), "break-even-not-observed");
    checks, reasons := Judge(checks, reasons, "benchmark-completeness", m.complete, "benchmark-incomplete");
  }

  /** The outcome that the thresholds define. */
  ghost function OutcomeOf(p: Policy, m: Metrics): Outcome {
    if !HardHolds(p, m) then NotDemonstrated else if !ConditionalHolds(p, m) then Conditionally else Worthwhile
  }

  /** Every check passed, exactly for the unconditional outcome. */
  ghost predicate Explained(d: Decision) {
    && |d.checks| >= 8
    && (AllPassed(d.checks[..8]) <==> d.outcome != NotDemonstrated)
    && (AllPassed(d.checks) <==> d.outcome == Worthwhile)
    && (d.reasons == [] <==> d.outcome == Worthwhile)
  }

  /** `decide_value`. */
  method DecideValue(p: Policy, m: Metrics) returns (r: Result<Decision>)
    ensures r.Ok? <==> Numbers(m)
    ensures r.Ok? ==> r.value.outcome == OutcomeOf(p, m) && Explained(r.value)
    ensures r.Ok? ==> |r.value.checks| == if m.searchP95.Some? then 15 else 14
  {
    if !Numbers(m) { return Fail("ValueError"); }
    var hard, hardReasons := HardChecks(p, m);
    var conditional, conditionalReasons := ConditionalChecks(p, m);
    var checks := hard + conditional;
    assert checks[..8] == hard;
    AllPassedConcat(hard, conditional);
    NoneOnce(hardReasons);
    NoneOnce(conditionalReasons);
    if hardReasons != [] {
      r := Ok(Decision(NotDemonstrated, Once(hardReasons), checks));
    } else if conditionalReasons != [] {
      r := Ok(Decision(Conditionally, Once(conditionalReasons), checks));
    } else {
      r := Ok(Decision(Worthwhile, [], checks));
    }
  }

  lemma AllPassedConcat(a: seq<Check>, b: seq<Check>)
    ensures AllPassed(a + b) <==> AllPassed(a) && AllPassed(b)
  {
    assert forall i :: 0 <= i < |a| ==> (a + b)[i] == a[i];
    if AllPassed(a + b) {
      forall i | 0 <= i < |b| ensures b[i].passed { assert (a + b)[|a| + i] == b[i]; }
    }
  }

  lemma NoneOnce(reasons: seq<Text>)
    ensures Once(reasons) == [] <==> reasons == []
  {
    if reasons != [] { assert reasons[0] in Once(reasons); }
  }

  // ---------------------------------------------------------------- monotonicity

  /** Measured at least as high. */
  ghost predicate NoLower(a: Number, b: Number) {
    a.Some? ==> b.Some? && b.value >= a.value
  }

  ghost predicate NoHigher(a: Number, b: Number) {
    a.Some? ==> b.Some? && b.value <= a.value
  }

  /** No metric is worse in `b`. The search latency may also be left unmeasured. */
  ghost predicate Improves(a: Metrics, b: Metrics) {
    && NoLower(a.anchorCorrectness, b.anchorCorrectness) && NoLower(a.contextCoverage, b.contextCoverage)
    && NoLower(a.precision, b.precision) && NoLower(a.recall, b.recall) && NoLower(a.replayMatch, b.replayMatch)
    && NoHigher(a.staleIncidents, b.staleIncidents) && NoHigher(a.parserInvocations, b.parserInvocations)
    && NoLower(a.referenceBlocks, b.referenceBlocks) && NoLower(a.scaleBlocks, b.scaleBlocks)
    && (forall f :: f in a.richFormats ==> f in b.richFormats)
    && (b.searchP95.None? || (a.searchP95.Some? && b.searchP95.value <= a.searchP95.value))
    && NoHigher(a.statusP95, b.statusP95) && NoHigher(a.contextRatio, b.contextRatio)
    && NoHigher(a.breakEven, b.breakEven) && (a.complete ==> b.complete)
  }

  function Rank(o: Outcome): nat {
    match o case NotDemonstrated => 0 case Conditionally => 1 case Worthwhile => 2
  }

  /** If no metric is worse, the outcome is no lower. */
  lemma OutcomesAreMonotone(p: Policy, a: Metrics, b: Metrics)
    requires Improves(a, b)
    ensures Rank(OutcomeOf(p, a)) <= Rank(OutcomeOf(p, b))
  {
    if FormatsHold(p, a) {
      forall f | f in p.requiredFormats ensures f in b.richFormats { assert f in a.richFormats; }
    }
  }

  /**
    Measuring the search latency can only lower the outcome, and lowers it exactly when everything else
    holds and the latency misses its target: an unmeasured latency passes.
   */
  lemma UnmeasuredSearchPasses(p: Policy, m: Metrics, latency: real)
    ensures var unmeasured, measured := OutcomeOf(p, m.(searchP95 := None)),
      OutcomeOf(p, m.(searchP95 := Some(latency)));
            && Rank(measured) <= Rank(unmeasured)
            && (measured != unmeasured <==> unmeasured == Worthwhile && latency > p.maximumSearchP95)
  {
    var n, s := m.(searchP95 := None), m.(searchP95 := Some(latency));
    assert FormatsHold(p, n) <==> FormatsHold(p, s);
  }
}
