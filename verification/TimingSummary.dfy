/**
  `summarize_timing`: the deterministic summary of one homogeneous timing group.

  The random generator is seeded by the ordered identifiers; its draws are a parameter, any
  function of those identifiers, the resample and the position. The float products in the percentile
  indices are exact fractions.
 */
module TimingSummary {
  import opened Wrappers
  import opened Statistics

  datatype Metric = Latency | CpuTime | OtherMetric
  datatype Unit = Nanoseconds | OtherUnit

  /** What must agree within a group. `labels` stands for the remaining identifying fields. */
  datatype Group = Group(metric: Metric, unit: Unit, labels: seq<string>)

  datatype Observation = Observation(group: Group, passed: bool, repetition: int, id: string, value: nat)

  datatype Summary = Summary(group: Group, sampleCount: nat, p50: int, p95: int, deviation: int,
                             confidenceLow: int, confidenceHigh: int, ids: seq<string>)

  type Draw = (seq<string>, nat, nat) -> nat

  /** `_integer_median`. */
  function Median(values: seq<int>): int
    requires values != []
  {
    SortedFacts(values);
    var s, middle := Sorted(values), |values| / 2;
    if |s| % 2 == 1 then s[middle] else FloorHalf(s[middle - 1] + s[middle])
  }

  /** Python's `// 2`. */
  function FloorHalf(x: int): (h: int)
    ensures 2 * h <= x <= 2 * h + 1
  {
    x / 2
  }

  predicate ByRepetition(a: Observation, b: Observation) {
    a.repetition <= b.repetition
  }

  function Ids(observations: seq<Observation>): (r: seq<string>)
    ensures |r| == |observations|
  {
    seq(|observations|, i requires 0 <= i < |observations| => observations[i].id)
  }

  function Values(observations: seq<Observation>): (r: seq<int>)
    ensures |r| == |observations|
  {
    seq(|observations|, i requires 0 <= i < |observations| => observations[i].value)
  }

  function Deviations(values: seq<int>, centre: int): (r: seq<int>)
    ensures |r| == |values|
  {
    seq(|values|, i requires 0 <= i < |values| =>
      if values[i] < centre then centre - values[i] else values[i] - centre)
  }

  /** One resample: as many draws with replacement as there are values. */
  function Resample(values: seq<int>, ids: seq<string>, draw: Draw, round: nat): (r: seq<int>)
    requires values != []
    ensures |r| == |values|
    ensures forall i :: 0 <= i < |r| ==> r[i] in values
  {
    seq(|values|, i requires 0 <= i < |values| => values[draw(ids, round, i) % |values|])
  }

  function Bootstrap(values: seq<int>, ids: seq<string>, draw: Draw, rounds: nat): (r: seq<int>)
    requires values != []
    ensures |r| == rounds
  {
    if rounds == 0 then []
    else Bootstrap(values, ids, draw, rounds - 1) + [Median(Resample(values, ids, draw, rounds - 1))]
  }

  predicate IsTiming(group: Group) {
    (group.metric.Latency? || group.metric.CpuTime?) && group.unit.Nanoseconds?
  }

  /** One group of passed timings whose repetitions and identifiers are unique. */
  ghost predicate Homogeneous(observations: seq<Observation>) {
    && observations != [] && IsTiming(observations[0].group)
    && (forall x :: x in observations ==> x.group == observations[0].group && x.passed)
    && Distinct(SortBy(observations, ByRepetition))
  }

  ghost predicate Distinct(ordered: seq<Observation>) {
    && (forall i, j :: 0 <= i < j < |ordered| ==> ordered[i].repetition < ordered[j].repetition)
    && (forall i, j :: 0 <= i < j < |ordered| ==> ordered[i].id != ordered[j].id)
  }

  function Summarize(observations: seq<Observation>, draw: Draw, rounds: nat): Summary
    requires observations != [] && rounds >= 1
  {
    var ordered := SortBy(observations, ByRepetition);
    SortByIsPermutation(observations, ByRepetition);
    var ids, values := Ids(ordered), Values(ordered);
    var median := Median(values);
    var bootstrap := Bootstrap(values, ids, draw, rounds);
    Summary(observations[0].group, |values|, median, NearestRank(values, 95, 100),
            Median(Deviations(values, median)),
            NearestRank(bootstrap, 25, 1000), NearestRank(bootstrap, 975, 1000), ids)
  }

  /** The checks of `summarize_timing`, in their order. */
  method CheckGroup(observations: seq<Observation>) returns (r: Result<()>)
    requires observations != []
    ensures r.Ok? <==> Homogeneous(observations)
  {
    var group := observations[0].group;
    if !(group.metric.Latency? || group.metric.CpuTime?) {
      return Fail("metric");
    }
    if !group.unit.Nanoseconds? {
      return Fail("unit");
    }
    if exists x :: x in observations && x.group != group {
      return Fail("homogeneous");
    }
    if exists x :: x in observations && !x.passed {
      return Fail("status");
    }
    var ordered := SortBy(observations, ByRepetition);
    if exists i :: 0 <= i < |ordered| - 1 && ordered[i].repetition >= ordered[i + 1].repetition {
      return Fail("repetition");
    }
    Consecutive(ordered);
    if exists i, j :: 0 <= i < j < |ordered| && ordered[i].id == ordered[j].id {
      return Fail("identity");
    }
    return Ok(());
  }

  /** The loop over the resamples. */
  method RunBootstrap(values: seq<int>, ids: seq<string>, draw: Draw, rounds: nat) returns (medians: seq<int>)
    requires values != []
    ensures medians == Bootstrap(values, ids, draw, rounds)
  {
    medians := [];
    for round := 0 to rounds
      invariant medians == Bootstrap(values, ids, draw, round)
    {
      medians := medians + [Median(Resample(values, ids, draw, round))];
    }
  }

  /** `summarize_timing`: which observations it accepts, and the summary it returns for them. */
  method SummarizeTiming(observations: seq<Observation>, minimumSamples: int, rounds: int, draw: Draw)
    returns (r: Result<Summary>)
    ensures r.Ok? <==> minimumSamples >= 1 && rounds >= 1 && |observations| >= minimumSamples
                       && Homogeneous(observations)
    ensures r.Ok? ==> r.value == Summarize(observations, draw, rounds)
  {
    if minimumSamples < 1 || rounds < 1 {
      return Fail("bounds");
    }
    if |observations| < minimumSamples {
      return Fail("samples");
    }
    var _ :- CheckGroup(observations);
    SortByIsPermutation(observations, ByRepetition);
    var ordered := SortBy(observations, ByRepetition);
    var ids, values := Ids(ordered), Values(ordered);
    var median := Median(values);
    var bootstrap := RunBootstrap(values, ids, draw, rounds);
    return Ok(Summary(observations[0].group, |values|, median, NearestRank(values, 95, 100),
                      Median(Deviations(values, median)),
                      NearestRank(bootstrap, 25, 1000), NearestRank(bootstrap, 975, 1000), ids));
  }

  lemma {:induction false} Consecutive(s: seq<Observation>)
    requires forall i :: 0 <= i < |s| - 1 ==> s[i].repetition < s[i + 1].repetition
    ensures forall i, j :: 0 <= i < j < |s| ==> s[i].repetition < s[j].repetition
  {
    if |s| > 1 {
      var n := |s| - 1;
      Consecutive(s[..n]);
      forall i | 0 <= i < n ensures s[i].repetition < s[n].repetition {
        assert i < n - 1 ==> s[..n][i].repetition < s[..n][n - 1].repetition;
      }
    }
  }

  // ---------------------------------------------------------------- order of the observations

  lemma UniqueRepetitionsHaveNoTies(observations: seq<Observation>)
    requires Distinct(SortBy(observations, ByRepetition))
    ensures NoTies(observations, ByRepetition)
  {
    var ordered := SortBy(observations, ByRepetition);
    SortByIsPermutation(observations, ByRepetition);
    forall a, b | a in observations && b in observations && ByRepetition(a, b) && ByRepetition(b, a) ensures a == b {
      assert a in multiset(ordered) && b in multiset(ordered);
      var i :| 0 <= i < |ordered| && ordered[i] == a;
      var j :| 0 <= j < |ordered| && ordered[j] == b;
    }
  }

  /** The order in which observations arrive changes neither acceptance nor the summary. */
  lemma SummaryIgnoresOrder(a: seq<Observation>, b: seq<Observation>, draw: Draw, rounds: nat)
    requires multiset(a) == multiset(b) && rounds >= 1
    ensures |a| == |b|
    ensures Homogeneous(a) ==> Homogeneous(b) && Summarize(a, draw, rounds) == Summarize(b, draw, rounds)
  {
    assert |multiset(a)| == |a| && |multiset(b)| == |b|;
    if Homogeneous(a) {
      assert Preorder(ByRepetition);
      UniqueRepetitionsHaveNoTies(a);
      SortIgnoresOrder(a, b, ByRepetition);
      assert forall x :: x in b <==> x in multiset(b);
      assert forall x :: x in a <==> x in multiset(a);
      assert b[0] in b;
    }
  }

  // ---------------------------------------------------------------- bounds of the summary

  lemma MedianBetween(values: seq<int>, low: int, high: int)
    requires values != [] && forall x :: x in values ==> low <= x <= high
    ensures low <= Median(values) <= high
  {
    SortedFacts(values);
    var s, middle := Sorted(values), |values| / 2;
    assert s[middle] in s;
    if |s| % 2 == 0 { assert s[middle - 1] in s; }
  }

  /** The median never exceeds the 95th percentile. */
  lemma MedianAtMostP95(values: seq<int>)
    requires values != []
    ensures Median(values) <= NearestRank(values, 95, 100)
  {
    var n := |values|;
    SortedFacts(values);
    RankIndexInRange(n, 95, 100);
    assert n / 2 <= RankIndex(n, 95, 100) by { HalfBelowRank(n); }
    var s := Sorted(values);
    assert s[n / 2] <= s[RankIndex(n, 95, 100)];
  }

  lemma HalfBelowRank(n: nat)
    requires n > 0
    ensures n / 2 <= RankIndex(n, 95, 100)
  {
    var c := CeilDiv(n * 95, 100);
    assert c * 100 >= n * 95;
  }

  lemma {:induction false} BootstrapBetween(values: seq<int>, ids: seq<string>, draw: Draw, rounds: nat,
                                            low: int, high: int)
    requires values != [] && forall x :: x in values ==> low <= x <= high
    ensures forall x :: x in Bootstrap(values, ids, draw, rounds) ==> low <= x <= high
  {
    if rounds > 0 {
      BootstrapBetween(values, ids, draw, rounds - 1, low, high);
      MedianBetween(Resample(values, ids, draw, rounds - 1), low, high);
    }
  }

  /**
    For every way of drawing the resamples: the median is at most the 95th percentile, the confidence
    bounds are in order, and all four lie within the range of the sample.
   */
  lemma SummaryIsWithinSample(observations: seq<Observation>, draw: Draw, rounds: nat, low: int, high: int)
    requires observations != [] && rounds >= 1
    requires forall x :: x in observations ==> low <= x.value <= high
    ensures var r := Summarize(observations, draw, rounds);
            && low <= r.p50 <= r.p95 <= high
            && low <= r.confidenceLow <= r.confidenceHigh <= high
            && r.sampleCount == |observations|
  {
    var ordered := SortBy(observations, ByRepetition);
    SortByIsPermutation(observations, ByRepetition);
    var ids, values := Ids(ordered), Values(ordered);
    forall x | x in values ensures low <= x <= high {
      var i :| 0 <= i < |values| && values[i] == x;
      assert ordered[i] in multiset(ordered) && ordered[i] in observations;
    }
    MedianBetween(values, low, high);
    MedianAtMostP95(values);
    NearestRankIsOrderStatistic(values, 95, 100);
    var bootstrap := Bootstrap(values, ids, draw, rounds);
    BootstrapBetween(values, ids, draw, rounds, low, high);
    NearestRankIsOrderStatistic(bootstrap, 25, 1000);
    NearestRankIsOrderStatistic(bootstrap, 975, 1000);
    NearestRankIsMonotone(bootstrap, 25, 975, 1000);
  }
}
