/**
  The exact metrics over accepted observation rows. Rationals are reals; the six-digit text of a ratio is
  in module Rounding.
 */
module HoldoutMetrics {
  import opened Wrappers
  import opened Unicode
  import opened CanonicalJson
  import opened PythonValues
  import opened HoldoutRows
  import opened HoldoutSupport
  import Rounding
  import OR = ObservationRows
  import OP = ObservationProducer

  /** What the metrics read of an accepted row. */
  datatype Scored = Scored(questionId: Text, passed: bool, views: seq<View>, facts: Facts)

  type Bank = map<Text, Question>

  // ---------------------------------------------------------------- reading an accepted row

  /** `int(row[k])` is the number. */
  predicate ReadsInt(parse: OR.ReadInt, row: OR.Row, k: OR.RowKey, n: int) {
    k in row.fields && IntOf(parse, row.fields[k]) == Some(n)
  }

  /** `bool(row[k])` is the truth. */
  predicate ReadsBool(row: OR.Row, k: OR.RowKey, b: bool) {
    k in row.fields && Truthy(row.fields[k]) == b
  }

  /** `len(row[k])` is the number. */
  predicate ReadsLength(row: OR.Row, k: OR.RowKey, n: nat) {
    k in row.fields && row.fields[k].JArr? && |row.fields[k].items| == n
  }

  /** Everything that `_metrics` reads of the row is what the facts say. */
  predicate Reads(parse: OR.ReadInt, row: OR.Row, f: Facts) {
    && ReadsBool(row, OR.FullSupport, f.fullSupport) && ReadsBool(row, OR.Abstained, f.abstained)
    && ReadsLength(row, OR.CoveredAtomIds, |f.coveredAtoms|)
      && ReadsLength(row, OR.CoveredSourceKeys, |f.coveredSources|)
    && ReadsInt(parse, row, OR.RequiredAtomCount, f.requiredAtoms)
    && ReadsInt(parse, row, OR.RequiredSourceCount, f.requiredSources)
    && ReadsInt(parse, row, OR.RelevantCount, f.relevantCount)
      && ReadsInt(parse, row, OR.SelectedCount, f.selectedCount)
    && ReadsBool(row, OR.FirstRelevantRank, f.firstRelevant.Some?)
    && (f.firstRelevant.Some? ==> ReadsInt(parse, row, OR.FirstRelevantRank, f.firstRelevant.value))
  }

  lemma FactReads(parse: OR.ReadInt, row: OR.Row, f: Facts, k: OR.RowKey)
    requires OR.KeysClosed(row) && OR.FactsMatch(row.fields, f) && OR.IsDerived(k)
    ensures OR.FactValue(f, k).JInt? ==> ReadsInt(parse, row, k, OR.FactValue(f, k).i)
    ensures OR.FactValue(f, k).JInt? ==> ReadsBool(row, k, OR.FactValue(f, k).i != 0)
    ensures OR.FactValue(f, k).JBool? ==> ReadsBool(row, k, OR.FactValue(f, k).b)
    ensures OR.FactValue(f, k).JArr? ==> ReadsLength(row, k, |OR.FactValue(f, k).items|)
    ensures OR.FactValue(f, k).JNull? ==> ReadsBool(row, k, false)
  {
    var v, w := row.fields[k], OR.FactValue(f, k);
    assert Equals(v, w);
    if w.JInt? { EqualNumbersReadAlike(parse, v, w.i); }
    if w.JBool? { EqualNumbersReadAlike(parse, v, if w.b then 1 else 0); }
    if w.JArr? { EqualLists(v, w); }
  }

  lemma EqualLists(v: Json, w: Json)
    requires Equals(v, w) && w.JArr?
    ensures v.JArr? && |v.items| == |w.items|
  {
    assert |Comparable(w).items| == |w.items|;
    if v.JArr? { assert |Comparable(v).items| == |v.items|; }
  }

  lemma RankReads(parse: OR.ReadInt, row: OR.Row, f: Facts)
    requires OR.KeysClosed(row) && OR.FactsMatch(row.fields, f)
      && (f.firstRelevant.Some? ==> f.firstRelevant.value >= 1)
    ensures ReadsBool(row, OR.FirstRelevantRank, f.firstRelevant.Some?)
    ensures f.firstRelevant.Some? ==> ReadsInt(parse, row, OR.FirstRelevantRank, f.firstRelevant.value)
  {
    FactReads(parse, row, f, OR.FirstRelevantRank);
  }

  /** An accepted row reads as its facts, however it writes them. */
  lemma AcceptedRowReads(parse: OR.ReadInt, row: OR.Row, q: Question, digest: OR.Digest, f: Facts)
    requires OR.Fits(row, q, parse, digest, f)
    ensures Reads(parse, row, f)
    ensures ValidFor(Scored(q.id, OR.Passed(row), OR.ViewsOf(parse, row), f), q)
  {
    FlagsRead(parse, row, f);
    CountsRead(parse, row, f);
    RankReads(parse, row, f);
  }

  lemma FlagsRead(parse: OR.ReadInt, row: OR.Row, f: Facts)
    requires OR.KeysClosed(row) && OR.FactsMatch(row.fields, f)
    ensures ReadsBool(row, OR.FullSupport, f.fullSupport) && ReadsBool(row, OR.Abstained, f.abstained)
    ensures ReadsLength(row, OR.CoveredAtomIds, |f.coveredAtoms|)
    ensures ReadsLength(row, OR.CoveredSourceKeys, |f.coveredSources|)
  {
    FactReads(parse, row, f, OR.FullSupport);
    FactReads(parse, row, f, OR.Abstained);
    FactReads(parse, row, f, OR.CoveredAtomIds);
    FactReads(parse, row, f, OR.CoveredSourceKeys);
  }

  lemma CountsRead(parse: OR.ReadInt, row: OR.Row, f: Facts)
    requires OR.KeysClosed(row) && OR.FactsMatch(row.fields, f)
    ensures ReadsInt(parse, row, OR.RequiredAtomCount, f.requiredAtoms)
    ensures ReadsInt(parse, row, OR.RequiredSourceCount, f.requiredSources)
    ensures ReadsInt(parse, row, OR.RelevantCount, f.relevantCount)
    ensures ReadsInt(parse, row, OR.SelectedCount, f.selectedCount)
  {
    FactReads(parse, row, f, OR.RequiredAtomCount);
    FactReads(parse, row, f, OR.RequiredSourceCount);
    FactReads(parse, row, f, OR.RelevantCount);
    FactReads(parse, row, f, OR.SelectedCount);
  }

  // ---------------------------------------------------------------- totals

  type Weight = Scored -> real

  function Total(rows: seq<Scored>, f: Weight): real {
    if rows == [] then 0.0 else f(rows[0]) + Total(rows[1..], f)
  }

  ghost predicate Pointwise(rows: seq<Scored>, f: Weight, g: Weight) {
    forall k :: 0 <= k < |rows| ==> 0.0 <= f(rows[k]) <= g(rows[k])
  }

  ghost predicate Equal(rows: seq<Scored>, f: Weight, g: Weight) {
    forall k :: 0 <= k < |rows| ==> f(rows[k]) == g(rows[k])
  }

  lemma {:induction false} TotalsCompare(rows: seq<Scored>, f: Weight, g: Weight)
    requires Pointwise(rows, f, g)
    ensures 0.0 <= Total(rows, f) <= Total(rows, g)
    ensures Total(rows, f) == Total(rows, g) <==> Equal(rows, f, g)
  {
    if rows != [] {
      assert forall k :: 0 <= k < |rows| - 1 ==> rows[1..][k] == rows[k + 1];
      TotalsCompare(rows[1..], f, g);
      assert Equal(rows, f, g) <==> f(rows[0]) == g(rows[0]) && Equal(rows[1..], f, g) by {
        if f(rows[0]) == g(rows[0]) && Equal(rows[1..], f, g) {
          forall k | 0 <= k < |rows| ensures f(rows[k]) == g(rows[k]) {
            if k > 0 { assert rows[1..][k - 1] == rows[k]; }
          }
        }
      }
    }
  }

  lemma {:induction false} TotalOfOnes(rows: seq<Scored>)
    ensures Total(rows, One) == |rows| as real
  {
    if rows != [] { TotalOfOnes(rows[1..]); }
  }

  // ---------------------------------------------------------------- weights

  function One(row: Scored): real { 1.0 }

  function Flag(b: bool): real { if b then 1.0 else 0.0 }

  function Supported(row: Scored): real { Flag(row.facts.fullSupport) }

  function Abstained(row: Scored): real { Flag(row.facts.abstained) }

  function Atoms(row: Scored): real { |row.facts.coveredAtoms| as real }

  function AtomsAsked(row: Scored): real { row.facts.requiredAtoms as real }

  function Sources(row: Scored): real { |row.facts.coveredSources| as real }

  function SourcesAsked(row: Scored): real { row.facts.requiredSources as real }

  function Relevant(row: Scored): real { row.facts.relevantCount as real }

  function Selected(row: Scored): real { row.facts.selectedCount as real }

  function ValidCitations(row: Scored): real { CountValid(row.views) as real }

  /** 1/rank of the first relevant item; zero without one. A rank of zero counts as none. */
  function Reciprocal(row: Scored): real {
    match row.facts.firstRelevant
    case Some(rank) => if rank == 0 then 0.0 else 1.0 / rank as real
    case None => 0.0
  }

  // ---------------------------------------------------------------- metrics

  /** `_fraction`: an empty denominator is 0, or 1 where the metric holds vacuously. */
  function Fraction(n: real, d: real, vacuous: bool): real
    requires d >= 0.0
  {
    if d == 0.0 then (if vacuous then 1.0 else 0.0) else n / d
  }

  lemma FractionInUnit(n: real, d: real, vacuous: bool)
    requires 0.0 <= n <= d
    ensures 0.0 <= Fraction(n, d, vacuous) <= 1.0
    ensures d > 0.0 ==> (Fraction(n, d, vacuous) == 1.0 <==> n == d)
  {
    if d > 0.0 {
      var q := n / d;
      assert q * d == n;
      assert (1.0 - q) * d == d - n;
    }
  }

  /** The rows whose question is answerable, or is not. */
  function Where(rows: seq<Scored>, bank: Bank, answerable: bool): (r: seq<Scored>)
    requires Known(rows, bank)
    ensures forall k :: 0 <= k < |r| ==>
      r[k] in rows && r[k].questionId in bank && bank[r[k].questionId].answerable == answerable
    ensures forall row :: row in rows && bank[row.questionId].answerable == answerable ==> row in r
  {
    if rows == [] then []
    else
      assert Known(rows[1..], bank);
      (if bank[rows[0].questionId].answerable == answerable then [rows[0]] else [])
      + Where(rows[1..], bank, answerable)
  }

  ghost predicate Known(rows: seq<Scored>, bank: Bank) {
    forall row :: row in rows ==> row.questionId in bank
  }

  function CountValid(views: seq<View>): (n: nat)
    ensures n <= |views|
  {
    if views == [] then 0 else CountValid(views[..|views| - 1]) + if views[|views| - 1].citationValid then 1 else 0
  }

  datatype Metrics = Metrics(fullSupport: real, atomRecall: real, sourceRecall: real, evidencePrecision: real,
                             mrr: real, citationIntegrity: real, unsupportedAbstention: real)

  function Share(rows: seq<Scored>, part: Weight, whole: Weight, vacuous: bool): real {
    var d := Total(rows, whole);
    if d < 0.0 then 0.0 else Fraction(Total(rows, part), d, vacuous)
  }

  /** `_metrics`. */
  function Measure(rows: seq<Scored>, bank: Bank): Metrics
    requires Known(rows, bank)
  {
    var answerable, unsupported := Where(rows, bank, true), Where(rows, bank, false);
    Metrics(Share(answerable, Supported, One, false), Share(answerable, Atoms, AtomsAsked, false),
            Share(answerable, Sources, SourcesAsked, false), Share(rows, Relevant, Selected, false),
            Share(answerable, Reciprocal, One, false), Share(rows, ValidCitations, Selected, true),
            Share(unsupported, Abstained, One, false))
  }

  lemma ShareInUnit(rows: seq<Scored>, part: Weight, whole: Weight, vacuous: bool)
    requires Pointwise(rows, part, whole)
    ensures 0.0 <= Share(rows, part, whole, vacuous) <= 1.0
    ensures Total(rows, whole) > 0.0 ==> (Share(rows, part, whole, vacuous) == 1.0 <==> Equal(rows, part, whole))
    ensures vacuous ==> (Share(rows, part, whole, vacuous) == 1.0 <==> Equal(rows, part, whole))
  {
    TotalsCompare(rows, part, whole);
    FractionInUnit(Total(rows, part), Total(rows, whole), vacuous);
  }

  // ---------------------------------------------------------------- rows with valid facts

  /** The row's facts hold of its items, for the question. */
  ghost predicate ValidFor(row: Scored, q: Question) {
    row.questionId == q.id && FactsHold(q, row.passed, row.views, row.facts)
  }

  ghost predicate Valid(row: Scored, bank: Bank) {
    row.questionId in bank && ValidFor(row, bank[row.questionId])
  }

  ghost predicate AllValid(rows: seq<Scored>, bank: Bank) {
    forall row :: row in rows ==> Valid(row, bank)
  }

  /** Every identifier that a selected item covers is one of the question's atoms. */
  ghost predicate OwnAtoms(row: Scored, q: Question) {
    forall i, id :: 0 <= i < |row.views| && id in row.views[i].covered ==> id in AtomIds(q)
  }

  /** Answerable rows cover their own atoms only. Nothing in the validation asks for it. */
  ghost predicate AllOwnAtoms(rows: seq<Scored>, bank: Bank) {
    forall row :: row in rows && row.questionId in bank && bank[row.questionId].answerable ==>
      OwnAtoms(row, bank[row.questionId])
  }

  /** Items selected from evidence cover the question's own atoms. */
  lemma SelectedIsOwn(normalize: Text -> Text, row: Scored, q: Question, evidence: seq<Evidence>)
    requires row.views == Views(Select(normalize, q, evidence))
    ensures OwnAtoms(row, q)
  {
    forall i, id | 0 <= i < |row.views| && id in row.views[i].covered ensures id in AtomIds(q) {
      assert CoversAtom(row.views, id);
      SelectedCoversOwnAtoms(normalize, q, evidence, id);
    }
  }

  lemma {:induction false} RelevantAtMost(views: seq<View>)
    ensures |RelevantAt(views)| <= |views|
  {
    if views == [] {
      assert RelevantAt(views) == {};
    } else {
      var n := |views| - 1;
      RelevantAtMost(views[..n]);
      RelevantOneMore(views, n);
      assert views[..n + 1] == views;
    }
  }

  /** Sources, relevance and citations of a valid row are within their bounds. */
  lemma ValidRowWithinBounds(row: Scored, bank: Bank)
    requires Valid(row, bank)
    ensures Sources(row) <= SourcesAsked(row) && Relevant(row) <= Selected(row) && ValidCitations(row) <= Selected(row)
  {
    var q := bank[row.questionId];
    forall s | s in row.facts.coveredSources ensures s in q.requiredSources {
      assert CoversSource(row.views, q, s);
    }
    SublistSize(row.facts.coveredSources, q.requiredSources);
    RelevantAtMost(row.views);
  }

  /** So are the atoms, when they are the question's own. */
  lemma OwnAtomsWithinBounds(row: Scored, bank: Bank)
    requires Valid(row, bank) && OwnAtoms(row, bank[row.questionId])
    ensures Atoms(row) <= AtomsAsked(row)
  {
    var q := bank[row.questionId];
    forall id | id in row.facts.coveredAtoms ensures id in AtomIds(q) {
      assert CoversAtom(row.views, id);
    }
    SublistSize(row.facts.coveredAtoms, AtomIds(q));
  }

  lemma ReciprocalInUnit(row: Scored)
    ensures 0.0 <= Reciprocal(row) <= 1.0
    ensures Reciprocal(row) == 1.0 <==> row.facts.firstRelevant == Some(1)
  {
    if row.facts.firstRelevant.Some? && row.facts.firstRelevant.value > 0 {
      OneOver(row.facts.firstRelevant.value as real);
    }
  }

  lemma OneOver(rank: real)
    requires rank >= 1.0
    ensures 0.0 <= 1.0 / rank <= 1.0
    ensures 1.0 / rank == 1.0 <==> rank == 1.0
  {
    FractionInUnit(1.0, rank, false);
  }

  lemma ValidRowsWithinBounds(rows: seq<Scored>, bank: Bank)
    requires AllValid(rows, bank)
    ensures Pointwise(rows, Sources, SourcesAsked) && Pointwise(rows, Relevant, Selected)
    ensures Pointwise(rows, ValidCitations, Selected) && Pointwise(rows, Reciprocal, One)
  {
    forall k | 0 <= k < |rows|
      ensures Sources(rows[k]) <= SourcesAsked(rows[k]) && Relevant(rows[k]) <= Selected(rows[k])
      ensures ValidCitations(rows[k]) <= Selected(rows[k]) && 0.0 <= Reciprocal(rows[k]) <= 1.0
    {
      ValidRowWithinBounds(rows[k], bank);
      ReciprocalInUnit(rows[k]);
    }
  }

  lemma OwnRowsWithinBounds(rows: seq<Scored>, bank: Bank)
    requires AllValid(rows, bank) && forall row :: row in rows ==> OwnAtoms(row, bank[row.questionId])
    ensures Pointwise(rows, Atoms, AtomsAsked)
  {
    forall k | 0 <= k < |rows| ensures Atoms(rows[k]) <= AtomsAsked(rows[k]) { OwnAtomsWithinBounds(rows[k], bank); }
  }

  ghost predicate InUnit(r: real) {
    0.0 <= r <= 1.0
  }

  ghost predicate AllInUnit(m: Metrics) {
    && InUnit(m.fullSupport) && InUnit(m.atomRecall) && InUnit(m.sourceRecall) && InUnit(m.evidencePrecision)
    && InUnit(m.mrr) && InUnit(m.citationIntegrity) && InUnit(m.unsupportedAbstention)
  }

  lemma AnswerableShares(answerable: seq<Scored>, bank: Bank)
    requires AllValid(answerable, bank) && forall row :: row in answerable ==> OwnAtoms(row, bank[row.questionId])
    ensures InUnit(Share(answerable, Supported, One, false)) && InUnit(Share(answerable, Atoms, AtomsAsked, false))
    ensures InUnit(Share(answerable, Sources, SourcesAsked, false)) && InUnit(Share(answerable, Reciprocal, One, false))
  {
    ValidRowsWithinBounds(answerable, bank);
    OwnRowsWithinBounds(answerable, bank);
    ShareInUnit(answerable, Supported, One, false);
    ShareInUnit(answerable, Atoms, AtomsAsked, false);
    ShareInUnit(answerable, Sources, SourcesAsked, false);
    ShareInUnit(answerable, Reciprocal, One, false);
  }

  lemma OverallShares(rows: seq<Scored>, unsupported: seq<Scored>, bank: Bank)
    requires AllValid(rows, bank)
    ensures InUnit(Share(rows, Relevant, Selected, false)) && InUnit(Share(rows, ValidCitations, Selected, true))
    ensures InUnit(Share(unsupported, Abstained, One, false))
  {
    ValidRowsWithinBounds(rows, bank);
    ShareInUnit(rows, Relevant, Selected, false);
    ShareInUnit(rows, ValidCitations, Selected, true);
    ShareInUnit(unsupported, Abstained, One, false);
  }

  /** When answerable rows cover their own atoms only, every metric lies between zero and one. */
  lemma MetricsAreFractions(rows: seq<Scored>, bank: Bank)
    requires AllValid(rows, bank) && AllOwnAtoms(rows, bank)
    ensures Known(rows, bank)
    ensures AllInUnit(Measure(rows, bank))
  {
    assert AllValid(Where(rows, bank, true), bank);
    AnswerableShares(Where(rows, bank, true), bank);
    OverallShares(rows, Where(rows, bank, false), bank);
  }

  // ---------------------------------------------------------------- a run that was observed and accepted

  /** The rows that are measured: what the validator has read and derived, row by row. */
  function ScoredOf(parse: OR.ReadInt, rows: seq<OR.Row>, labels: seq<OP.Label>, facts: seq<Facts>): (r: seq<Scored>)
    requires |rows| == |labels| == |facts|
    requires forall k :: 0 <= k < |rows| ==> OR.KeysClosed(rows[k]) && OR.ItemsReadable(parse, rows[k])
    ensures |r| == |rows|
  {
    seq(|rows|, k requires 0 <= k < |rows| =>
      Scored(labels[k].0, OR.Passed(rows[k]), OR.ViewsOf(parse, rows[k]), facts[k]))
  }

  lemma ObservedRowMeasures(s: OP.Setting, row: OR.Row, pair: OP.Label, parse: OR.ReadInt, f: Facts, scored: Scored)
    requires OP.ObservedRow(s, row, pair, parse) && s.bank[pair.0].id == pair.0
    requires OR.Fits(row, s.bank[pair.0], parse, s.digest, f)
    requires scored == Scored(pair.0, OR.Passed(row), OR.ViewsOf(parse, row), f)
    ensures Valid(scored, s.bank) && OwnAtoms(scored, s.bank[pair.0])
  {
    AcceptedRowReads(parse, row, s.bank[pair.0], s.digest, f);
    SelectedIsOwn(s.normalize, scored, s.bank[pair.0], s.queries(pair.0, pair.1).evidence);
  }

  /** Every row that a run writes and the validator accepts covers its own atoms only. */
  lemma ObservedRowsMeasure(s: OP.Setting, rows: seq<OR.Row>, labels: seq<OP.Label>, parse: OR.ReadInt,
                            facts: seq<Facts>)
    requires OP.Observed(s, rows, labels, parse)
    requires forall k :: 0 <= k < |labels| ==> labels[k].0 in s.bank && s.bank[labels[k].0].id == labels[k].0
    requires OR.AllFit(rows, OR.QuestionsOf(labels, s.bank), parse, s.digest, facts)
    ensures var scored := ScoredOf(parse, rows, labels, facts);
            AllValid(scored, s.bank) && AllOwnAtoms(scored, s.bank)
  {
    var scored := ScoredOf(parse, rows, labels, facts);
    forall k | 0 <= k < |scored| ensures Valid(scored[k], s.bank) && OwnAtoms(scored[k], s.bank[labels[k].0]) {
      assert OP.ObservedRow(s, rows[k], labels[k], parse);
      assert OR.Fits(rows[k], OR.QuestionsOf(labels, s.bank)[k], parse, s.digest, facts[k]);
      ObservedRowMeasures(s, rows[k], labels[k], parse, facts[k], scored[k]);
    }
  }

  /**
    From a run to its metrics: of the rows that the run writes, with the facts that the validator derives for
    them, every metric lies between zero and one.
   */
  lemma ObservedMetricsAreFractions(s: OP.Setting, rows: seq<OR.Row>, ids: seq<Text>, treatments: seq<Text>,
                                    labels: seq<OP.Label>, parse: OR.ReadInt, facts: seq<Facts>)
    requires OR.Filed(s.bank, ids) && labels == OR.Expected(ids, treatments) && OP.Observed(s, rows, labels, parse)
    requires forall k :: 0 <= k < |labels| ==> labels[k].0 in s.bank
    requires OR.AllFit(rows, OR.QuestionsOf(labels, s.bank), parse, s.digest, facts)
    ensures var scored := ScoredOf(parse, rows, labels, facts);
            Known(scored, s.bank) && AllInUnit(Measure(scored, s.bank))
  {
    ObservedRowsMeasure(s, rows, labels, parse, facts);
    MetricsAreFractions(ScoredOf(parse, rows, labels, facts), s.bank);
  }

  /** In all, no more atoms are covered than are asked for, unless none is asked for. */
  ghost predicate NoMoreThanAsked(rows: seq<Scored>) {
    Total(rows, AtomsAsked) <= 0.0 || Total(rows, Atoms) <= Total(rows, AtomsAsked)
  }

  lemma RecallByTotals(rows: seq<Scored>, bank: Bank)
    requires Known(rows, bank)
    ensures Measure(rows, bank).atomRecall <= 1.0 <==> NoMoreThanAsked(Where(rows, bank, true))
  {
    var answerable := Where(rows, bank, true);
    FractionAtMostOne(Total(answerable, Atoms), Total(answerable, AtomsAsked));
  }

  /** Identifiers that the row covers and that are none of the question's atoms. */
  function Foreign(row: Scored, q: Question): nat {
    |Members(row.facts.coveredAtoms) - Members(AtomIds(q))|
  }

  /** Atoms of the question that the row does not cover. */
  function Missed(row: Scored, q: Question): nat {
    |Members(AtomIds(q)) - Members(row.facts.coveredAtoms)|
  }

  function ForeignIn(bank: Bank): Weight {
    (row: Scored) => if row.questionId in bank then Foreign(row, bank[row.questionId]) as real else 0.0
  }

  function MissedIn(bank: Bank): Weight {
    (row: Scored) => if row.questionId in bank then Missed(row, bank[row.questionId]) as real else 0.0
  }

  /** The atoms of every question have distinct identifiers, as the question contract asks. */
  ghost predicate DistinctAtoms(bank: Bank) {
    forall id :: id in bank ==> StrictlyIncreasing(AtomIds(bank[id]))
  }

  lemma SplitSizes(a: set<Text>, b: set<Text>)
    ensures |a| + |b - a| == |b| + |a - b|
  {
    assert a == (a * b) + (a - b) && b == (a * b) + (b - a);
  }

  lemma RowBalance(row: Scored, bank: Bank)
    requires Valid(row, bank) && DistinctAtoms(bank)
    ensures Atoms(row) - AtomsAsked(row) == ForeignIn(bank)(row) - MissedIn(bank)(row)
  {
    var q := bank[row.questionId];
    MembersSize(row.facts.coveredAtoms);
    MembersSize(AtomIds(q));
    SplitSizes(Members(row.facts.coveredAtoms), Members(AtomIds(q)));
  }

  lemma {:induction false} TotalsBalance(rows: seq<Scored>, bank: Bank)
    requires AllValid(rows, bank) && DistinctAtoms(bank)
    ensures Total(rows, Atoms) - Total(rows, AtomsAsked) == Total(rows, ForeignIn(bank)) - Total(rows, MissedIn(bank))
  {
    if rows != [] {
      RowBalance(rows[0], bank);
      TotalsBalance(rows[1..], bank);
    }
  }

  /**
    Over accepted rows, atom recall is at most one exactly when the answerable rows cover, in all, at most as
    many identifiers that are not their question's as they miss atoms that are, or no atom is asked for.
   */
  lemma RecallAtMostOne(rows: seq<Scored>, bank: Bank)
    requires AllValid(rows, bank) && DistinctAtoms(bank)
    ensures Known(rows, bank)
    ensures var answerable := Where(rows, bank, true);
            Measure(rows, bank).atomRecall <= 1.0 <==>
            (Total(answerable, AtomsAsked) <= 0.0
             || Total(answerable, ForeignIn(bank)) <= Total(answerable, MissedIn(bank)))
  {
    RecallByTotals(rows, bank);
    TotalsBalance(Where(rows, bank, true), bank);
  }

  lemma FractionAtMostOne(n: real, d: real)
    ensures d > 0.0 ==> (n / d <= 1.0 <==> n <= d)
  {
    if d > 0.0 { assert (n / d - 1.0) * d == n - d; }
  }

  /**
    For one answerable row whose question has atoms, recall is at most one exactly when the distinct
    identifiers that its items cover number at most the question's atoms.
   */
  lemma OneRowRecall(row: Scored, bank: Bank)
    requires Valid(row, bank) && bank[row.questionId].answerable && bank[row.questionId].atoms != []
    ensures Known([row], bank)
    ensures Measure([row], bank).atomRecall <= 1.0
       <==> |Members(row.facts.coveredAtoms)| <= |bank[row.questionId].atoms|
    ensures forall id :: id in Members(row.facts.coveredAtoms) <==> CoversAtom(row.views, id)
  {
    MembersSize(row.facts.coveredAtoms);
    MeasureOne(row, bank);
    assert Total([row], Atoms) == Atoms(row) + Total([], Atoms);
    assert Total([row], AtomsAsked) == AtomsAsked(row) + Total([], AtomsAsked);
    FractionAtMostOne(Atoms(row), AtomsAsked(row));
    forall id ensures id in Members(row.facts.coveredAtoms) <==> id in row.facts.coveredAtoms {}
  }

  /** The mean reciprocal rank is one exactly when every answerable row ranks a relevant item first. */
  lemma PerfectRankMeansFirst(rows: seq<Scored>, bank: Bank)
    requires AllValid(rows, bank) && Known(rows, bank) && |Where(rows, bank, true)| > 0
    ensures Measure(rows, bank).mrr == 1.0 <==> forall row :: row in Where(rows, bank, true) ==> LeadsWithRelevant(row)
  {
    var answerable := Where(rows, bank, true);
    ValidRowsWithinBounds(answerable, bank);
    TotalOfOnes(answerable);
    ShareInUnit(answerable, Reciprocal, One, false);
    forall row | row in answerable ensures Reciprocal(row) == 1.0 <==> LeadsWithRelevant(row) {
      ReciprocalOneMeansFirst(row, bank);
    }
    if Equal(answerable, Reciprocal, One) {
      forall row | row in answerable ensures LeadsWithRelevant(row) {
        var k :| 0 <= k < |answerable| && answerable[k] == row;
      }
    }
  }

  ghost predicate LeadsWithRelevant(row: Scored) {
    row.views != [] && row.views[0].relevant
  }

  lemma ReciprocalOneMeansFirst(row: Scored, bank: Bank)
    requires Valid(row, bank)
    ensures Reciprocal(row) == 1.0 <==> LeadsWithRelevant(row)
  {
    ReciprocalInUnit(row);
    assert 0 in RelevantAt(row.views) <==> LeadsWithRelevant(row);
  }

  /** `_validate_question_semantics` asks every answerable question for atoms and sources. */
  ghost predicate AsksSomething(bank: Bank) {
    forall k :: k in bank && bank[k].answerable ==> bank[k].atoms != [] && bank[k].requiredSources != []
  }

  /** If every answerable row has full support, nothing is missed: both recalls are one. */
  lemma FullSupportMeansFullRecall(rows: seq<Scored>, bank: Bank)
    requires AllValid(rows, bank) && Known(rows, bank) && AsksSomething(bank)
    requires Measure(rows, bank).fullSupport == 1.0
    ensures Measure(rows, bank).atomRecall == 1.0 && Measure(rows, bank).sourceRecall == 1.0
  {
    var answerable := Where(rows, bank, true);
    ValidRowsWithinBounds(answerable, bank);
    TotalOfOnes(answerable);
    ShareInUnit(answerable, Supported, One, false);
    assert answerable != [];
    forall k | 0 <= k < |answerable|
      ensures Atoms(answerable[k]) == AtomsAsked(answerable[k]) >= 1.0
      ensures Sources(answerable[k]) == SourcesAsked(answerable[k]) >= 1.0
    {
      assert Supported(answerable[k]) == One(answerable[k]);
      SupportedRowMissesNothing(answerable[k], bank);
    }
    FullShareIsOne(answerable, Atoms, AtomsAsked);
    FullShareIsOne(answerable, Sources, SourcesAsked);
  }

  lemma SupportedRowMissesNothing(row: Scored, bank: Bank)
    requires Valid(row, bank) && row.facts.fullSupport && AsksSomething(bank)
    ensures Atoms(row) == AtomsAsked(row) >= 1.0 && Sources(row) == SourcesAsked(row) >= 1.0
  {
  }

  lemma FullShareIsOne(rows: seq<Scored>, part: Weight, whole: Weight)
    requires rows != [] && forall k :: 0 <= k < |rows| ==> part(rows[k]) == whole(rows[k]) >= 1.0
    ensures Share(rows, part, whole, false) == 1.0
  {
    TotalOfOnes(rows);
    TotalsCompare(rows, One, whole);
    ShareInUnit(rows, part, whole, false);
  }

  // ---------------------------------------------------------------- the citation check

  lemma {:induction false} CountValidAll(selected: seq<View>)
    ensures CountValid(selected) == |selected| <==> forall i :: 0 <= i < |selected| ==> selected[i].citationValid
  {
    if selected != [] {
      var n := |selected| - 1;
      CountValidAll(selected[..n]);
      assert CountValid(selected) == |selected| ==> CountValid(selected[..n]) == n && selected[n].citationValid;
      assert forall i :: 0 <= i < n ==> selected[..n][i] == selected[i];
    }
  }

  /** The selected count of each row is that of its items, as in every accepted row. */
  ghost predicate Counted(rows: seq<Scored>) {
    forall k :: 0 <= k < |rows| ==> rows[k].facts.selectedCount == |rows[k].views|
  }

  ghost predicate AllCitationsValid(rows: seq<Scored>) {
    forall k, i :: 0 <= k < |rows| && 0 <= i < |rows[k].views| ==> rows[k].views[i].citationValid
  }

  lemma ValidCitationsAreAll(rows: seq<Scored>)
    requires Counted(rows)
    ensures Pointwise(rows, ValidCitations, Selected)
    ensures Equal(rows, ValidCitations, Selected) <==> AllCitationsValid(rows)
  {
    forall k | 0 <= k < |rows|
      ensures ValidCitations(rows[k]) == Selected(rows[k]) <==> forall i :: 0 <= i < |rows[k].views| ==>
        rows[k].views[i].citationValid
    {
      CountValidAll(rows[k].views);
    }
  }

  /**
    "All citations valid" compares a rounded text. Below two million selected items the text is
    "1.000000" exactly when every selected citation is valid, or nothing is selected. `n` / `d` is the
    reduced fraction.
   */
  lemma CitationTextIsExact(rows: seq<Scored>, share: real, n: int, d: int, k: nat)
    requires Counted(rows) && share == Share(rows, ValidCitations, Selected, true)
    requires 0 <= n && 0 < d < 2 * Rounding.MILLION && d < Rounding.Pow10(k) && k > 0 && Fractional(n, d, share)
    ensures Rounding.Ratio(n, d, k) == Rounding.MILLION <==> AllCitationsValid(rows)
  {
    CitationShareIsFull(rows);
    RatioIsExact(n, d, k, share);
  }

  /** The share is n/d. */
  ghost predicate Fractional(n: int, d: int, share: real) {
    n as real == share * d as real
  }

  lemma CitationShareIsFull(rows: seq<Scored>)
    requires Counted(rows)
    ensures 0.0 <= Share(rows, ValidCitations, Selected, true) <= 1.0
    ensures Share(rows, ValidCitations, Selected, true) == 1.0 <==> AllCitationsValid(rows)
  {
    ValidCitationsAreAll(rows);
    ShareInUnit(rows, ValidCitations, Selected, true);
  }

  lemma RatioIsExact(n: int, d: int, k: nat, s: real)
    requires 0 <= n && 0 < d < 2 * Rounding.MILLION && d < Rounding.Pow10(k) && k > 0
    requires 0.0 <= s <= 1.0 && Fractional(n, d, s)
    ensures Rounding.Ratio(n, d, k) == Rounding.MILLION <==> s == 1.0
  {
    PartOfUnit(n, d, s);
    Rounding.FullRatioMeansOne(n, d, k);
  }

  lemma PartOfUnit(n: int, d: int, s: real)
    requires d > 0 && 0.0 <= s <= 1.0 && n as real == s * d as real
    ensures n <= d && (n == d <==> s == 1.0)
  {
    var m := d as real;
    assert (1.0 - s) * m >= 0.0;
    if s < 1.0 { assert (1.0 - s) * m > 0.0; }
  }

  // ---------------------------------------------------------------- foreign atoms

  const ORACLE: Question :=
    Question([72], true, [[115]], [[115]], [Atom([65], [115], [[120]])], [])

  /** An item of the required source that covers the given identifiers, whatever they are. */
  function Forged(covered: seq<Text>): Item {
    Item(0, [101], [115], [], [], covered, true, true, 0, 0)
  }

  function ForgedGiven(covered: seq<Text>): OP.Given {
    OP.Given([116], [Forged(covered)], T("pass"), JNull, 0, 0)
  }

  function ForgedScored(covered: seq<Text>, f: Facts): Scored {
    Scored(ORACLE.id, true, Views([Forged(covered)]), f)
  }

  /** A row written for the forged item is accepted. */
  lemma ForgedIsAccepted(covered: seq<Text>, parse: OR.ReadInt, digest: OR.Digest, audit: Json, row: OR.Row,
                         f: Facts)
    requires OR.AuditShaped(audit)
    requires FactsHold(ORACLE, true, Views([Forged(covered)]), f)
    requires OP.Written(row, ORACLE, ForgedGiven(covered), digest, f)
    ensures OR.Fits(OP.WithAudit(row, audit), ORACLE, parse, digest, f)
    ensures Valid(ForgedScored(covered, f), map[ORACLE.id := ORACLE])
  {
    OP.WrittenRowFits(row, ORACLE, ForgedGiven(covered), audit, parse, digest, f);
  }

  lemma ForgedCovers(covered: seq<Text>, id: Text)
    ensures CoversAtom(Views([Forged(covered)]), id) <==> id in covered
  {
    var views := Views([Forged(covered)]);
    assert views == [ViewOf(Forged(covered))] && views[0].covered == covered;
  }

  lemma ForgedSource(covered: seq<Text>)
    ensures CoversSource(Views([Forged(covered)]), ORACLE, [115])
  {
    var views := Views([Forged(covered)]);
    assert views[0].relevant && views[0].source == Some([115]);
  }

  /** Two made-up identifiers give the one-atom question a recall of two. */
  lemma AcceptedRecallCanExceedOne(f: Facts)
    requires FactsHold(ORACLE, true, Views([Forged([[65], [90]])]), f)
    ensures Measure([ForgedScored([[65], [90]], f)], map[ORACLE.id := ORACLE]).atomRecall == 2.0
  {
    var row := ForgedScored([[65], [90]], f);
    ForgedTwo(f);
    MeasureOne(row, map[ORACLE.id := ORACLE]);
    OneRowShare(row, Atoms, AtomsAsked);
  }

  lemma ForgedTwo(f: Facts)
    requires FactsHold(ORACLE, true, Views([Forged([[65], [90]])]), f)
    ensures |f.coveredAtoms| == 2 && f.requiredAtoms == 1
  {
    var covered: seq<Text> := [[65], [90]];
    MembersSize(f.coveredAtoms);
    forall id ensures id in Members(f.coveredAtoms) <==> id in {covered[0], covered[1]} { ForgedCovers(covered, id); }
    assert Members(f.coveredAtoms) == {covered[0], covered[1]};
    assert covered[0][0] != covered[1][0];
  }

  /** One made-up identifier claims full support while no atom of the question is covered. */
  lemma ForgedFullSupport(f: Facts)
    requires FactsHold(ORACLE, true, Views([Forged([[90]])]), f)
    ensures f.fullSupport && !CoversAtom(Views([Forged([[90]])]), ORACLE.atoms[0].id)
  {
    var covered: seq<Text> := [[90]];
    MembersSize(f.coveredAtoms);
    MembersSize(f.coveredSources);
    forall id ensures id in Members(f.coveredAtoms) <==> id == covered[0] { ForgedCovers(covered, id); }
    assert Members(f.coveredAtoms) == {covered[0]};
    ForgedSource(covered);
    SublistSize(f.coveredSources, ORACLE.requiredSources);
    ForgedCovers(covered, ORACLE.atoms[0].id);
    assert ORACLE.atoms[0].id[0] != covered[0][0];
  }

  /**
    Full support of an accepted row is genuine, every atom of the question being covered, exactly when
    the row covers the question's own atoms only.
   */
  lemma FullSupportIsGenuine(row: Scored, q: Question)
    requires ValidFor(row, q) && row.facts.fullSupport && StrictlyIncreasing(AtomIds(q))
    ensures (forall id :: id in AtomIds(q) ==> CoversAtom(row.views, id)) <==> OwnAtoms(row, q)
  {
    var covered, asked := row.facts.coveredAtoms, AtomIds(q);
    if OwnAtoms(row, q) {
      SublistSize(covered, asked);
    }
    if forall id :: id in asked ==> CoversAtom(row.views, id) {
      SublistSize(asked, covered);
      forall i, id | 0 <= i < |row.views| && id in row.views[i].covered ensures id in asked {
        assert CoversAtom(row.views, id);
      }
    }
  }

  lemma OneRowShare(row: Scored, part: Weight, whole: Weight)
    requires whole(row) == 1.0
    ensures Share([row], part, whole, false) == part(row)
  {
    assert Total([row], part) == part(row) + Total([], part);
    assert Total([row], whole) == 1.0 + Total([], whole);
  }

  lemma MeasureOne(row: Scored, bank: Bank)
    requires row.questionId in bank && bank[row.questionId].answerable
    ensures Known([row], bank)
    ensures Measure([row], bank).atomRecall == Share([row], Atoms, AtomsAsked, false)
  {
    assert Known([], bank);
    assert [row][1..] == [];
    assert Where([row], bank, true) == [row] + Where([], bank, true);
  }
}
