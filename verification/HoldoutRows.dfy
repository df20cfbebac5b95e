/**
  Observation rows of the semantic benchmarks: what is selected, the facts that follow from it, and how
  `make_observation` computes them.

  NFC normalization with case folding is a parameter.
 */
module HoldoutRows {
  import opened Wrappers
  import opened Unicode

  datatype Atom = Atom(id: Text, source: Text, variants: seq<Text>)

  datatype Fitness = Fitness(source: Text, authority: int, directness: int, temporalFit: int, integrity: int,
                             reuseBasis: int)

  datatype Question = Question(id: Text, answerable: bool, requiredSources: seq<Text>, acceptableSources: seq<Text>,
                               atoms: seq<Atom>, fitness: seq<Fitness>)

  datatype Item = Item(order: nat, evidenceId: Text, source: Text, representation: Text, anchorType: Text,
                       covered: seq<Text>, relevant: bool, citationValid: bool, fitnessScore: int, fitnessMax: int)

  // ---------------------------------------------------------------- selection

  predicate OccursAt(body: Text, part: Text, i: int) {
    0 <= i <= |body| - |part| && body[i..i + |part|] == part
  }

  predicate Contains(body: Text, part: Text) {
    exists i :: 0 <= i <= |body| && OccursAt(body, part, i)
  }

  /** `atom_matches`. */
  predicate AtomMatches(normalize: Text -> Text, body: Text, variants: seq<Text>) {
    exists v :: v in variants && Contains(normalize(body), normalize(v))
  }

  predicate Covers(normalize: Text -> Text, body: Text, source: Text, atom: Atom) {
    atom.source == source && AtomMatches(normalize, body, atom.variants)
  }

  /** The identifiers of the atoms that a body covers. */
  function CoveredBy(normalize: Text -> Text, body: Text, source: Text, atoms: seq<Atom>): set<Text> {
    set k | 0 <= k < |atoms| && Covers(normalize, body, source, atoms[k]) :: atoms[k].id
  }

  /** Fitness of the last record for a source, as the dict of the source's records keeps it. */
  function FitnessOf(fitness: seq<Fitness>, source: Text): Option<Fitness> {
    if fitness == [] then None
    else if fitness[|fitness| - 1].source == source then Some(fitness[|fitness| - 1])
    else FitnessOf(fitness[..|fitness| - 1], source)
  }

  function FitnessTotal(f: Fitness): int {
    f.authority + f.directness + f.temporalFit + f.integrity + f.reuseBasis
  }

  /** `selected_observation`, for a question whose atom identifiers are distinct. */
  function SelectedObservation(normalize: Text -> Text, order: nat, evidenceId: Text, source: Text,
                               representation: Text, anchorType: Text, body: Text, question: Question,
                               citationValid: bool): Item
  {
    var covered := SortedKeys(CoveredBy(normalize, body, source, question.atoms));
    var relevant := covered != [] && source in question.acceptableSources;
    var fitness := FitnessOf(question.fitness, source);
    var scored := relevant && fitness.Some?;
    Item(order, evidenceId, source, representation, anchorType, covered, relevant, citationValid,
         if scored then FitnessTotal(fitness.value) else 0, if scored then 10 else 0)
  }

  /** One reverified selected body. */
  datatype Evidence = Evidence(evidenceId: Text, source: Text, representation: Text, anchorType: Text, body: Text,
                               citationValid: bool)

  /** `selected_observation` on consecutive orders. */
  function Select(normalize: Text -> Text, question: Question, evidence: seq<Evidence>): seq<Item> {
    seq(|evidence|, i requires 0 <= i < |evidence| =>
      SelectedObservation(normalize, i, evidence[i].evidenceId, evidence[i].source, evidence[i].representation,
                          evidence[i].anchorType, evidence[i].body, question, evidence[i].citationValid))
  }

  // ---------------------------------------------------------------- what a selected item says

  /** The parts of a selected item from which facts follow. A source that is no string is None. */
  datatype View = View(source: Option<Text>, covered: seq<Text>, relevant: bool, citationValid: bool, score: int,
                       maximum: int)

  function ViewOf(item: Item): View {
    View(Some(item.source), item.covered, item.relevant, item.citationValid, item.fitnessScore, item.fitnessMax)
  }

  function Views(items: seq<Item>): (r: seq<View>)
    ensures |r| == |items|
  {
    seq(|items|, i requires 0 <= i < |items| => ViewOf(items[i]))
  }

  // ---------------------------------------------------------------- facts

  /** The derived facts of a row. */
  datatype Facts = Facts(requiredAtoms: nat, coveredAtoms: seq<Text>, requiredSources: nat,
                         coveredSources: seq<Text>, fullSupport: bool, abstained: bool, citationsComplete: bool,
                         relevantCount: nat, selectedCount: nat, firstRelevant: Option<nat>, score: int,
                         maximum: int)

  /** Some item covers the atom. */
  ghost predicate CoversAtom(views: seq<View>, id: Text) {
    exists i :: 0 <= i < |views| && id in views[i].covered
  }

  /** Some relevant item comes from the source, and the question requires the source. */
  ghost predicate CoversSource(views: seq<View>, q: Question, source: Text) {
    source in q.requiredSources
    && exists i :: 0 <= i < |views| && views[i].relevant && views[i].source == Some(source)
  }

  /** Where the relevant items are. */
  function RelevantAt(views: seq<View>): set<nat> {
    set i: nat | i < |views| && views[i].relevant
  }

  ghost predicate IsFirstRelevant(views: seq<View>, rank: Option<nat>) {
    match rank
    case None => RelevantAt(views) == {}
    case Some(r) => r >= 1 && r - 1 in RelevantAt(views) && forall i :: i in RelevantAt(views) ==> r - 1 <= i
  }

  function TotalScore(views: seq<View>): int {
    if views == [] then 0 else TotalScore(views[..|views| - 1]) + views[|views| - 1].score
  }

  function TotalMaximum(views: seq<View>): int {
    if views == [] then 0 else TotalMaximum(views[..|views| - 1]) + views[|views| - 1].maximum
  }

  ghost predicate ListsAtoms(atoms: seq<Text>, views: seq<View>) {
    StrictlyIncreasing(atoms) && forall id :: id in atoms <==> CoversAtom(views, id)
  }

  ghost predicate ListsSources(sources: seq<Text>, views: seq<View>, q: Question) {
    StrictlyIncreasing(sources) && forall s :: s in sources <==> CoversSource(views, q, s)
  }

  ghost predicate AllCited(views: seq<View>) {
    forall i :: 0 <= i < |views| ==> views[i].citationValid
  }

  /** What each fact means, for a run that passed or not. */
  ghost predicate FactsHold(q: Question, passed: bool, views: seq<View>, f: Facts) {
    && f.requiredAtoms == |q.atoms| && ListsAtoms(f.coveredAtoms, views)
    && f.requiredSources == |q.requiredSources| && ListsSources(f.coveredSources, views, q)
    && (f.fullSupport <==> passed && q.answerable && |f.coveredAtoms| == |q.atoms|
                           && |f.coveredSources| == |q.requiredSources|)
    && (f.abstained <==> views == [])
    && (f.citationsComplete <==> views != [] && AllCited(views))
    && f.relevantCount == |RelevantAt(views)| && f.selectedCount == |views|
    && IsFirstRelevant(views, f.firstRelevant)
    && f.score == TotalScore(views) && f.maximum == TotalMaximum(views)
  }

  lemma {:induction false} IncreasingUnique(a: seq<Text>, b: seq<Text>)
    requires StrictlyIncreasing(a) && StrictlyIncreasing(b) && forall x :: x in a <==> x in b
    ensures a == b
  {
    EmptyWithin(a, b);
    EmptyWithin(b, a);
    if a != [] {
      LeastFirst(a, b);
      forall x ensures x in a[1..] <==> x in b[1..] {
        TailMembers(a, x);
        TailMembers(b, x);
      }
      IncreasingUnique(a[1..], b[1..]);
      assert a == [a[0]] + a[1..] && b == [b[0]] + b[1..];
    }
  }

  lemma EmptyWithin(a: seq<Text>, b: seq<Text>)
    requires forall x :: x in a ==> x in b
    ensures a != [] ==> b != []
  {
    if a != [] { assert a[0] in b; }
  }

  lemma LeastFirst(a: seq<Text>, b: seq<Text>)
    requires StrictlyIncreasing(a) && StrictlyIncreasing(b) && a != [] && b != []
    requires forall x :: x in a <==> x in b
    ensures a[0] == b[0]
  {
    assert a[0] in b && b[0] in a;
    var i :| 0 <= i < |b| && b[i] == a[0];
    var j :| 0 <= j < |a| && a[j] == b[0];
    LessTotal(a[0], b[0]);
  }

  lemma TailMembers(s: seq<Text>, x: Text)
    requires StrictlyIncreasing(s) && s != []
    ensures x in s[1..] <==> x in s && x != s[0]
  {
    LessTotal(x, x);
    if x in s && x != s[0] {
      var i :| 0 <= i < |s| && s[i] == x;
      assert s[1..][i - 1] == x;
    }
  }

  /** The facts are determined by the question, the outcome and the selected items. */
  lemma FactsAreDetermined(q: Question, passed: bool, views: seq<View>, f: Facts, g: Facts)
    requires FactsHold(q, passed, views, f) && FactsHold(q, passed, views, g)
    ensures f == g
  {
    IncreasingUnique(f.coveredAtoms, g.coveredAtoms);
    IncreasingUnique(f.coveredSources, g.coveredSources);
    FirstIsDetermined(views, f.firstRelevant, g.firstRelevant);
  }

  lemma FirstIsDetermined(views: seq<View>, a: Option<nat>, b: Option<nat>)
    requires IsFirstRelevant(views, a) && IsFirstRelevant(views, b)
    ensures a == b
  {
  }

  // ---------------------------------------------------------------- the producer

  /** The union of the covered atoms, item by item. */
  method UnionOfCovered(views: seq<View>) returns (atoms: set<Text>)
    ensures forall id :: id in atoms <==> CoversAtom(views, id)
  {
    atoms := {};
    for i := 0 to |views|
      invariant forall id :: id in atoms <==> CoversAtom(views[..i], id)
    {
      ghost var before := atoms;
      for j := 0 to |views[i].covered|
        invariant forall id :: id in atoms <==> id in before || id in views[i].covered[..j]
      {
        atoms := atoms + {views[i].covered[j]};
      }
      assert views[i].covered[..|views[i].covered|] == views[i].covered;
      CoversOneMore(views, i);
    }
    assert views[..|views|] == views;
  }

  lemma CoversOneMore(views: seq<View>, i: nat)
    requires i < |views|
    ensures forall id :: CoversAtom(views[..i + 1], id) <==> CoversAtom(views[..i], id) || id in views[i].covered
  {
    forall id ensures CoversAtom(views[..i + 1], id) <==> CoversAtom(views[..i], id) || id in views[i].covered {
      if id in views[i].covered { assert views[..i + 1][i] == views[i]; }
      if k :| 0 <= k < i && id in views[..i][k].covered { assert views[..i + 1][k] == views[..i][k]; }
    }
  }

  method RelevantSources(views: seq<View>, q: Question) returns (sources: set<Text>)
    ensures forall s :: s in sources <==> CoversSource(views, q, s)
  {
    sources := {};
    for i := 0 to |views|
      invariant forall s :: s in sources <==> CoversSource(views[..i], q, s)
    {
      var v := views[i];
      ghost var before := sources;
      if v.relevant && v.source.Some? && v.source.value in q.requiredSources { sources := sources + {v.source.value}; }
      assert forall s :: CoversSource(views[..i + 1], q, s) <==>
        CoversSource(views[..i], q, s) || (s in q.requiredSources && v.relevant && v.source == Some(s)) by {
        SourceOneMore(views, i, q);
      }
    }
    assert views[..|views|] == views;
  }

  lemma SourceOneMore(views: seq<View>, i: nat, q: Question)
    requires i < |views|
    ensures forall s :: CoversSource(views[..i + 1], q, s) <==>
      CoversSource(views[..i], q, s) || (s in q.requiredSources && views[i].relevant && views[i].source == Some(s))
  {
    assert views[..i + 1][i] == views[i];
    assert forall k :: 0 <= k < i ==> views[..i + 1][k] == views[..i][k];
  }

  /** The rank of the first relevant item and the number of relevant items, in one pass. */
  method CountRelevant(views: seq<View>) returns (count: nat, first: Option<nat>)
    ensures count == |RelevantAt(views)| && IsFirstRelevant(views, first)
  {
    count, first := 0, None;
    for i := 0 to |views|
      invariant count == |RelevantAt(views[..i])| && IsFirstRelevant(views[..i], first)
    {
      RelevantOneMore(views, i);
      if views[i].relevant {
        count := count + 1;
        if first.None? { first := Some(i + 1); }
      }
    }
    assert views[..|views|] == views;
  }

  lemma RelevantOneMore(views: seq<View>, i: nat)
    requires i < |views|
    ensures i !in RelevantAt(views[..i])
    ensures RelevantAt(views[..i + 1]) == RelevantAt(views[..i]) + if views[i].relevant then {i} else {}
    ensures |RelevantAt(views[..i + 1])| == |RelevantAt(views[..i])| + if views[i].relevant then 1 else 0
  {
    assert views[..i + 1][i] == views[i];
    assert forall k :: 0 <= k < i ==> views[..i + 1][k] == views[..i][k];
  }

  method SumFitness(views: seq<View>) returns (score: int, maximum: int)
    ensures score == TotalScore(views) && maximum == TotalMaximum(views)
  {
    score, maximum := 0, 0;
    for i := 0 to |views|
      invariant score == TotalScore(views[..i]) && maximum == TotalMaximum(views[..i])
    {
      score, maximum := score + views[i].score, maximum + views[i].maximum;
      assert views[..i + 1][..i] == views[..i] && views[..i + 1][i] == views[i];
    }
    assert views[..|views|] == views;
  }

  method EveryCitationValid(views: seq<View>) returns (cited: bool)
    ensures cited <==> AllCited(views)
  {
    for i := 0 to |views|
      invariant forall k :: 0 <= k < i ==> views[k].citationValid
    {
      if !views[i].citationValid { return false; }
    }
    return true;
  }

  /** The facts as `make_observation` computes them. */
  method MakeFacts(q: Question, passed: bool, views: seq<View>) returns (f: Facts)
    ensures FactsHold(q, passed, views, f)
  {
    var atoms := UnionOfCovered(views);
    var sources := RelevantSources(views, q);
    var count, first := CountRelevant(views);
    var score, maximum := SumFitness(views);
    var coveredAtoms, coveredSources := SortedKeys(atoms), SortedKeys(sources);
    var cited := EveryCitationValid(views);
    f := Facts(|q.atoms|, coveredAtoms, |q.requiredSources|, coveredSources,
               passed && q.answerable && |coveredAtoms| == |q.atoms| && |coveredSources| == |q.requiredSources|,
               views == [], views != [] && cited, count, |views|, first, score, maximum);
  }
}
