/** Which source-fitness pair the budgeted evaluation keeps for each source. */
module ReviewFitness {
  import opened Wrappers
  import opened Unicode
  import opened CanonicalJson
  import opened ReviewBudget

  /** The pairs of the relevant, citation-valid items of one source, in inspection order. */
  function FitnessPairs(items: seq<Item>, source: Text): seq<(nat, nat)> {
    if items == [] then []
    else
      var n := |items| - 1;
      var earlier := FitnessPairs(items[..n], source);
      if items[n].Cited? && items[n].source == source then earlier + [(items[n].score, items[n].maximum)]
      else earlier
  }

  predicate RatioLess(a: (nat, nat), b: (nat, nat)) {
    a.0 * b.1 < b.0 * a.1
  }

  predicate RatioAtMost(a: (nat, nat), b: (nat, nat)) {
    a.0 * b.1 <= b.0 * a.1
  }

  /** The earliest pair of maximal ratio among those with a positive maximum; (0, 0) when there is none. */
  ghost predicate IsEarliestBest(pairs: seq<(nat, nat)>, best: (nat, nat)) {
    if forall i :: 0 <= i < |pairs| ==> pairs[i].1 == 0 then best == (0, 0)
    else
      best.1 > 0 &&
      exists j ::
        && 0 <= j < |pairs| && pairs[j] == best
        && (forall i :: 0 <= i < |pairs| && pairs[i].1 > 0 ==> RatioAtMost(pairs[i], best))
        && (forall i :: 0 <= i < j && pairs[i].1 > 0 ==> RatioLess(pairs[i], best))
  }

  /** Scores never exceed their maxima, as `ReadItem` checks. */
  predicate Bounded(items: seq<Item>) {
    forall i :: 0 <= i < |items| && items[i].Cited? ==> items[i].score <= items[i].maximum
  }

  lemma {:induction false} ReadItemsBounded(raw: seq<RawItem>)
    requires ReadItems(raw).Ok?
    ensures Bounded(ReadItems(raw).value)
  {
    if raw != [] { ReadItemsBounded(raw[..|raw| - 1]); }
  }

  // ---------------------------------------------------------------- ratios

  lemma CancelFactor(a: int, b: int, d: int)
    requires d > 0 && a * d < b * d
    ensures a < b
  {
  }

  lemma RatioTransitive(a: (nat, nat), b: (nat, nat), c: (nat, nat))
    requires a.1 > 0 && b.1 > 0 && c.1 > 0
    requires RatioAtMost(a, b) && RatioLess(b, c)
    ensures RatioLess(a, c)
  {
    MultiplyAtMost(a.0 * b.1, b.0 * a.1, c.1);
    MultiplyLess(b.0 * c.1, c.0 * b.1, a.1);
    assert a.0 * b.1 * c.1 == (a.0 * c.1) * b.1 by { Reorder(a.0, b.1, c.1); }
    assert b.0 * a.1 * c.1 == (b.0 * c.1) * a.1 by { Reorder(b.0, a.1, c.1); }
    assert c.0 * b.1 * a.1 == (c.0 * a.1) * b.1 by { Reorder(c.0, b.1, a.1); }
    CancelFactor(a.0 * c.1, c.0 * a.1, b.1);
  }

  lemma Reorder(x: int, y: int, z: int)
    ensures x * y * z == (x * z) * y
  {
  }

  lemma MultiplyAtMost(x: int, y: int, k: nat)
    requires x <= y
    ensures x * k <= y * k
  {
  }

  lemma MultiplyLess(x: int, y: int, k: int)
    requires x < y && k > 0
    ensures x * k < y * k
  {
  }

  // ---------------------------------------------------------------- what is kept

  lemma KeepingStaysBest(pairs: seq<(nat, nat)>, best: (nat, nat), score: nat, maximum: nat)
    requires IsEarliestBest(pairs, best) && pairs != [] && score <= maximum
    ensures IsEarliestBest(pairs + [(score, maximum)],
                           if Replaces(best, score, maximum) then (score, maximum) else best)
  {
    var more := pairs + [(score, maximum)];
    assert more[|pairs|] == (score, maximum);
    assert forall i :: 0 <= i < |pairs| ==> more[i] == pairs[i];
    if best.1 == 0 {
      if maximum == 0 {
        assert forall i :: 0 <= i < |more| ==> more[i].1 == 0;
      } else {
        assert forall i :: 0 <= i < |pairs| ==> pairs[i].1 == 0;
        assert more[|pairs|].1 > 0;
      }
    } else {
      var j :| 0 <= j < |pairs| && pairs[j] == best
               && (forall i :: 0 <= i < |pairs| && pairs[i].1 > 0 ==> RatioAtMost(pairs[i], best))
               && (forall i :: 0 <= i < j && pairs[i].1 > 0 ==> RatioLess(pairs[i], best));
      assert more[j] == best && more[j].1 > 0;
      if Replaces(best, score, maximum) {
        forall i | 0 <= i < |pairs| && more[i].1 > 0 ensures RatioLess(more[i], (score, maximum)) {
          RatioTransitive(pairs[i], best, (score, maximum));
        }
      }
    }
  }

  /** The pair kept for a source is the earliest of maximal ratio among its counted items. */
  lemma {:induction false} KeptPairIsEarliestBest(needAtoms: nat, needSources: nat, items: seq<Item>, source: Text)
    requires Bounded(items)
    ensures var kept := Fold(needAtoms, needSources, items).sources;
            && (source in kept <==> FitnessPairs(items, source) != [])
            && (source in kept ==> IsEarliestBest(FitnessPairs(items, source), kept[source]))
  {
    if items != [] {
      var n := |items| - 1;
      var shorter := items[..n];
      KeptPairIsEarliestBest(needAtoms, needSources, shorter, source);
      var kept := Fold(needAtoms, needSources, shorter).sources;
      var pairs := FitnessPairs(shorter, source);
      if items[n].Cited? && items[n].source == source {
        var pair := (items[n].score, items[n].maximum);
        if source in kept {
          KeepingStaysBest(pairs, kept[source], pair.0, pair.1);
        } else {
          assert pairs + [pair] == [pair];
          assert IsEarliestBest([pair], pair) by {
            if pair.1 > 0 { assert [pair][0].1 > 0; }
          }
        }
      }
    }
  }

  lemma {:induction false} PairsAreMembers(items: seq<Item>, source: Text, pair: (nat, nat))
    ensures pair in FitnessPairs(items, source)
       <==> exists x :: x in items && x.Cited? && x.source == source && (x.score, x.maximum) == pair
  {
    if items != [] {
      var n := |items| - 1;
      PairsAreMembers(items[..n], source, pair);
      assert items == items[..n] + [items[n]];
      assert forall x :: x in items <==> x in items[..n] || x == items[n];
    }
  }

  lemma BestOfSubset(p: seq<(nat, nat)>, best: (nat, nat), q: seq<(nat, nat)>, top: (nat, nat))
    requires IsEarliestBest(p, best) && IsEarliestBest(q, top)
    requires forall x :: x in p ==> x in q
    ensures RatioAtMost(best, top)
  {
    if best.1 > 0 {
      assert best in p && best in q;
      var i :| 0 <= i < |q| && q[i] == best;
      assert q[i].1 > 0;
    }
  }

  /** Inspecting the same items in another order keeps the same ratio for every source. */
  lemma KeptRatioIgnoresOrder(needAtoms: nat, needSources: nat, items: seq<Item>, other: seq<Item>, source: Text)
    requires Bounded(items) && multiset(items) == multiset(other)
    ensures var a, b := Fold(needAtoms, needSources, items).sources, Fold(needAtoms, needSources, other).sources;
            && (source in a <==> source in b)
            && (source in a ==> a[source].0 * b[source].1 == b[source].0 * a[source].1)
  {
    assert forall x :: x in items <==> x in multiset(items);
    assert forall x :: x in other <==> x in multiset(other);
    forall i | 0 <= i < |other| && other[i].Cited? ensures other[i].score <= other[i].maximum {
      assert other[i] in items;
    }
    KeptPairIsEarliestBest(needAtoms, needSources, items, source);
    KeptPairIsEarliestBest(needAtoms, needSources, other, source);
    var p, q := FitnessPairs(items, source), FitnessPairs(other, source);
    forall x ensures x in p <==> x in q {
      PairsAreMembers(items, source, x);
      PairsAreMembers(other, source, x);
    }
    assert p != [] ==> p[0] in q;
    assert q != [] ==> q[0] in p;
    if p != [] {
      var a, b := Fold(needAtoms, needSources, items).sources, Fold(needAtoms, needSources, other).sources;
      BestOfSubset(p, a[source], q, b[source]);
      BestOfSubset(q, b[source], p, a[source]);
    }
  }

  lemma {:induction false} PairsOfPrefix(items: seq<Item>, n: nat, source: Text)
    requires n <= |items|
    ensures FitnessPairs(items[..n], source) <= FitnessPairs(items, source)
  {
    if n == |items| {
      assert items[..n] == items;
    } else {
      var shorter := items[..|items| - 1];
      PairsOfPrefix(shorter, n, source);
      assert shorter[..n] == items[..n];
    }
  }

  /** A larger budget never lowers the ratio kept for a source. */
  lemma KeptRatioGrowsWithBudget(obs: Observation, small: int, large: int, source: Text)
    requires 0 < small <= large && Evaluate(obs, large).Ok?
    ensures var a := SourcesAt(obs, small);
            var b := SourcesAt(obs, large);
            source in a ==> source in b && RatioAtMost(a[source], b[source])
  {
    var selected := obs.selected.value;
    var raw := Prefix(selected, large);
    var n := Min(small, |selected|);
    assert Prefix(selected, small) == raw[..n];
    ReadPrefix(raw, n);
    ReadItemsBounded(raw);
    var items := ReadItems(raw).value;
    var needAtoms, needSources := obs.requiredAtoms.i, obs.requiredSources.i;
    KeptPairIsEarliestBest(needAtoms, needSources, items, source);
    KeptPairIsEarliestBest(needAtoms, needSources, items[..n], source);
    PairsOfPrefix(items, n, source);
    var p, q := FitnessPairs(items[..n], source), FitnessPairs(items, source);
    if p != [] {
      assert forall x :: x in p ==> x in q;
      BestOfSubset(p, SourcesAt(obs, small)[source], q, SourcesAt(obs, large)[source]);
    }
  }

  /** The per-source pairs when the evaluation under a budget ends. */
  function SourcesAt(obs: Observation, budget: int): map<Text, (nat, nat)> {
    if CheckObservation(obs, budget).Ok? && ReadItems(Prefix(obs.selected.value, budget)).Ok? then
      Fold(obs.requiredAtoms.i, obs.requiredSources.i, ReadItems(Prefix(obs.selected.value, budget)).value).sources
    else map[]
  }
}
