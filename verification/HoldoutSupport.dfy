/** What full support of a question means in terms of the bodies that were selected for it. */
module HoldoutSupport {
  import opened Wrappers
  import opened Unicode
  import opened HoldoutRows

  /** What `_validate_question_semantics` asks of one question's sources and atoms. */
  ghost predicate QuestionContract(q: Question) {
    && StrictlyIncreasing(AtomIds(q)) && StrictlyIncreasing(q.requiredSources)
    && (forall s :: s in q.requiredSources ==> s in q.acceptableSources)
    && (forall k :: 0 <= k < |q.atoms| ==> q.atoms[k].source in q.requiredSources)
    && (forall i :: 0 <= i < |q.requiredSources| ==> HasAtomFrom(q, q.requiredSources[i]))
  }

  ghost predicate HasAtomFrom(q: Question, source: Text) {
    exists k :: 0 <= k < |q.atoms| && q.atoms[k].source == source
  }

  function AtomIds(q: Question): (ids: seq<Text>)
    ensures |ids| == |q.atoms|
  {
    seq(|q.atoms|, k requires 0 <= k < |q.atoms| => q.atoms[k].id)
  }

  /** Some selected body covers the atom. */
  ghost predicate Shown(normalize: Text -> Text, evidence: seq<Evidence>, atom: Atom) {
    exists i :: 0 <= i < |evidence| && Covers(normalize, evidence[i].body, evidence[i].source, atom)
  }

  ghost predicate AllShown(normalize: Text -> Text, q: Question, evidence: seq<Evidence>) {
    forall k :: 0 <= k < |q.atoms| ==> Shown(normalize, evidence, q.atoms[k])
  }

  // ---------------------------------------------------------------- lists as sets

  function Members(s: seq<Text>): set<Text> {
    set i | 0 <= i < |s| :: s[i]
  }

  lemma {:induction false} MembersSize(s: seq<Text>)
    ensures |Members(s)| <= |s|
    ensures StrictlyIncreasing(s) ==> |Members(s)| == |s|
  {
    if s != [] {
      var n := |s| - 1;
      MembersSize(s[..n]);
      assert Members(s) == Members(s[..n]) + {s[n]};
      if StrictlyIncreasing(s) && s[n] in Members(s[..n]) {
        var i :| 0 <= i < n && s[i] == s[n];
        LessTotal(s[i], s[n]);
      }
    }
  }

  lemma SubsetOfSameSize(a: set<Text>, b: set<Text>)
    requires a <= b
    ensures |a| <= |b|
    ensures |a| == |b| <==> a == b
  {
    assert b == a + (b - a);
  }

  /** An increasing list within another list is no longer than it; it is as long as an increasing one
      exactly when it has all its members. */
  lemma SublistSize(a: seq<Text>, b: seq<Text>)
    requires StrictlyIncreasing(a) && forall x :: x in a ==> x in b
    ensures |a| <= |b|
    ensures StrictlyIncreasing(b) ==> (|a| == |b| <==> forall x :: x in b ==> x in a)
  {
    MembersSize(a);
    MembersSize(b);
    forall x | x in Members(a) ensures x in Members(b) { assert x in a; }
    SubsetOfSameSize(Members(a), Members(b));
    if StrictlyIncreasing(b) {
      if forall x :: x in b ==> x in a {
        forall x | x in Members(b) ensures x in Members(a) { assert x in b; }
      }
      if Members(b) <= Members(a) {
        forall x | x in b ensures x in a { assert x in Members(b); }
      }
    }
  }

  // ---------------------------------------------------------------- coverage

  /** With distinct atom identifiers, the covered identifiers are those of the atoms that were shown. */
  lemma CoversIffShown(normalize: Text -> Text, q: Question, evidence: seq<Evidence>, id: Text)
    ensures CoversAtom(Views(Select(normalize, q, evidence)), id)
       <==> exists k :: 0 <= k < |q.atoms| && q.atoms[k].id == id && Shown(normalize, evidence, q.atoms[k])
  {
    var views := Views(Select(normalize, q, evidence));
    if CoversAtom(views, id) {
      var i :| 0 <= i < |views| && id in views[i].covered;
      assert id in CoveredBy(normalize, evidence[i].body, evidence[i].source, q.atoms);
      var k :| 0 <= k < |q.atoms| && Covers(normalize, evidence[i].body, evidence[i].source, q.atoms[k])
               && q.atoms[k].id == id;
      assert Shown(normalize, evidence, q.atoms[k]);
    }
    if k :| 0 <= k < |q.atoms| && q.atoms[k].id == id && Shown(normalize, evidence, q.atoms[k]) {
      var i :| 0 <= i < |evidence| && Covers(normalize, evidence[i].body, evidence[i].source, q.atoms[k]);
      assert id in views[i].covered;
    }
  }

  /** The question's own atoms are the only ones that selected evidence covers. */
  lemma SelectedCoversOwnAtoms(normalize: Text -> Text, q: Question, evidence: seq<Evidence>, id: Text)
    requires CoversAtom(Views(Select(normalize, q, evidence)), id)
    ensures id in AtomIds(q)
  {
    CoversIffShown(normalize, q, evidence, id);
    var k :| 0 <= k < |q.atoms| && q.atoms[k].id == id;
    assert AtomIds(q)[k] == id;
  }

  /** No more atoms or sources are covered than the question asks for. */
  lemma CoverageIsBounded(normalize: Text -> Text, q: Question, evidence: seq<Evidence>, passed: bool, f: Facts)
    requires FactsHold(q, passed, Views(Select(normalize, q, evidence)), f)
    ensures |f.coveredAtoms| <= f.requiredAtoms && |f.coveredSources| <= f.requiredSources
  {
    forall id | id in f.coveredAtoms ensures id in AtomIds(q) {
      SelectedCoversOwnAtoms(normalize, q, evidence, id);
    }
    SublistSize(f.coveredAtoms, AtomIds(q));
    SublistSize(f.coveredSources, q.requiredSources);
  }

  lemma AllCoveredIffAllShown(normalize: Text -> Text, q: Question, evidence: seq<Evidence>, atoms: seq<Text>)
    requires StrictlyIncreasing(AtomIds(q)) && ListsAtoms(atoms, Views(Select(normalize, q, evidence)))
    ensures |atoms| == |q.atoms| <==> AllShown(normalize, q, evidence)
  {
    forall id | id in atoms ensures id in AtomIds(q) { SelectedCoversOwnAtoms(normalize, q, evidence, id); }
    SublistSize(atoms, AtomIds(q));
    forall k | 0 <= k < |q.atoms| ensures AtomIds(q)[k] in atoms <==> Shown(normalize, evidence, q.atoms[k]) {
      OneAtomCovered(normalize, q, evidence, k);
    }
    if forall x :: x in AtomIds(q) ==> x in atoms {
      forall k | 0 <= k < |q.atoms| ensures Shown(normalize, evidence,
        q.atoms[k]) { assert AtomIds(q)[k] in AtomIds(q); }
    }
  }

  lemma OneAtomCovered(normalize: Text -> Text, q: Question, evidence: seq<Evidence>, k: nat)
    requires StrictlyIncreasing(AtomIds(q)) && k < |q.atoms|
    ensures CoversAtom(Views(Select(normalize, q, evidence)), q.atoms[k].id)
       <==> Shown(normalize, evidence, q.atoms[k])
  {
    var id := q.atoms[k].id;
    CoversIffShown(normalize, q, evidence, id);
    if m :| 0 <= m < |q.atoms| && q.atoms[m].id == id && Shown(normalize, evidence, q.atoms[m]) {
      assert AtomIds(q)[m] == AtomIds(q)[k];
      LessTotal(AtomIds(q)[m], AtomIds(q)[k]);
      assert m == k;
    }
  }

  /** Once every atom is shown, every required source has a relevant item. */
  lemma ShownAtomsCoverSources(normalize: Text -> Text, q: Question, evidence: seq<Evidence>, source: Text)
    requires QuestionContract(q) && AllShown(normalize, q, evidence) && source in q.requiredSources
    ensures CoversSource(Views(Select(normalize, q, evidence)), q, source)
  {
    var views := Views(Select(normalize, q, evidence));
    var r :| 0 <= r < |q.requiredSources| && q.requiredSources[r] == source;
    assert HasAtomFrom(q, q.requiredSources[r]);
    var k :| 0 <= k < |q.atoms| && q.atoms[k].source == source;
    assert Shown(normalize, evidence, q.atoms[k]);
    var i :| 0 <= i < |evidence| && Covers(normalize, evidence[i].body, evidence[i].source, q.atoms[k]);
    assert q.atoms[k].id in views[i].covered;
    assert views[i].relevant && views[i].source == Some(source);
  }

  /**
    A row claims full support exactly when its run passed, its question is answerable, and every atom
    occurs in some selected body of the atom's own source.
   */
  lemma FullSupportMeansEveryAtomIsShown(normalize: Text -> Text, q: Question, evidence: seq<Evidence>,
                                         passed: bool, f: Facts)
    requires QuestionContract(q) && FactsHold(q, passed, Views(Select(normalize, q, evidence)), f)
    ensures f.fullSupport <==> passed && q.answerable && AllShown(normalize, q, evidence)
  {
    AllCoveredIffAllShown(normalize, q, evidence, f.coveredAtoms);
    if AllShown(normalize, q, evidence) {
      forall s | s in q.requiredSources ensures s in f.coveredSources {
        ShownAtomsCoverSources(normalize, q, evidence, s);
      }
      SublistSize(f.coveredSources, q.requiredSources);
    }
  }

  /** Selecting more evidence never loses full support. */
  lemma MoreEvidenceKeepsSupport(normalize: Text -> Text, q: Question, less: seq<Evidence>, more: seq<Evidence>,
                                 passed: bool, f: Facts, g: Facts)
    requires QuestionContract(q) && forall i :: 0 <= i < |less| ==> less[i] in more
    requires FactsHold(q, passed, Views(Select(normalize, q, less)), f)
    requires FactsHold(q, passed, Views(Select(normalize, q, more)), g)
    ensures f.fullSupport ==> g.fullSupport
  {
    FullSupportMeansEveryAtomIsShown(normalize, q, less, passed, f);
    FullSupportMeansEveryAtomIsShown(normalize, q, more, passed, g);
    if f.fullSupport {
      forall k | 0 <= k < |q.atoms| ensures Shown(normalize, more, q.atoms[k]) {
        assert Shown(normalize, less, q.atoms[k]);
        var i :| 0 <= i < |less| && Covers(normalize, less[i].body, less[i].source, q.atoms[k]);
        var j :| 0 <= j < |more| && more[j] == less[i];
        assert Covers(normalize, more[j].body, more[j].source, q.atoms[k]);
      }
    }
  }
}
