/**
  What a filled stage has in common with the template it was staged from.
 */
module PublishedTree {
  import opened Wrappers
  import opened Unicode
  import opened CorpusTree
  import opened StagedPublication

  /** No two payloads at hand share a digest: a stated instance of collision resistance. */
  ghost predicate NoCollision(env: Env, tree: Tree) {
    forall i :: 0 <= i < |env.lock.assets| ==> Resists(env, tree, env.lock.assets[i].path)
  }

  ghost predicate Resists(env: Env, tree: Tree, path: Text) {
    path in tree.files && path in env.template.files
        && env.rules.sha(tree.files[path]) == env.rules.sha(env.template.files[path]) ==>
        tree.files[path] == env.template.files[path]
  }

  /** A stage that holds the whole plan has the inventory, lock and snapshots of the template. */
  lemma StagedLikeTemplate(env: Env, tree: Tree)
    requires Ready(env) && Holds(env, tree, |env.plan|)
    ensures tree.files.Keys == env.template.files.Keys
    ensures LockOf(env.rules, tree) == Some(env.lock)
    ensures forall k :: 0 <= k < |CONTROLS| ==>
      CONTROLS[k] in tree.files && tree.files[CONTROLS[k]] == env.template.files[CONTROLS[k]]
    ensures forall k :: 0 <= k < |env.lock.evidence| ==> SameFile(env, tree, env.lock.evidence[k].path)
  {
    var plan, c := env.plan, |CONTROLS|;
    forall path ensures path in tree.files <==> path in env.template.files {
      PlanCoversExpected(env.lock, path);
    }
    forall k | 0 <= k < c ensures CONTROLS[k] in tree.files
      && tree.files[CONTROLS[k]] == env.template.files[CONTROLS[k]] {
      assert ItemHolds(env, tree, plan[k]);
    }
    forall k | 0 <= k < |env.lock.evidence| ensures SameFile(env, tree, env.lock.evidence[k].path) {
      assert ItemHolds(env, tree, plan[c + k]);
    }
    assert CONTROLS[2] == LOCK_NAME;
  }

  ghost predicate SameFile(env: Env, tree: Tree, path: Text) {
    path in tree.files && path in env.template.files && tree.files[path] == env.template.files[path]
  }

  lemma {:induction false} NeededIsBounded(env: Env, n: nat)
    requires Ready(env) && n <= |env.plan|
    ensures Needed(env.plan, n) <= env.template.directories
  {
    if n > 0 {
      NeededIsBounded(env, n - 1);
      PlanCoversExpected(env.lock, PathOf(env.plan[n - 1]));
    }
  }

  lemma {:induction false} NeededContains(plan: seq<Item>, n: nat, k: nat)
    requires k < n <= |plan|
    ensures Parents(PathOf(plan[k])) <= Needed(plan, n)
  {
    if k < n - 1 { NeededContains(plan, n - 1, k); }
  }

  lemma ParentOf(path: Text, name: Text)
    requires StartsWith(path, name + T("/"))
    ensures name in Parents(path)
  {
    var k := |name|;
    assert (name + T("/"))[k] == '/' as int && path[..k + 1][k] == path[k];
    assert path[..k] == path[..k + 1][..k] == name;
  }

  lemma SlashNames()
    ensures T("evidence") + T("/") == T("evidence/") && T("sources") + T("/") == T("sources/")
  {
  }

  lemma PlanNeedsBoth(lock: Lock)
    requires ValidLock(lock)
    ensures Directories() <= Needed(Plan(lock), |Plan(lock)|)
  {
    var plan, c, e := Plan(lock), |CONTROLS|, |lock.evidence|;
    SlashNames();
    EvidenceItem(lock, 0);
    AssetItem(lock, 0);
    ParentOf(lock.evidence[0].path, T("evidence"));
    ParentOf(lock.assets[0].path, T("sources"));
    NeededContains(plan, |plan|, c);
    NeededContains(plan, |plan|, c + e + 0);
  }

  /** The directories that the writes create are exactly the two of a closed tree. */
  lemma StagedDirectories(env: Env)
    requires Ready(env)
    ensures Needed(env.plan, |env.plan|) == Directories()
  {
    NeededIsBounded(env, |env.plan|);
    PlanNeedsBoth(env.lock);
  }

  /** After the writes, verifying the stage can only fail on the shape of a fetched payload. */
  lemma StageNeedsOnlyShapes(env: Env, tree: Tree)
    requires Ready(env) && Holds(env, tree, |env.plan|)
    requires tree.directories == Needed(env.plan, |env.plan|)
    ensures Accepts(env.rules, tree) <==> forall i :: 0 <= i < |env.lock.assets| ==>
      ShapeHolds(env.rules, tree, env.lock.assets[i])
  {
    var lock := env.lock;
    StagedLikeTemplate(env, tree);
    StagedDirectories(env);
    forall i | 0 <= i < |lock.assets| ensures AssetMatches(env.rules, tree, lock.assets[i]) {
      AssetHeld(env, tree, i);
    }
    StagedRecordsMatch(env, tree);
    SchemaIsExpected(lock, env.template);
    assert CONTROLS[3] == SCHEMA_NAME;
  }

  lemma StagedRecordsMatch(env: Env, tree: Tree)
    requires Conforms(env.rules, env.template, env.lock)
    requires forall k :: 0 <= k < |env.lock.evidence| ==> SameFile(env, tree, env.lock.evidence[k].path)
    ensures forall i :: 0 <= i < |env.lock.evidence| ==> RecordMatches(env.rules, tree, env.lock.evidence[i])
    ensures Snapshots(env.lock, tree) == Snapshots(env.lock, env.template)
  {
    var lock := env.lock;
    forall i | 0 <= i < |lock.evidence|
      ensures RecordMatches(env.rules, tree, lock.evidence[i])
        && Snapshots(lock, tree)[i] == Snapshots(lock, env.template)[i]
    {
      assert RecordMatches(env.rules, env.template, lock.evidence[i]) && SameFile(env, tree, lock.evidence[i].path);
    }
  }

  /** A stage that verifies has the template's result: the comparison after it never rejects. */
  lemma MismatchNeverHappens(env: Env, tree: Tree)
    requires Ready(env) && Holds(env, tree, |env.plan|) && Accepts(env.rules, tree)
    ensures SameResult(env, tree)
  {
    StagedLikeTemplate(env, tree);
  }

  /** Without digest collisions the published tree is the template, byte for byte. */
  lemma PublishedIsTheTemplate(env: Env, tree: Tree)
    requires Ready(env) && Holds(env, tree, |env.plan|) && NoCollision(env, tree)
    requires tree.directories == Needed(env.plan, |env.plan|)
    ensures tree == env.template
  {
    StagedLikeTemplate(env, tree);
    StagedDirectories(env);
    forall path | path in tree.files ensures tree.files[path] == env.template.files[path] {
      PlanCoversExpected(env.lock, path);
      var k :| 0 <= k < |env.plan| && PathOf(env.plan[k]) == path;
      HeldFileIsTheTemplates(env, tree, k);
    }
    assert tree.files == env.template.files;
  }

  lemma HeldFileIsTheTemplates(env: Env, tree: Tree, k: nat)
    requires Ready(env) && PrefixHolds(env, tree, |env.plan|) && NoCollision(env, tree) && k < |env.plan|
    ensures SameFile(env, tree, PathOf(env.plan[k]))
  {
    assert ItemHolds(env, tree, env.plan[k]);
    if env.plan[k].Fetched? {
      var i := k - |CONTROLS| - |env.lock.evidence|;
      assert env.plan[k].asset == env.lock.assets[i];
      assert AssetMatches(env.rules, env.template, env.lock.assets[i]);
      assert Resists(env, tree, env.lock.assets[i].path);
    }
  }
}
