/**
  Staged publication of a reproduced corpus, as a step machine with an exception possible at every step.

  A state is what lies on disk (the destination, the stage beside it, the temporary file of the write
  in progress) and the progress of the one writer. Removing the stage after an exception is taken to
  succeed.
 */
module StagedPublication {
  import opened Wrappers
  import opened Unicode
  import opened CorpusTree

  /** One file of the write plan: copied from the template, or fetched. */
  datatype Item = Copied(path: Text) | Fetched(asset: Asset)

  /** The run's givens; `plan` is the write plan of the lock. */
  datatype Env = Env(rules: Rules, template: Tree, lock: Lock, plan: seq<Item>)

  datatype Phase = Start | Filling | Writing | Landed | Verified | Failing | Published | Done | Failed

  datatype State = State(phase: Phase, next: nat, destination: Option<Tree>, stage: Option<Tree>,
                         temporary: Option<Bytes>, aggregate: nat)

  function PathOf(item: Item): Text {
    match item case Copied(path) => path case Fetched(asset) => asset.path
  }

  function Limit(item: Item, lock: Lock): nat {
    if item.Copied? then MIB else lock.maximumFile
  }

  /** Control files, then evidence, then payloads. */
  function Plan(lock: Lock): (plan: seq<Item>)
    ensures |plan| == |CONTROLS| + |lock.evidence| + |lock.assets|
  {
    seq(|CONTROLS| + |lock.evidence| + |lock.assets|, k requires 0 <= k < |CONTROLS| + |lock.evidence|
        + |lock.assets| =>
      if k < |CONTROLS| then Copied(CONTROLS[k])
      else if k < |CONTROLS| + |lock.evidence| then Copied(lock.evidence[k - |CONTROLS|].path)
      else Fetched(lock.assets[k - |CONTROLS| - |lock.evidence|]))
  }

  /** The directories a path needs. */
  function Parents(path: Text): set<Text> {
    set k | 0 <= k < |path| && path[k] == '/' as int :: path[..k]
  }

  /** A directory tree has the parents of its files. */
  ghost predicate IsTree(tree: Tree) {
    forall path :: path in tree.files ==> Parents(path) <= tree.directories
  }

  /** The template verifies, and `lock` is its lock. */
  ghost predicate Ready(env: Env) {
    && IsTree(env.template) && Accepts(env.rules, env.template)
    && env.lock == LockOf(env.rules, env.template).value && env.plan == Plan(env.lock)
  }

  // ---------------------------------------------------------------- steps

  ghost predicate Begin(env: Env, s: State, t: State) {
    s.phase == Start && Ready(env) && s.destination.None?
    && t == s.(phase := Filling, stage := Some(Tree(map[], {})))
  }

  ghost predicate At(env: Env, s: State, phase: Phase) {
    s.phase == phase && s.stage.Some? && s.next < |env.plan|
  }

  ghost predicate Open(env: Env, s: State, t: State) {
    At(env, s, Filling)
    && t == s.(phase := Writing, temporary := Some([]), stage := Some(s.stage.value.(
         directories := s.stage.value.directories + Parents(PathOf(env.plan[s.next])))))
  }

  /** Copied files arrive as one chunk, fetched ones as any chunks. */
  ghost predicate Source(env: Env, item: Item, before: Bytes, chunk: Bytes) {
    item.Copied? ==> before == [] && item.path in env.template.files && chunk == env.template.files[item.path]
  }

  ghost predicate Append(env: Env, s: State, t: State, chunk: Bytes) {
    At(env, s, Writing) && s.temporary.Some? && chunk != []
    && |s.temporary.value| + |chunk| <= Limit(env.plan[s.next], env.lock)
    && Source(env, env.plan[s.next], s.temporary.value, chunk)
    && t == s.(temporary := Some(s.temporary.value + chunk))
  }

  ghost predicate Close(env: Env, s: State, t: State) {
    At(env, s, Writing) && s.temporary.Some?
    && (env.plan[s.next].Copied? ==> s.temporary.value != [])
    && t == s.(phase := Landed, temporary := None, stage := Some(s.stage.value.(
         files := s.stage.value.files[PathOf(env.plan[s.next]) := s.temporary.value])))
  }

  ghost predicate Keep(env: Env, s: State, t: State) {
    At(env, s, Landed) && env.plan[s.next].Copied? && t == s.(phase := Filling, next := s.next + 1)
  }

  /** The caps and the identity of a fetched file hold. */
  ghost predicate Identify(env: Env, s: State, t: State) {
    At(env, s, Landed) && env.plan[s.next].Fetched?
    && var asset := env.plan[s.next].asset;
       AssetMatches(env.rules, s.stage.value, asset)
       && s.aggregate + |s.stage.value.files[asset.path]| <= env.lock.maximumAggregate
       && t == s.(phase := Filling, next := s.next + 1, aggregate := s.aggregate + |s.stage.value.files[asset.path]|)
  }

  ghost predicate SameResult(env: Env, tree: Tree) {
    Accepts(env.rules, tree) && ResultOf(LockOf(env.rules, tree).value) == ResultOf(env.lock)
  }

  ghost predicate Verify(env: Env, s: State, t: State) {
    s.phase == Filling && s.next == |env.plan| && s.stage.Some? && SameResult(env, s.stage.value)
    && t == s.(phase := Verified)
  }

  ghost predicate Publish(env: Env, s: State, t: State) {
    s.phase == Verified && s.destination.None? && t == s.(phase := Published, destination := s.stage, stage := None)
  }

  ghost predicate Return(s: State, t: State) {
    s.phase == Published && t == s.(phase := Done)
  }

  /** An exception inside a write removes the temporary file first. */
  ghost predicate Unlink(env: Env, s: State, t: State) {
    At(env, s, Writing) && s.temporary.Some? && t == s.(phase := Failing, temporary := None)
  }

  /** An exception: the stage and the temporary file are removed. It may come after the rename. */
  ghost predicate Abort(s: State, t: State) {
    s.phase != Done && s.phase != Failed && t == s.(phase := Failed, stage := None, temporary := None)
  }

  ghost predicate Next(env: Env, s: State, t: State) {
    || Begin(env, s, t) || Open(env, s, t) || (exists chunk :: Append(env, s, t, chunk)) || Close(env, s, t)
    || Keep(env, s, t) || Identify(env, s, t) || Verify(env, s, t) || Publish(env, s, t) || Return(s, t)
    || Unlink(env, s, t) || Abort(s, t)
  }

  ghost predicate Initial(s: State) {
    s.phase == Start && s.next == 0 && s.stage.None? && s.temporary.None? && s.aggregate == 0
  }

  ghost predicate IsRun(env: Env, run: seq<State>) {
    run != [] && Initial(run[0]) && forall k :: 0 <= k < |run| - 1 ==> Next(env, run[k], run[k + 1])
  }

  // ---------------------------------------------------------------- the write plan

  lemma FirstLetters(path: Text, prefix: string)
    requires StartsWith(path, T(prefix)) && |prefix| > 0 && (prefix[0] == 's' || prefix[0] == 'e')
    ensures path != [] && path[0] == prefix[0] as int
  {
    assert path[..|prefix|][0] == T(prefix)[0];
  }

  /** No two items of the plan write the same file. */
  lemma PlanPathsDiffer(lock: Lock, i: nat, j: nat)
    requires ValidLock(lock) && i < j < |Plan(lock)|
    ensures PathOf(Plan(lock)[i]) != PathOf(Plan(lock)[j])
  {
    var c, e := |CONTROLS|, |lock.evidence|;
    if i < c {
      ControlLetters(i);
      if j < c {
        ControlsDiffer(i, j);
      } else if j < c + e {
        FirstLetters(lock.evidence[j - c].path, "evidence/");
      } else {
        FirstLetters(lock.assets[j - c - e].path, "sources/");
      }
    } else if i < c + e {
      FirstLetters(lock.evidence[i - c].path, "evidence/");
      if j < c + e {
        assert RecordPaths(lock.evidence)[i - c] == lock.evidence[i - c].path;
        LessTotal(RecordPaths(lock.evidence)[i - c], RecordPaths(lock.evidence)[j - c]);
      } else {
        FirstLetters(lock.assets[j - c - e].path, "sources/");
      }
    } else {
      assert AssetPaths(lock.assets)[i - c - e] == lock.assets[i - c - e].path;
      LessTotal(AssetPaths(lock.assets)[i - c - e], AssetPaths(lock.assets)[j - c - e]);
    }
  }

  lemma ControlLetters(i: nat)
    requires i < |CONTROLS|
    ensures CONTROLS[i] != [] && CONTROLS[i][0] != 's' as int && CONTROLS[i][0] != 'e' as int
  {
    assert CONTROLS[0] == T("README.md") && CONTROLS[1] == T("THIRD_PARTY_NOTICES.md");
  }

  lemma ControlsDiffer(i: nat, j: nat)
    requires i < j < |CONTROLS|
    ensures CONTROLS[i] != CONTROLS[j]
  {
    assert |CONTROLS[0]| == 9 && |CONTROLS[1]| == 22 && |CONTROLS[2]| == 16 && |CONTROLS[3]| == 23;
  }

  lemma PlanItems(lock: Lock)
    ensures forall i :: 0 <= i < |CONTROLS| ==> PathOf(Plan(lock)[i]) == CONTROLS[i]
    ensures forall i :: 0 <= i < |lock.evidence| ==> PathOf(Plan(lock)[|CONTROLS| + i]) == lock.evidence[i].path
    ensures forall i :: 0 <= i < |lock.assets| ==>
      PathOf(Plan(lock)[|CONTROLS| + |lock.evidence| + i]) == lock.assets[i].path
  {
  }

  lemma ExpectedIsPlanned(lock: Lock, path: Text) returns (k: nat)
    requires path in ExpectedFiles(lock)
    ensures k < |Plan(lock)| && PathOf(Plan(lock)[k]) == path
  {
    PlanItems(lock);
    if i :| 0 <= i < |CONTROLS| && CONTROLS[i] == path { k := i; }
    else if i :| 0 <= i < |lock.evidence| && lock.evidence[i].path == path { k := |CONTROLS| + i; }
    else {
      var i :| 0 <= i < |lock.assets| && lock.assets[i].path == path;
      k := |CONTROLS| + |lock.evidence| + i;
    }
  }

  lemma PlannedIsExpected(lock: Lock, k: nat)
    requires k < |Plan(lock)|
    ensures PathOf(Plan(lock)[k]) in ExpectedFiles(lock)
  {
    var c, e := |CONTROLS|, |lock.evidence|;
    PlanItems(lock);
    if k < c { assert PathOf(Plan(lock)[k]) == CONTROLS[k]; }
    else if k < c + e { assert PathOf(Plan(lock)[c + (k - c)]) == lock.evidence[k - c].path; }
    else { assert PathOf(Plan(lock)[c + e + (k - c - e)]) == lock.assets[k - c - e].path; }
  }

  /** The plan writes the expected files. */
  lemma PlanCoversExpected(lock: Lock, path: Text)
    ensures path in ExpectedFiles(lock) <==> exists k :: 0 <= k < |Plan(lock)| && PathOf(Plan(lock)[k]) == path
  {
    if path in ExpectedFiles(lock) { var k := ExpectedIsPlanned(lock, path); }
    if k :| 0 <= k < |Plan(lock)| && PathOf(Plan(lock)[k]) == path { PlannedIsExpected(lock, k); }
  }

  // ---------------------------------------------------------------- what every reachable state keeps

  function Written(plan: seq<Item>, n: nat): set<Text>
    requires n <= |plan|
  {
    set k | 0 <= k < n :: PathOf(plan[k])
  }

  function Needed(plan: seq<Item>, n: nat): set<Text>
    requires n <= |plan|
  {
    if n == 0 then {} else Needed(plan, n - 1) + Parents(PathOf(plan[n - 1]))
  }

  function FetchedBytes(plan: seq<Item>, n: nat): nat
    requires n <= |plan|
  {
    if n == 0 then 0
    else FetchedBytes(plan, n - 1) + if plan[n - 1].Fetched? then plan[n - 1].asset.length else 0
  }

  /** The file is the template's, or has the digest and length of the lock and respects the file cap. */
  ghost predicate ItemHolds(env: Env, tree: Tree, item: Item) {
    match item
    case Copied(path) => path in tree.files && path in env.template.files
      && tree.files[path] == env.template.files[path]
    case Fetched(asset) => AssetMatches(env.rules, tree, asset) && |tree.files[asset.path]| <= env.lock.maximumFile
  }

  ghost predicate PrefixHolds(env: Env, tree: Tree, n: nat) {
    n <= |env.plan| && forall k :: 0 <= k < n ==> ItemHolds(env, tree, env.plan[k])
  }

  /** The tree is what the first `n` items write. */
  ghost predicate Holds(env: Env, tree: Tree, n: nat) {
    PrefixHolds(env, tree, n) && tree.files.Keys == Written(env.plan, n)
  }

  ghost predicate CountedUpTo(env: Env, s: State) {
    s.next <= |env.plan| && s.aggregate == FetchedBytes(env.plan, s.next) <= env.lock.maximumAggregate
  }

  ghost predicate StageAt(env: Env, s: State, directories: nat) {
    && s.stage.Some? && CountedUpTo(env, s) && directories <= |env.plan|
    && s.stage.value.directories == Needed(env.plan, directories)
  }

  ghost predicate FillingInv(env: Env, s: State) {
    StageAt(env, s, s.next) && Holds(env, s.stage.value, s.next) && s.temporary.None?
  }

  ghost predicate WritingInv(env: Env, s: State) {
    && StageAt(env, s, s.next + 1) && Holds(env, s.stage.value, s.next) && s.temporary.Some?
    && Pending(env, env.plan[s.next], s.temporary.value)
  }

  /** What the write in progress has received. */
  ghost predicate Pending(env: Env, item: Item, received: Bytes) {
    && |received| <= Limit(item, env.lock)
    && (item.Copied? && received != [] ==> item.path in env.template.files && received == env.template.files[item.path])
  }

  ghost predicate LandedInv(env: Env, s: State) {
    && StageAt(env, s, s.next + 1) && PrefixHolds(env, s.stage.value, s.next) && s.temporary.None?
    && s.stage.value.files.Keys == Written(env.plan, s.next + 1)
    && var item := env.plan[s.next];
       PathOf(item) in s.stage.value.files && Pending(env, item, s.stage.value.files[PathOf(item)])
       && (item.Copied? ==> s.stage.value.files[item.path] != [])
  }

  /** A published tree: the whole plan, verified with the template's result, within both caps. */
  ghost predicate Complete(env: Env, tree: Tree) {
    && Ready(env) && Holds(env, tree, |env.plan|)
    && tree.directories == Needed(env.plan, |env.plan|)
    && SameResult(env, tree)
    && FetchedBytes(env.plan, |env.plan|) <= env.lock.maximumAggregate
  }

  ghost predicate InProgress(env: Env, s: State) {
    Ready(env) && s.destination.None?
    && match s.phase
       case Filling => FillingInv(env, s)
       case Writing => WritingInv(env, s)
       case Landed => LandedInv(env, s)
       case Verified => FillingInv(env, s) && s.next == |env.plan| && SameResult(env, s.stage.value)
       case Failing => true
       case _ => false
  }

  ghost predicate Clean(s: State) {
    s.stage.None? && s.temporary.None?
  }

  /** The destination is as it was found, or was absent and is now a complete verified tree. */
  ghost predicate Safe(env: Env, found: Option<Tree>, destination: Option<Tree>) {
    destination == found || (found.None? && destination.Some? && Complete(env, destination.value))
  }

  ghost predicate Inv(env: Env, found: Option<Tree>, s: State) {
    match s.phase
    case Start => Initial(s) && s.destination == found
    case Published => Clean(s) && found.None? && s.destination.Some? && Complete(env, s.destination.value)
    case Done => Clean(s) && found.None? && s.destination.Some? && Complete(env, s.destination.value)
    case Failed => Clean(s) && Safe(env, found, s.destination)
    case _ => found.None? && InProgress(env, s)
  }

  lemma WrittenGrows(plan: seq<Item>, n: nat)
    requires n < |plan|
    ensures Written(plan, n + 1) == Written(plan, n) + {PathOf(plan[n])}
  {
  }

  lemma OpenKeeps(env: Env, s: State, t: State)
    requires FillingInv(env, s) && Open(env, s, t)
    ensures WritingInv(env, t)
  {
  }

  lemma AppendKeeps(env: Env, s: State, t: State, chunk: Bytes)
    requires WritingInv(env, s) && Append(env, s, t, chunk)
    ensures WritingInv(env, t)
  {
  }

  ghost predicate DistinctPaths(plan: seq<Item>) {
    forall i, j :: 0 <= i < j < |plan| ==> PathOf(plan[i]) != PathOf(plan[j])
  }

  lemma PlanIsDistinct(lock: Lock)
    requires ValidLock(lock)
    ensures DistinctPaths(Plan(lock))
  {
    forall i, j | 0 <= i < j < |Plan(lock)| ensures PathOf(Plan(lock)[i]) != PathOf(Plan(lock)[j]) {
      PlanPathsDiffer(lock, i, j);
    }
  }

  /** Landing a file leaves the earlier ones as they were. */
  lemma CloseKeeps(env: Env, s: State, t: State)
    requires DistinctPaths(env.plan) && WritingInv(env, s) && Close(env, s, t)
    ensures LandedInv(env, t)
  {
    var plan, path := env.plan, PathOf(env.plan[s.next]);
    WrittenGrows(plan, s.next);
    forall k | 0 <= k < s.next ensures ItemHolds(env, t.stage.value, plan[k]) {
      OtherFilesStay(env, s.stage.value, t.stage.value, plan[k], path);
    }
  }

  lemma OtherFilesStay(env: Env, before: Tree, after: Tree, item: Item, path: Text)
    requires ItemHolds(env, before, item) && PathOf(item) != path
    requires path in after.files && after.files == before.files[path := after.files[path]]
    ensures ItemHolds(env, after, item)
  {
  }

  lemma KeepKeeps(env: Env, s: State, t: State)
    requires LandedInv(env, s) && Keep(env, s, t)
    ensures FillingInv(env, t)
  {
    assert ItemHolds(env, s.stage.value, env.plan[s.next]);
  }

  lemma IdentifyKeeps(env: Env, s: State, t: State)
    requires LandedInv(env, s) && Identify(env, s, t)
    ensures FillingInv(env, t)
  {
    assert ItemHolds(env, s.stage.value, env.plan[s.next]);
  }

  /** The steps of a write keep what a run in progress has. */
  lemma WritingKeepsInv(env: Env, found: Option<Tree>, s: State, t: State)
    requires Inv(env, found, s)
    requires Open(env, s, t) || (exists chunk :: Append(env, s, t, chunk)) || Close(env, s, t)
    ensures Inv(env, found, t)
  {
    if Open(env, s, t) {
      OpenKeeps(env, s, t);
    } else if chunk :| Append(env, s, t, chunk) {
      AppendKeeps(env, s, t, chunk);
    } else {
      PlanIsDistinct(env.lock);
      CloseKeeps(env, s, t);
    }
  }

  lemma AdmittingKeepsInv(env: Env, found: Option<Tree>, s: State, t: State)
    requires Inv(env, found, s) && (Keep(env, s, t) || Identify(env, s, t))
    ensures Inv(env, found, t)
  {
    if Keep(env, s, t) { KeepKeeps(env, s, t); } else { IdentifyKeeps(env, s, t); }
  }

  lemma PublishingKeepsInv(env: Env, found: Option<Tree>, s: State, t: State)
    requires Inv(env, found, s) && (Verify(env, s, t) || Publish(env, s, t) || Return(s, t))
    ensures Inv(env, found, t)
  {
  }

  lemma FailingKeepsInv(env: Env, found: Option<Tree>, s: State, t: State)
    requires Inv(env, found, s) && (Unlink(env, s, t) || Abort(s, t))
    ensures Inv(env, found, t)
  {
  }

  lemma BeginKeepsInv(env: Env, found: Option<Tree>, s: State, t: State)
    requires Inv(env, found, s) && Begin(env, s, t)
    ensures Inv(env, found, t)
  {
  }

  lemma NextKeepsInv(env: Env, found: Option<Tree>, s: State, t: State)
    requires Inv(env, found, s) && Next(env, s, t)
    ensures Inv(env, found, t)
  {
    if Begin(env, s, t) {
      BeginKeepsInv(env, found, s, t);
    } else if Keep(env, s, t) || Identify(env, s, t) {
      AdmittingKeepsInv(env, found, s, t);
    } else if Verify(env, s, t) || Publish(env, s, t) || Return(s, t) {
      PublishingKeepsInv(env, found, s, t);
    } else if Unlink(env, s, t) || Abort(s, t) {
      FailingKeepsInv(env, found, s, t);
    } else {
      WritingKeepsInv(env, found, s, t);
    }
  }

  lemma {:induction false} RunsKeepInv(env: Env, run: seq<State>, k: nat)
    requires IsRun(env, run) && k < |run|
    ensures Inv(env, run[0].destination, run[k])
  {
    if k > 0 {
      RunsKeepInv(env, run, k - 1);
      NextKeepsInv(env, run[0].destination, run[k - 1], run[k]);
    }
  }

  // ---------------------------------------------------------------- main results

  /**
    At every point of every run the destination is as it was found, or was absent and holds a complete
    tree that verifies with the template's result. A failed run leaves no stage and no temporary file.
   */
  lemma EveryRunIsSafe(env: Env, run: seq<State>, k: nat)
    requires IsRun(env, run) && k < |run|
    ensures Safe(env, run[0].destination, run[k].destination)
    ensures run[k].phase == Failed || run[k].phase == Done ==> Clean(run[k])
    ensures run[k].phase == Done ==> run[0].destination.None? && run[k].destination.Some?
  {
    RunsKeepInv(env, run, k);
  }

  lemma AssetItem(lock: Lock, i: nat)
    requires i < |lock.assets|
    ensures Plan(lock)[|CONTROLS| + |lock.evidence| + i] == Fetched(lock.assets[i])
  {
  }

  lemma EvidenceItem(lock: Lock, i: nat)
    requires i < |lock.evidence|
    ensures Plan(lock)[|CONTROLS| + i] == Copied(lock.evidence[i].path)
  {
  }

  /** Each payload of a complete stage has the digest and length of the lock, within the file cap. */
  lemma AssetHeld(env: Env, tree: Tree, i: nat)
    requires env.plan == Plan(env.lock) && PrefixHolds(env, tree, |env.plan|) && i < |env.lock.assets|
    ensures AssetMatches(env.rules, tree, env.lock.assets[i]) && PayloadWithin(env, tree, env.lock.assets[i])
  {
    AssetItem(env.lock, i);
    assert ItemHolds(env, tree, env.plan[|CONTROLS| + |env.lock.evidence| + i]);
  }

  /** Published payloads respect the cap on each file and the cap on their sum. */
  lemma PublishedWithinCaps(env: Env, tree: Tree)
    requires Complete(env, tree)
    ensures forall i :: 0 <= i < |env.lock.assets| ==> PayloadWithin(env, tree, env.lock.assets[i])
    ensures SumLengths(env.lock.assets) <= env.lock.maximumAggregate
  {
    forall i | 0 <= i < |env.lock.assets| ensures PayloadWithin(env, tree, env.lock.assets[i]) {
      AssetHeld(env, tree, i);
    }
    PlanFetchesTheAssets(env.lock);
  }

  ghost predicate PayloadWithin(env: Env, tree: Tree, a: Asset) {
    a.path in tree.files && |tree.files[a.path]| == a.length <= env.lock.maximumFile
  }

  lemma {:induction false} CopiedCostNothing(lock: Lock, n: nat)
    requires n <= |CONTROLS| + |lock.evidence|
    ensures FetchedBytes(Plan(lock), n) == 0
  {
    if n > 0 { CopiedCostNothing(lock, n - 1); }
  }

  lemma {:induction false} FetchedBytesAreLengths(lock: Lock, n: nat)
    requires n <= |lock.assets|
    ensures FetchedBytes(Plan(lock), |CONTROLS| + |lock.evidence| + n) == SumLengths(lock.assets[..n])
  {
    if n == 0 {
      CopiedCostNothing(lock, |CONTROLS| + |lock.evidence|);
    } else {
      FetchedBytesAreLengths(lock, n - 1);
      assert lock.assets[..n][..n - 1] == lock.assets[..n - 1];
    }
  }

  lemma PlanFetchesTheAssets(lock: Lock)
    ensures FetchedBytes(Plan(lock), |Plan(lock)|) == SumLengths(lock.assets)
  {
    FetchedBytesAreLengths(lock, |lock.assets|);
    assert lock.assets[..|lock.assets|] == lock.assets;
  }
}
