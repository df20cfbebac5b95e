/**
  The writer of module StagedPublication: `_atomic_write` and `reproduce_corpus` over a workspace.

  `faults` says which disk operation raises; `clock` counts the operations. The ghost `run` records
  the states passed through, so that what holds of every run holds at every moment of a call.
 */
module Reproduction {
  import opened Wrappers
  import opened Unicode
  import opened CorpusTree
  import opened StagedPublication
  import opened PublishedTree

  /** A chunk of a response body; None when reading it raises. */
  type Chunk = Option<Bytes>

  datatype Response = Response(scheme: Text, host: Text, contentType: Text, chunks: seq<Chunk>)

  /** The response to a URL; None when fetching it raises. */
  type Fetch = Text -> Option<Response>

  type Faults = nat -> bool

  function Received(chunks: seq<Chunk>): Bytes {
    if chunks == [] then []
    else
      var last := chunks[|chunks| - 1];
      Received(chunks[..|chunks| - 1]) + if last.Some? then last.value else []
  }

  /** Chunks that arrive, are not empty and stay within the limit. */
  predicate Streams(chunks: seq<Chunk>, maximum: nat) {
    (forall k :: 0 <= k < |chunks| ==> chunks[k].Some? && chunks[k].value != []) && |Received(chunks)| <= maximum
  }

  lemma {:induction false} ReceivedGrows(chunks: seq<Chunk>, k: nat)
    requires k <= |chunks|
    ensures |Received(chunks[..k])| <= |Received(chunks)|
  {
    if k < |chunks| {
      ReceivedGrows(chunks[..|chunks| - 1], k);
      assert chunks[..|chunks| - 1][..k] == chunks[..k];
    } else {
      assert chunks[..k] == chunks;
    }
  }

  ghost predicate Faultless(faults: Faults) {
    forall n :: !faults(n)
  }

  /** The response may be used for the asset. */
  predicate Admissible(env: Env, asset: Asset, r: Response) {
    r.scheme == T("https") && r.host in env.lock.redirectHosts && r.contentType in asset.contentTypes
  }

  /** What a fetch delivers for one item of the plan. */
  function Chunks(env: Env, fetch: Fetch, item: Item): seq<Chunk> {
    match item
    case Copied(path) => if path in env.template.files then [Some(env.template.files[path])] else [None]
    case Fetched(asset) => if fetch(asset.url).Some? then fetch(asset.url).value.chunks else [None]
  }

  /** The item arrives from where it may, within its limit and with its identity. */
  predicate Served(env: Env, fetch: Fetch, item: Item) {
    && (item.Fetched? ==> fetch(item.asset.url).Some? && Admissible(env, item.asset, fetch(item.asset.url).value))
    && Streams(Chunks(env, fetch, item), Limit(item, env.lock))
    && var content := Received(Chunks(env, fetch, item));
       item.Fetched? ==> env.rules.sha(content) == item.asset.sha && |content| == item.asset.length
  }

  ghost predicate AllServed(env: Env, fetch: Fetch, n: nat) {
    n <= |env.plan| && forall k :: 0 <= k < n ==> Served(env, fetch, env.plan[k])
  }

  /** The payload that the fetch delivers has the shape of its format. */
  ghost predicate Shaped(env: Env, fetch: Fetch) {
    forall i :: 0 <= i < |env.lock.assets| ==> ShapedAsset(env, fetch, env.lock.assets[i])
  }

  ghost predicate ShapedAsset(env: Env, fetch: Fetch, asset: Asset) {
    env.rules.shape(asset.format, Received(Chunks(env, fetch, Fetched(asset))))
  }

  /** When a reproduction with no fault succeeds. */
  ghost predicate Publishable(env: Env, fetch: Fetch) {
    && Ready(env) && AllServed(env, fetch, |env.plan|) && Shaped(env, fetch)
    && FetchedBytes(env.plan, |env.plan|) <= env.lock.maximumAggregate
  }

  lemma RunGrows(env: Env, run: seq<State>, t: State)
    requires IsRun(env, run) && Next(env, run[|run| - 1], t)
    ensures IsRun(env, run + [t])
  {
    var longer := run + [t];
    forall k | 0 <= k < |longer| - 1 ensures Next(env, longer[k], longer[k + 1]) {
      if k < |run| - 1 { assert Next(env, run[k], run[k + 1]); }
    }
  }

  /** A template with its lock and write plan. */
  function EnvOf(rules: Rules, template: Tree): Env {
    match LockOf(rules, template)
    case Some(lock) => Env(rules, template, lock, Plan(lock))
    case None => Env(rules, template, Lock([], [], [], 0, {}, 0, 0), [])
  }

  lemma CopiedIsInTemplate(env: Env, i: nat)
    requires Ready(env) && i < |env.plan| && env.plan[i].Copied?
    ensures env.plan[i].path in env.template.files
  {
    PlanCoversExpected(env.lock, PathOf(env.plan[i]));
  }

  lemma {:induction false} FetchedBytesGrow(plan: seq<Item>, m: nat, n: nat)
    requires m <= n <= |plan|
    ensures FetchedBytes(plan, m) <= FetchedBytes(plan, n)
  {
    if m < n { FetchedBytesGrow(plan, m, n - 1); }
  }

  /** The first `n` files are what the fetch delivers. */
  ghost predicate Delivered(env: Env, fetch: Fetch, files: map<Text, Bytes>, n: nat) {
    n <= |env.plan| && forall k :: 0 <= k < n ==> DeliveredItem(env, fetch, files, env.plan[k])
  }

  ghost predicate DeliveredItem(env: Env, fetch: Fetch, files: map<Text, Bytes>, item: Item) {
    PathOf(item) in files && files[PathOf(item)] == Received(Chunks(env, fetch, item))
  }

  lemma DeliveredGrows(env: Env, fetch: Fetch, files: map<Text, Bytes>, n: nat)
    requires DistinctPaths(env.plan) && n < |env.plan| && Delivered(env, fetch, files, n)
    ensures Delivered(env, fetch, files[PathOf(env.plan[n]) := Received(Chunks(env, fetch, env.plan[n]))], n + 1)
  {
    forall k | 0 <= k < n ensures PathOf(env.plan[k]) != PathOf(env.plan[n])
      && DeliveredItem(env, fetch, files, env.plan[k]) {
    }
  }

  lemma DeliveredShapes(env: Env, fetch: Fetch, tree: Tree)
    requires env.plan == Plan(env.lock) && Delivered(env, fetch, tree.files, |env.plan|)
    ensures Shaped(env, fetch) <==> forall i :: 0 <= i < |env.lock.assets| ==>
      ShapeHolds(env.rules, tree, env.lock.assets[i])
  {
    forall i | 0 <= i < |env.lock.assets|
      ensures ShapedAsset(env, fetch, env.lock.assets[i]) <==> ShapeHolds(env.rules, tree, env.lock.assets[i])
    {
      AssetItem(env.lock, i);
      assert DeliveredItem(env, fetch, tree.files, env.plan[|CONTROLS| + |env.lock.evidence| + i]);
    }
  }

  /** A filled stage verifies exactly when the delivered payloads have their shapes. */
  lemma StageVerdict(env: Env, fetch: Fetch, found: Option<Tree>, s: State)
    requires Inv(env, found, s) && s.phase == Filling && s.next == |env.plan|
    requires Delivered(env, fetch, s.stage.value.files, |env.plan|)
    ensures s.stage.Some?
    ensures Accepts(env.rules, s.stage.value) <==> Shaped(env, fetch)
    ensures Accepts(env.rules, s.stage.value) ==> SameResult(env, s.stage.value)
  {
    StageNeedsOnlyShapes(env, s.stage.value);
    DeliveredShapes(env, fetch, s.stage.value);
    if Accepts(env.rules, s.stage.value) { MismatchNeverHappens(env, s.stage.value); }
  }

  /** `verify_corpus` on the filled stage, and the comparison with the template's result. */
  method CheckStage(env: Env, ghost fetch: Fetch, ghost run: seq<State>, tree: Tree, expected: Verification)
    returns (r: Result<Verification>)
    requires IsRun(env, run)
    requires var s := run[|run| - 1]; s.phase == Filling && s.next == |env.plan| && s.stage == Some(tree)
    requires Delivered(env, fetch, tree.files, |env.plan|) && expected == ResultOf(env.lock)
    requires AllServed(env, fetch, |env.plan|)
    ensures r.Ok? <==> Publishable(env, fetch)
    ensures r.Ok? ==> r.value == expected && SameResult(env, tree)
  {
    RunsKeepInv(env, run, |run| - 1);
    StageVerdict(env, fetch, run[0].destination, run[|run| - 1]);
    r := VerifyCorpus(env.rules, tree);
    if r.Ok? && r.value != expected { r := Fail("reproduction_mismatch"); }
  }

  lemma ReadyIffAccepted(rules: Rules, template: Tree)
    requires IsTree(template)
    ensures Ready(EnvOf(rules, template)) <==> Accepts(rules, template)
    ensures Accepts(rules, template) ==> EnvOf(rules, template).lock == LockOf(rules, template).value
  {
  }

  lemma RunIsSafe(env: Env, run: seq<State>)
    requires IsRun(env, run)
    ensures forall k :: 0 <= k < |run| ==> Safe(env, run[0].destination, run[k].destination)
  {
    forall k | 0 <= k < |run| ensures Safe(env, run[0].destination, run[k].destination) {
      EveryRunIsSafe(env, run, k);
    }
  }

  lemma FinishedRun(env: Env, run: seq<State>)
    requires IsRun(env, run) && run[|run| - 1].phase in {Done, Failed}
    ensures Clean(run[|run| - 1])
    ensures run[|run| - 1].phase == Done ==>
      run[|run| - 1].destination.Some? && Complete(env, run[|run| - 1].destination.value)
  {
    RunsKeepInv(env, run, |run| - 1);
  }

  class Workspace {
    var destination: Option<Tree>
    var stage: Option<Tree>
    var temporary: Option<Bytes>
    var clock: nat
    ghost var run: seq<State>

    ghost predicate Valid(env: Env)
      reads this
    {
      IsRun(env, run) && OnDisk(run[|run| - 1])
    }

    ghost predicate OnDisk(s: State)
      reads this
    {
      s.destination == destination && s.stage == stage && s.temporary == temporary
    }

    ghost function Now(): State
      reads this
      requires run != []
    {
      run[|run| - 1]
    }

    /** What was at the destination when the run began. */
    ghost function Found(): Option<Tree>
      reads this
      requires run != []
    {
      run[0].destination
    }

    constructor (found: Option<Tree>)
      ensures destination == found && stage.None? && temporary.None? && clock == 0
      ensures run == [State(Start, 0, found, None, None, 0)]
    {
      destination, stage, temporary, clock := found, None, None, 0;
      run := [State(Start, 0, found, None, None, 0)];
    }

    /** Records that the disk now shows the next state. */
    ghost method Record(env: Env, t: State)
      requires IsRun(env, run) && Next(env, Now(), t) && OnDisk(t)
      modifies this`run
      ensures Valid(env) && run == old(run) + [t] && Found() == old(Found()) && Now() == t
    {
      RunGrows(env, run, t);
      run := run + [t];
    }

    method Tick(faults: Faults) returns (ok: bool)
      modifies this`clock
      ensures Faultless(faults) ==> ok
    {
      ok := !faults(clock);
      clock := clock + 1;
    }

    /** The `except` clause of a write: the temporary file is removed. */
    method Discard(ghost env: Env)
      requires Valid(env) && At(env, Now(), Writing) && temporary.Some?
      modifies this
      ensures Valid(env) && Found() == old(Found()) && destination == old(destination) && Now().phase == Failing
    {
      ghost var s := Now();
      temporary := None;
      Record(env, s.(phase := Failing, temporary := None));
    }

    /** Item `i` is being written. */
    ghost predicate WritingItem(env: Env, i: nat, files: map<Text, Bytes>, aggregate: nat)
      reads this
    {
      && Valid(env) && At(env, Now(), Writing) && Now().next == i && Now().aggregate == aggregate
      && temporary.Some? && stage.value.files == files
    }

    ghost predicate SameEnds(found: Option<Tree>, published: Option<Tree>)
      reads this
      requires run != []
    {
      Found() == found && destination == published
    }

    method OpenTemporary(env: Env, i: nat, faults: Faults) returns (ok: bool)
      requires Valid(env) && At(env, Now(), Filling) && Now().next == i
      modifies this
      ensures Valid(env) && SameEnds(old(Found()), old(destination))
      ensures ok ==> WritingItem(env, i, old(stage.value.files), old(Now().aggregate)) && temporary == Some([])
      ensures !ok ==> Now().phase == Filling && !Faultless(faults)
    {
      ghost var s := Now();
      ok := Tick(faults);
      if ok {
        stage := Some(Tree(stage.value.files, stage.value.directories + Parents(PathOf(env.plan[i]))));
        temporary := Some([]);
        Record(env, s.(phase := Writing, temporary := temporary, stage := stage));
      }
    }

    method AppendChunk(env: Env, i: nat, chunk: Chunk, faults: Faults) returns (r: Result<nat>)
      requires Valid(env) && At(env, Now(), Writing) && Now().next == i && temporary.Some?
      requires chunk.Some? ==> Source(env, env.plan[i], temporary.value, chunk.value)
      modifies this
      ensures Valid(env) && SameEnds(old(Found()), old(destination))
      ensures r.Ok? ==> WritingItem(env, i, old(stage.value.files), old(Now().aggregate))
      ensures r.Ok? ==> chunk.Some? && chunk.value != [] && temporary == Some(old(temporary.value) + chunk.value)
      ensures r.Ok? ==> |temporary.value| <= Limit(env.plan[i], env.lock)
      ensures r.Fail? ==> Now().phase == Failing
      ensures r.Fail? && Faultless(faults) ==>
        chunk.None? || chunk.value == [] || |old(temporary.value)| + |chunk.value| > Limit(env.plan[i], env.lock)
    {
      ghost var w := Now();
      if chunk.None? || chunk.value == [] {
        Discard(env);
        return Fail("response_chunk");
      }
      if |temporary.value| + |chunk.value| > Limit(env.plan[i], env.lock) {
        Discard(env);
        return Fail("response_size");
      }
      var ok := Tick(faults);
      if !ok {
        Discard(env);
        return Fail("os");
      }
      temporary := Some(temporary.value + chunk.value);
      assert Append(env, w, w.(temporary := temporary), chunk.value);
      Record(env, w.(temporary := temporary));
      return Ok(|temporary.value|);
    }

    /** Flush and rename. A rename that raises leaves the temporary file to the removal of the stage. */
    method Land(env: Env, i: nat, faults: Faults) returns (ok: bool)
      requires Valid(env) && At(env, Now(), Writing) && Now().next == i && temporary.Some?
      requires env.plan[i].Copied? ==> temporary.value != []
      modifies this
      ensures Valid(env) && SameEnds(old(Found()), old(destination))
      ensures ok ==> At(env, Now(), Landed) && Now().next == i && Now().aggregate == old(Now().aggregate)
      ensures ok ==> stage.value.files == old(stage.value.files)[PathOf(env.plan[i]) := old(temporary.value)]
      ensures !ok ==> Now().phase in {Writing, Failing} && !Faultless(faults)
    {
      ghost var w := Now();
      ok := Tick(faults);
      if !ok {
        Discard(env);
        return;
      }
      ok := Tick(faults);
      if !ok { return; }
      var received := temporary.value;
      stage, temporary := Some(stage.value.(files := stage.value.files[PathOf(env.plan[i]) := received])), None;
      Record(env, w.(phase := Landed, temporary := None, stage := stage));
    }

    /**
      `_atomic_write` of item `i`: all of the chunks land under the item's path, or nothing does. With
      no fault it succeeds exactly when the chunks are usable.
     */
    method AtomicWrite(env: Env, i: nat, chunks: seq<Chunk>, faults: Faults) returns (r: Result<(Text, nat)>)
      requires Valid(env) && At(env, Now(), Filling) && Now().next == i
      requires env.plan[i].Copied? ==>
        env.plan[i].path in env.template.files && chunks == [Some(env.template.files[env.plan[i].path])]
      modifies this
      ensures Valid(env) && SameEnds(old(Found()), old(destination))
      ensures r.Ok? ==> At(env, Now(), Landed) && Now().next == i && Now().aggregate == old(Now().aggregate)
      ensures r.Ok? ==> stage.value.files == old(stage.value.files)[PathOf(env.plan[i]) := Received(chunks)]
      ensures r.Ok? ==> r.value == (env.rules.sha(Received(chunks)), |Received(chunks)|)
      ensures r.Ok? ==> Streams(chunks, Limit(env.plan[i], env.lock))
      ensures r.Fail? ==> Now().phase in {Filling, Writing, Failing}
      ensures r.Fail? && Faultless(faults) ==> !Streams(chunks, Limit(env.plan[i], env.lock))
    {
      ghost var files, aggregate := stage.value.files, Now().aggregate;
      ghost var maximum := Limit(env.plan[i], env.lock);
      var ok := OpenTemporary(env, i, faults);
      if !ok { return Fail("os"); }
      for k := 0 to |chunks|
        invariant WritingItem(env, i, files, aggregate) && SameEnds(old(Found()), old(destination))
        invariant temporary == Some(Received(chunks[..k])) && Streams(chunks[..k], maximum)
      {
        assert chunks[..k + 1][..k] == chunks[..k];
        ReceivedGrows(chunks, k + 1);
        var appended := AppendChunk(env, i, chunks[k], faults);
        if appended.Fail? { return Fail(appended.category); }
      }
      assert chunks[..|chunks|] == chunks;
      var received := temporary.value;
      ok := Land(env, i, faults);
      if !ok { return Fail("os"); }
      return Ok((env.rules.sha(received), |received|));
    }

    /** One item of the plan; `total` counts the fetched bytes so far. */
    method WriteItem(env: Env, i: nat, fetch: Fetch, total: nat, faults: Faults) returns (r: Result<nat>)
      requires Valid(env) && At(env, Now(), Filling) && Now().next == i && Now().aggregate == total
      requires Ready(env)
      modifies this
      ensures Valid(env) && SameEnds(old(Found()), old(destination))
      ensures r.Ok? ==> Now().phase == Filling && Now().next == i + 1 && stage.Some? && Now().aggregate == r.value
      ensures r.Ok? ==> Served(env, fetch, env.plan[i])
      ensures r.Ok? ==>
        stage.value.files == old(stage.value.files)[PathOf(env.plan[i]) := Received(Chunks(env, fetch, env.plan[i]))]
      ensures r.Fail? ==> Now().phase in {Filling, Writing, Landed, Failing}
      ensures r.Fail? && Faultless(faults) && Served(env, fetch, env.plan[i]) ==> OverCap(env, i, total)
    {
      var item := env.plan[i];
      var chunks := Chunks(env, fetch, item);
      if item.Copied? {
        CopiedIsInTemplate(env, i);
        var read := Tick(faults);
        if !read { return Fail("os"); }
      } else {
        if fetch(item.asset.url).None? { return Fail("transport"); }
        var response := fetch(item.asset.url).value;
        if response.scheme != T("https") { return Fail("redirect_scheme"); }
        if response.host !in env.lock.redirectHosts { return Fail("redirect_host"); }
        if response.contentType !in item.asset.contentTypes { return Fail("response_type"); }
      }
      var written := AtomicWrite(env, i, chunks, faults);
      if written.Fail? { return Fail(written.category); }
      r := Admit(env, i, written.value.0, written.value.1, total);
    }

    ghost predicate OverCap(env: Env, i: nat, total: nat) {
      i < |env.plan| && env.plan[i].Fetched? && total + env.plan[i].asset.length > env.lock.maximumAggregate
    }

    /** The checks after a write: the aggregate cap, then the identity of a fetched payload. */
    method Admit(env: Env, i: nat, digest: Text, length: nat, total: nat) returns (r: Result<nat>)
      requires Valid(env) && At(env, Now(), Landed) && Now().next == i && Now().aggregate == total
      requires PathOf(env.plan[i]) in stage.value.files
      requires digest == env.rules.sha(stage.value.files[PathOf(env.plan[i])])
        && length == |stage.value.files[PathOf(env.plan[i])]|
      modifies this
      ensures Valid(env) && SameEnds(old(Found()), old(destination)) && stage == old(stage)
      ensures r.Ok? ==> Now().phase == Filling && Now().next == i + 1 && Now().aggregate == r.value
      ensures r.Ok? && env.plan[i].Fetched? ==> digest == env.plan[i].asset.sha && length == env.plan[i].asset.length
      ensures r.Fail? ==> Now().phase == Landed && env.plan[i].Fetched?
      ensures r.Fail? ==>
        digest != env.plan[i].asset.sha || length != env.plan[i].asset.length || OverCap(env, i, total)
    {
      ghost var s := Now();
      match env.plan[i]
      case Copied(_) =>
        Record(env, s.(phase := Filling, next := i + 1));
        return Ok(total);
      case Fetched(asset) =>
        if total + length > env.lock.maximumAggregate { return Fail("response_aggregate_size"); }
        if digest != asset.sha || length != asset.length { return Fail("response_identity"); }
        ghost var t := s.(phase := Filling, next := i + 1, aggregate := total + length);
        assert Identify(env, s, t);
        Record(env, t);
        return Ok(total + length);
    }

    /** The final `except` clause. */
    method Cleanup(ghost env: Env)
      requires Valid(env) && Now().phase != Done && Now().phase != Failed
      modifies this
      ensures Valid(env) && SameEnds(old(Found()), old(destination)) && Clean(Now()) && Now().phase == Failed
    {
      ghost var s := Now();
      stage, temporary := None, None;
      Record(env, s.(phase := Failed, stage := None, temporary := None));
    }

    /** Writes the whole plan. */
    method Fill(env: Env, fetch: Fetch, faults: Faults) returns (r: Result<nat>)
      requires Valid(env) && Ready(env) && Now().phase == Filling && Now().next == 0 && stage.Some?
      requires Now().aggregate == 0
      modifies this
      ensures Valid(env) && SameEnds(old(Found()), old(destination))
      ensures r.Ok? ==> Now().phase == Filling && Now().next == |env.plan| && stage.Some?
      ensures r.Ok? ==> AllServed(env, fetch, |env.plan|) && Delivered(env, fetch, stage.value.files, |env.plan|)
      ensures r.Fail? ==> Now().phase in {Filling, Writing, Landed, Failing}
      ensures r.Fail? && Faultless(faults) ==> !Publishable(env, fetch)
    {
      PlanIsDistinct(env.lock);
      var total := 0;
      for i := 0 to |env.plan|
        invariant Valid(env) && SameEnds(old(Found()), old(destination))
        invariant Now().phase == Filling && Now().next == i && stage.Some? && Now().aggregate == total
        invariant AllServed(env, fetch, i) && Delivered(env, fetch, stage.value.files, i)
      {
        RunsKeepInv(env, run, |run| - 1);
        DeliveredGrows(env, fetch, stage.value.files, i);
        var item := WriteItem(env, i, fetch, total, faults);
        if item.Fail? {
          FetchedBytesGrow(env.plan, i + 1, |env.plan|);
          return Fail(item.category);
        }
        total := item.value;
      }
      return Ok(total);
    }

    /** The stage verifies exactly when the delivered payloads have their shapes. */
    method VerifyStage(env: Env, fetch: Fetch, expected: Verification, faults: Faults) returns (r: Result<Verification>)
      requires Valid(env) && Now().phase == Filling && Now().next == |env.plan| && stage.Some?
      requires Delivered(env, fetch, stage.value.files, |env.plan|) && expected == ResultOf(env.lock)
      requires AllServed(env, fetch, |env.plan|)
      modifies this
      ensures Valid(env) && SameEnds(old(Found()), old(destination)) && stage == old(stage)
      ensures r.Ok? ==> Now().phase == Verified && Publishable(env, fetch) && r.value == expected
      ensures r.Fail? ==> Now().phase == Filling && (Faultless(faults) ==> !Publishable(env, fetch))
    {
      var ok := Tick(faults);
      if !ok { return Fail("os"); }
      r := CheckStage(env, fetch, run, stage.value, expected);
      if r.Ok? { MarkVerified(env); }
    }

    ghost method MarkVerified(env: Env)
      requires Valid(env) && Now().phase == Filling && Now().next == |env.plan| && stage.Some?
      requires SameResult(env, stage.value)
      modifies this`run
      ensures Valid(env) && SameEnds(old(Found()), old(destination)) && Now().phase == Verified
    {
      var s := Now();
      assert Verify(env, s, s.(phase := Verified));
      Record(env, s.(phase := Verified));
    }

    /** The rename of the stage. An exception can come before or after it. */
    method PublishStage(env: Env, faults: Faults) returns (ok: bool)
      requires Valid(env) && Now().phase == Verified && stage.Some? && destination.None?
      modifies this
      ensures Valid(env) && Found() == old(Found())
      ensures ok ==> Now().phase == Done && destination == old(stage)
      ensures !ok ==> Now().phase in {Verified, Published} && !Faultless(faults)
    {
      ghost var s := Now();
      ok := Tick(faults);
      if !ok { return; }
      destination, stage := stage, None;
      Record(env, s.(phase := Published, destination := s.stage, stage := None));
      ok := Tick(faults);
      if ok { Record(env, Now().(phase := Done)); }
    }

    /** The stage is created unless the template fails to verify or the destination exists. */
    method Prepare(env: Env, faults: Faults) returns (r: Result<Verification>)
      requires Valid(env) && Initial(Now()) && destination == Found()
      requires IsTree(env.template) && env == EnvOf(env.rules, env.template)
      modifies this
      ensures Valid(env) && SameEnds(old(Found()), old(destination))
      ensures r.Ok? ==> Ready(env) && destination.None? && r.value == ResultOf(env.lock)
      ensures r.Ok? ==>
        Now().phase == Filling && Now().next == 0 && Now().aggregate == 0 && stage.Some? && stage.value.files == map[]
      ensures r.Fail? ==> Now().phase == Start && (Faultless(faults) ==> destination.Some? || !Ready(env))
    {
      ReadyIffAccepted(env.rules, env.template);
      var template := VerifyCorpus(env.rules, env.template);
      if template.Fail? { return template; }
      if destination.Some? { return Fail("FileExistsError"); }
      var ok := OpenStage(env, faults);
      if !ok { return Fail("os"); }
      return template;
    }

    method OpenStage(env: Env, faults: Faults) returns (ok: bool)
      requires Valid(env) && Initial(Now()) && destination.None? && Ready(env)
      modifies this
      ensures Valid(env) && SameEnds(old(Found()), old(destination))
      ensures ok ==> Now().phase == Filling && Now().next == 0 && Now().aggregate == 0 && stage == Some(Tree(map[], {}))
      ensures !ok ==> Now().phase == Start && !Faultless(faults)
    {
      ghost var s := Now();
      ok := Tick(faults);
      if ok {
        stage := Some(Tree(map[], {}));
        assert Begin(env, s, s.(phase := Filling, stage := stage));
        Record(env, s.(phase := Filling, stage := stage));
      }
    }

    /**
      `reproduce_corpus`. Success publishes a complete tree of the delivered bytes; failure leaves no
      stage and a safe destination. At every moment of the call the destination was safe. With no fault
      the call succeeds exactly when the destination was absent and the delivery is publishable.
     */
    method Reproduce(env: Env, fetch: Fetch, faults: Faults) returns (r: Result<Verification>)
      requires Valid(env) && Initial(Now()) && destination == Found()
      requires IsTree(env.template) && env == EnvOf(env.rules, env.template)
      modifies this
      ensures Valid(env) && Found() == old(destination)
      ensures forall k :: 0 <= k < |run| ==> Safe(env, old(destination), run[k].destination)
      ensures stage.None? && temporary.None?
      ensures r.Ok? ==>
        old(destination).None? && destination.Some? && Complete(env, destination.value) && r.value == ResultOf(env.lock)
      ensures r.Ok? ==> Publishable(env, fetch) && Delivered(env, fetch, destination.value.files, |env.plan|)
      ensures r.Fail? ==> Safe(env, old(destination), destination)
      ensures Faultless(faults) ==> (r.Ok? <==> old(destination).None? && Publishable(env, fetch))
    {
      r := Attempt(env, fetch, faults);
      Settle(env, r.Fail?);
    }

    /** After the attempt: clean up if it failed. Either way the run is finished and was always safe. */
    method Settle(env: Env, failed: bool)
      requires Valid(env) && (failed ==> Now().phase != Done && Now().phase != Failed)
        && (!failed ==> Now().phase == Done)
      modifies this
      ensures Valid(env) && SameEnds(old(Found()), old(destination)) && stage.None? && temporary.None?
      ensures forall k :: 0 <= k < |run| ==> Safe(env, Found(), run[k].destination)
      ensures Safe(env, Found(), destination)
      ensures !failed ==> destination.Some? && Complete(env, destination.value)
    {
      if failed { Cleanup(env); }
      RunIsSafe(env, run);
      FinishedRun(env, run);
      assert run[|run| - 1].destination == destination;
    }

    /** The body of the `try` statement. */
    method Attempt(env: Env, fetch: Fetch, faults: Faults) returns (r: Result<Verification>)
      requires Valid(env) && Initial(Now()) && destination == Found()
      requires IsTree(env.template) && env == EnvOf(env.rules, env.template)
      modifies this
      ensures Valid(env) && Found() == old(destination)
      ensures r.Ok? ==>
        Now().phase == Done && old(destination).None? && destination.Some? && r.value == ResultOf(env.lock)
      ensures r.Ok? ==> Publishable(env, fetch) && Delivered(env, fetch, destination.value.files, |env.plan|)
      ensures r.Fail? ==> Now().phase != Done && Now().phase != Failed
      ensures r.Fail? && Faultless(faults) ==> old(destination).Some? || !Publishable(env, fetch)
    {
      var expected := Prepare(env, faults);
      if expected.Fail? { return expected; }
      var filled := Fill(env, fetch, faults);
      if filled.Fail? { return Fail(filled.category); }
      r := VerifyStage(env, fetch, expected.value, faults);
      if r.Fail? { return; }
      var ok := PublishStage(env, faults);
      if !ok { return Fail("os"); }
    }
  }
}
