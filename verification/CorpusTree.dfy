/**
  The corpus tree of `realworld_corpus.py` and the predicate that `verify_corpus` decides.

  A tree is its regular files and its directories. The shape checks that need other formats (the JSON
  of the lock and its scalar fields, PDF and ZIP payloads, the provider snapshots) are parameters.
 */
module CorpusTree {
  import opened Wrappers
  import opened Unicode

  datatype Tree = Tree(files: map<Text, Bytes>, directories: set<Text>)

  datatype Asset = Asset(path: Text, sha: Text, length: nat, format: Text, contentTypes: set<Text>, url: Text,
                         rights: Text)

  datatype Record = Record(path: Text, sha: Text, length: nat)

  datatype Lock = Lock(corpusId: Text, assets: seq<Asset>, evidence: seq<Record>, aggregate: nat,
                       redirectHosts: set<Text>, maximumFile: nat, maximumAggregate: nat)

  /** What the model takes from elsewhere. */
  datatype Rules = Rules(sha: Bytes -> Text, parse: Bytes -> Option<Lock>, shape: (Text, Bytes) -> bool,
                         schema: Bytes -> bool, snapshots: (Lock, seq<Bytes>) -> bool)

  /** `CorpusVerification`. */
  datatype Verification = Verification(corpusId: Text, formats: seq<Text>, payloadBytes: nat, payloadCount: nat,
                                       rights: seq<Text>)

  const MIB: nat := 1_048_576

  const LOCK_NAME: Text := T("corpus-lock.json")

  const SCHEMA_NAME: Text := T("corpus-lock.schema.json")

  /** `sorted(_CONTROL_FILES)`. */
  const CONTROLS: seq<Text> := [T("README.md"), T("THIRD_PARTY_NOTICES.md"), LOCK_NAME, SCHEMA_NAME]

  function Directories(): set<Text> {
    {T("evidence"), T("sources")}
  }

  function Formats(): set<Text> {
    {T("csv"), T("docx"), T("md"), T("pdf"), T("pptx"), T("txt")}
  }

  // ---------------------------------------------------------------- the lock

  function AssetPaths(assets: seq<Asset>): (r: seq<Text>)
    ensures |r| == |assets|
  {
    seq(|assets|, i requires 0 <= i < |assets| => assets[i].path)
  }

  function RecordPaths(records: seq<Record>): (r: seq<Text>)
    ensures |r| == |records|
  {
    seq(|records|, i requires 0 <= i < |records| => records[i].path)
  }

  function SumLengths(assets: seq<Asset>): nat {
    if assets == [] then 0 else SumLengths(assets[..|assets| - 1]) + assets[|assets| - 1].length
  }

  predicate StartsWith(path: Text, prefix: Text) {
    |prefix| <= |path| && path[..|prefix|] == prefix
  }

  function FormatsOf(assets: seq<Asset>): set<Text> {
    set i | 0 <= i < |assets| :: assets[i].format
  }

  function RightsOf(assets: seq<Asset>): set<Text> {
    set i | 0 <= i < |assets| :: assets[i].rights
  }

  /** The part of `_validate_lock` that relates fields of the lock. */
  predicate ValidLock(l: Lock) {
    && |l.assets| == 6 && |l.evidence| == 4
    && (forall i :: 0 <= i < |l.assets| ==> StartsWith(l.assets[i].path, T("sources/")) && l.assets[i].length > 0)
    && (forall i :: 0 <= i < |l.evidence| ==>
      StartsWith(l.evidence[i].path, T("evidence/")) && l.evidence[i].length > 0)
    && Sorted(AssetPaths(l.assets)) && Sorted(RecordPaths(l.evidence))
    && FormatsOf(l.assets) == Formats()
    && l.aggregate == SumLengths(l.assets)
    && l.maximumFile > 0 && l.maximumAggregate > 0
  }

  /** `sorted(set(xs)) == xs`. */
  predicate Sorted(keys: seq<Text>) {
    forall i, j :: 0 <= i < j < |keys| ==> Less(keys[i], keys[j])
  }

  /** The files a closed tree must have. */
  function ExpectedFiles(l: Lock): set<Text> {
    (set i | 0 <= i < |CONTROLS| :: CONTROLS[i])
    + (set i | 0 <= i < |l.evidence| :: l.evidence[i].path)
    + (set i | 0 <= i < |l.assets| :: l.assets[i].path)
  }

  // ---------------------------------------------------------------- acceptance

  function LockOf(rules: Rules, tree: Tree): Option<Lock> {
    if LOCK_NAME in tree.files && |tree.files[LOCK_NAME]| <= MIB then rules.parse(tree.files[LOCK_NAME]) else None
  }

  predicate Closed(l: Lock, tree: Tree) {
    tree.files.Keys == ExpectedFiles(l) && tree.directories == Directories()
  }

  predicate AssetMatches(rules: Rules, tree: Tree, a: Asset) {
    a.path in tree.files && rules.sha(tree.files[a.path]) == a.sha && |tree.files[a.path]| == a.length
  }

  predicate RecordMatches(rules: Rules, tree: Tree, e: Record) {
    e.path in tree.files && rules.sha(tree.files[e.path]) == e.sha && |tree.files[e.path]| == e.length
  }

  predicate ShapeHolds(rules: Rules, tree: Tree, a: Asset) {
    a.path in tree.files && rules.shape(a.format, tree.files[a.path])
  }

  function Snapshots(l: Lock, tree: Tree): seq<Bytes> {
    seq(|l.evidence|, i requires 0 <= i < |l.evidence| =>
      if l.evidence[i].path in tree.files then tree.files[l.evidence[i].path] else [])
  }

  /** Everything `verify_corpus` asks of a tree whose lock is `l`. */
  ghost predicate Conforms(rules: Rules, tree: Tree, l: Lock) {
    && ValidLock(l) && Closed(l, tree)
    && (forall i :: 0 <= i < |l.assets| ==> AssetMatches(rules, tree, l.assets[i]))
    && (forall i :: 0 <= i < |l.assets| ==> ShapeHolds(rules, tree, l.assets[i]))
    && (forall i :: 0 <= i < |l.evidence| ==> RecordMatches(rules, tree, l.evidence[i]))
    && SCHEMA_NAME in tree.files && rules.schema(tree.files[SCHEMA_NAME])
    && rules.snapshots(l, Snapshots(l, tree))
  }

  ghost predicate Accepts(rules: Rules, tree: Tree) {
    LockOf(rules, tree).Some? && Conforms(rules, tree, LockOf(rules, tree).value)
  }

  function ResultOf(l: Lock): Verification {
    Verification(l.corpusId, SortedKeys(FormatsOf(l.assets)), l.aggregate, |l.assets|, SortedKeys(RightsOf(l.assets)))
  }

  /** The asset half of the digest loop; the total of the lengths read. */
  method VerifyAssets(rules: Rules, tree: Tree, assets: seq<Asset>) returns (r: Result<nat>)
    ensures r.Ok? <==> forall k :: 0 <= k < |assets| ==>
      AssetMatches(rules, tree, assets[k]) && ShapeHolds(rules, tree, assets[k])
    ensures r.Ok? ==> r.value == SumLengths(assets)
  {
    var total := 0;
    for i := 0 to |assets|
      invariant total == SumLengths(assets[..i])
      invariant forall k :: 0 <= k < i ==> AssetMatches(rules, tree, assets[k]) && ShapeHolds(rules, tree, assets[k])
    {
      var a := assets[i];
      if !AssetMatches(rules, tree, a) { return Fail("byte_mismatch"); }
      total := total + |tree.files[a.path]|;
      assert assets[..i + 1][..i] == assets[..i];
      if !ShapeHolds(rules, tree, a) { return Fail("payload_format"); }
    }
    assert assets[..|assets|] == assets;
    return Ok(total);
  }

  /** The evidence half. */
  method VerifyRecords(rules: Rules, tree: Tree, records: seq<Record>) returns (ok: bool)
    ensures ok <==> forall k :: 0 <= k < |records| ==> RecordMatches(rules, tree, records[k])
  {
    for i := 0 to |records|
      invariant forall k :: 0 <= k < i ==> RecordMatches(rules, tree, records[k])
    {
      if !RecordMatches(rules, tree, records[i]) { return false; }
    }
    return true;
  }

  lemma SchemaIsExpected(l: Lock, tree: Tree)
    requires Closed(l, tree)
    ensures SCHEMA_NAME in tree.files
  {
    assert CONTROLS[3] == SCHEMA_NAME;
    assert SCHEMA_NAME in ExpectedFiles(l);
  }

  /** Every check after the lock has been read; the total payload length. */
  method CheckTree(rules: Rules, tree: Tree, l: Lock) returns (r: Result<nat>)
    ensures r.Ok? <==> Conforms(rules, tree, l)
    ensures r.Ok? ==> r.value == l.aggregate
  {
    if !ValidLock(l) { return Fail("lock_fields"); }
    if !Closed(l, tree) { return Fail("tree_inventory"); }
    var total := VerifyAssets(rules, tree, l.assets);
    if total.Fail? { return total; }
    var recorded := VerifyRecords(rules, tree, l.evidence);
    if !recorded { return Fail("byte_mismatch"); }
    if total.value != l.aggregate { return Fail("aggregate_bytes"); }
    SchemaIsExpected(l, tree);
    if !rules.schema(tree.files[SCHEMA_NAME]) { return Fail("schema"); }
    if !rules.snapshots(l, Snapshots(l, tree)) { return Fail("evidence_mapping"); }
    return total;
  }

  /** `verify_corpus`. */
  method VerifyCorpus(rules: Rules, tree: Tree) returns (r: Result<Verification>)
    ensures r.Ok? <==> Accepts(rules, tree)
    ensures r.Ok? ==> r.value == ResultOf(LockOf(rules, tree).value)
  {
    var lock := LockOf(rules, tree);
    if lock.None? { return Fail("lock_file"); }
    var total := CheckTree(rules, tree, lock.value);
    if total.Fail? { return Fail(total.category); }
    var formats, rights := SortedKeys(FormatsOf(lock.value.assets)), SortedKeys(RightsOf(lock.value.assets));
    return Ok(Verification(lock.value.corpusId, formats, total.value, |lock.value.assets|, rights));
  }
}
