/** An accepted package is a complete and valid bag (section 3 of RFC 8493). */
module PackageValidity {
  import opened Wrappers
  import opened Unicode
  import opened CanonicalJson
  import opened Evidence
  import opened Manifests
  import opened InterchangePackage

  /**
    What hashing the archive meets: no regular file that can be read, or one with a declared size, with content
    that is streamed, and the same before and after or not.
   */
  datatype Sight = Unreadable | Regular(size: nat, content: Bytes, steady: bool)

  /** The archive file as it is seen before and after, a comment, and its members. */
  datatype Package = Package(first: Sight, comment: bool, entries: seq<Entry>, again: Sight)

  /** Every digest here is written with its "sha256:" prefix. */
  datatype Report = Report(archiveSha: Text, archiveBytes: nat, assetCount: nat, entryCount: nat, packageId: Text,
                           payloadBytes: nat, relationshipCount: nat)

  /** Parsed records satisfy the record model's own invariants. */
  ghost predicate Sound(env: Env) {
    forall data :: env.parse(data).Ok? ==> RecordInvariant(env.parse(data).value)
  }

  // ---------------------------------------------------------------- the archive file

  const CHUNK_SIZE: nat := 1_048_576

  /** `_hash_archive`, as a function of what it meets. */
  function HashOf(sha: Hash, sight: Sight, limit: nat): Result<(Text, nat)> {
    match sight
    case Unreadable => Fail("malformed_package")
    case Regular(size, content, steady) =>
      if size > limit || |content| > limit then Fail("resource_exhausted")
      else if !steady then Fail("source_changed")
      else Ok((sha(content), |content|))
  }

  /** The hash and the length of the file. */
  predicate IsHash(hashed: (Text, nat), sight: Sight, sha: Hash) {
    sight.Regular? && hashed == (sha(sight.content), |sight.content|)
  }

  /** The loop of `_hash_archive`: the length is checked after every chunk. */
  method HashArchive(sha: Hash, sight: Sight, limit: nat) returns (r: Result<(Text, nat)>)
    ensures r == HashOf(sha, sight, limit)
    ensures r.Ok? ==> IsHash(r.value, sight, sha)
  {
    if sight.Unreadable? { return Fail("malformed_package"); }
    if sight.size > limit { return Fail("resource_exhausted"); }
    var hashed: Bytes, length := [], 0;
    while length < |sight.content|
      invariant length <= |sight.content| && hashed == sight.content[..length] && length <= limit
    {
      var end := if |sight.content| - length < CHUNK_SIZE then |sight.content| else length + CHUNK_SIZE;
      hashed := hashed + sight.content[length..end];
      length := end;
      if length > limit { return Fail("resource_exhausted"); }
    }
    if !sight.steady { return Fail("source_changed"); }
    assert hashed == sight.content;
    return Ok((sha(hashed), length));
  }

  // ---------------------------------------------------------------- validation

  function RecordOf(pkg: Package, env: Env): Result<Record> {
    var files := ByName(pkg.entries);
    if RECORD_NAME in files then env.parse(ContentOf(files[RECORD_NAME])) else Fail("malformed_package")
  }

  /** The conditions on the members, given the parsed record. */
  ghost predicate MembersAgree(entries: seq<Entry>, record: Record, limits: Limits, env: Env)
    requires RecordInvariant(record) && REQUIRED_TAGS <= Names(entries)
  {
    && record.relationships <= limits.maxRelationships
    && TagsAcceptable(ByName(entries), record, limits, env)
    && AllMembersAcceptable(entries, ExpectedAssets(record.assets), limits, env)
    && PayloadNames(entries) == ExpectedAssets(record.assets).Keys
  }

  /** All the conditions of `validate`. */
  ghost predicate Accepted(pkg: Package, limits: Limits, env: Env)
    requires Sound(env)
  {
    && HashOf(env.sha, pkg.first, limits.maxArchiveBytes).Ok? && !pkg.comment
    && HashOf(env.sha, pkg.again, limits.maxArchiveBytes) == HashOf(env.sha, pkg.first, limits.maxArchiveBytes)
    && Opened(pkg, limits, env)
  }

  /** The conditions on what the archive holds. */
  ghost predicate Opened(pkg: Package, limits: Limits, env: Env)
    requires Sound(env)
  {
    && InfosAcceptable(pkg.entries, limits, env)
    && RecordOf(pkg, env).Ok?
    && MembersAgree(pkg.entries, RecordOf(pkg, env).value, limits, env)
  }

  method ValidateMembers(entries: seq<Entry>, record: Record, limits: Limits, env: Env) returns (r: Result<nat>)
    requires RecordInvariant(record) && REQUIRED_TAGS <= Names(entries)
    ensures r.Ok? <==> MembersAgree(entries, record, limits, env)
    ensures r.Ok? ==> r.value == PayloadBytes(entries)
  {
    if record.relationships > limits.maxRelationships {
      return Fail("resource_exhausted");
    }
    var _ :- ValidateTags(ByName(entries), record, limits, env);
    r := VerifyMembers(entries, record, limits, env);
  }

  lemma AcceptedRecordIsRead(pkg: Package, limits: Limits, env: Env)
    requires Sound(env) && Opened(pkg, limits, env)
    ensures ReadMember(ByName(pkg.entries)[RECORD_NAME], limits) == Ok(ContentOf(ByName(pkg.entries)[RECORD_NAME]))
  {
    assert RECORD_NAME in REQUIRED_TAGS;
  }

  /** The record and the payload byte count. */
  predicate SeenIn(seen: (Record, nat), pkg: Package, env: Env) {
    RecordOf(pkg, env) == Ok(seen.0) && seen.1 == PayloadBytes(pkg.entries)
  }

  /** The passes over the open archive. */
  method ValidateOpened(pkg: Package, limits: Limits, env: Env) returns (r: Result<(Record, nat)>)
    requires Sound(env)
    ensures r.Ok? <==> Opened(pkg, limits, env)
    ensures r.Ok? ==> SeenIn(r.value, pkg, env)
  {
    ghost var all := Opened(pkg, limits, env);
    if all { AcceptedRecordIsRead(pkg, limits, env); }
    var _ :- ValidateInfos(pkg.entries, limits, env);
    var data :- ReadMember(ByName(pkg.entries)[RECORD_NAME], limits);
    var record :- env.parse(data);
    var payloadBytes :- ValidateMembers(pkg.entries, record, limits, env);
    return Ok((record, payloadBytes));
  }

  /** The second hash of the archive, and the report. */
  method Conclude(sha: Hash, again: Sight, limit: nat, first: (Text, nat), entryCount: nat, seen: (Record, nat))
    returns (r: Result<Report>)
    ensures r.Ok? <==> HashOf(sha, again, limit) == Ok(first)
    ensures r.Ok? ==> r.value == ReportOf(first, entryCount, seen)
  {
    var hashed :- HashArchive(sha, again, limit);
    if hashed != first {
      return Fail("source_changed");
    }
    return Ok(ReportOf(first, entryCount, seen));
  }

  function ReportOf(first: (Text, nat), entryCount: nat, seen: (Record, nat)): Report {
    var (record, payloadBytes) := seen;
    Report(first.0, first.1, |record.assets|, entryCount, record.packageId, payloadBytes, record.relationships)
  }

  /** The report gives the hash and length of the archive file, and the facts of its members and its record. */
  ghost predicate ReportsOn(report: Report, pkg: Package, env: Env) {
    exists first, seen :: IsHash(first, pkg.first, env.sha) && SeenIn(seen, pkg, env)
                          && report == ReportOf(first, |pkg.entries|, seen)
  }

  /** What follows the first hash of the archive. */
  method ValidateHashed(pkg: Package, limits: Limits, env: Env, first: (Text, nat)) returns (r: Result<Report>)
    requires Sound(env) && IsHash(first, pkg.first, env.sha)
    ensures r.Ok? <==>
      !pkg.comment && Opened(pkg, limits, env) && HashOf(env.sha, pkg.again, limits.maxArchiveBytes) == Ok(first)
    ensures r.Ok? ==> ReportsOn(r.value, pkg, env)
  {
    if pkg.comment {
      return Fail("policy_rejected");
    }
    var seen :- ValidateOpened(pkg, limits, env);
    r := Conclude(env.sha, pkg.again, limits.maxArchiveBytes, first, |pkg.entries|, seen);
  }

  /** `validate`. */
  method Validate(pkg: Package, limits: Limits, env: Env) returns (r: Result<Report>)
    requires Sound(env)
    ensures r.Ok? <==> Accepted(pkg, limits, env)
    ensures r.Ok? ==> ReportsOn(r.value, pkg, env)
  {
    var first :- HashArchive(env.sha, pkg.first, limits.maxArchiveBytes);
    r := ValidateHashed(pkg, limits, env, first);
  }

  // ---------------------------------------------------------------- sums over a map

  function SumValues(m: map<Text, nat>): nat
    decreases |m|
  {
    if m == map[] then 0 else var k := Least(m.Keys); m[k] + SumValues(m - {k})
  }

  lemma {:induction false} SumWithout(m: map<Text, nat>, k: Text)
    requires k in m
    ensures SumValues(m) == m[k] + SumValues(m - {k})
    decreases |m|
  {
    var l := Least(m.Keys);
    if l != k {
      SumWithout(m - {l}, k);
      SumWithout'(m, k, l);
    }
  }

  lemma SumWithout'(m: map<Text, nat>, k: Text, l: Text)
    requires k in m && l == Least(m.Keys) && l != k
    ensures SumValues(m - {k}) == m[l] + SumValues(m - {l} - {k})
  {
    var n := m - {k};
    LessTotal(l, Least(n.Keys));
    assert Least(n.Keys) in m.Keys && l in n.Keys;
    assert Least(n.Keys) == l;
    assert n - {l} == m - {l} - {k};
  }

  lemma SumWith(m: map<Text, nat>, k: Text, v: nat)
    requires k !in m
    ensures SumValues(m[k := v]) == SumValues(m) + v
  {
    SumWithout(m[k := v], k);
    assert m[k := v] - {k} == m;
  }

  /** The payload sizes of the members by name. */
  function SizesByName(entries: seq<Entry>): (m: map<Text, nat>)
    ensures m.Keys == PayloadNames(entries)
  {
    if entries == [] then map[]
    else
      var n := |entries| - 1;
      PayloadNamesGrow(entries, n);
      assert entries[..n + 1] == entries;
      var m := SizesByName(entries[..n]);
      if entries[n].name in REQUIRED_TAGS then m else m[entries[n].name := PayloadSize(entries[n])]
  }

  lemma PrefixIsSorted(entries: seq<Entry>)
    requires EntriesSorted(entries) && entries != []
    ensures EntriesSorted(entries[..|entries| - 1])
  {
  }

  lemma {:induction false} SizesByNameFinds(entries: seq<Entry>, i: nat)
    requires EntriesSorted(entries) && i < |entries| && entries[i].name !in REQUIRED_TAGS
    ensures entries[i].name in SizesByName(entries)
    ensures SizesByName(entries)[entries[i].name] == |ContentOf(entries[i])|
  {
    var n := |entries| - 1;
    if i < n {
      LessTotal(entries[i].name, entries[n].name);
      PrefixIsSorted(entries);
      SizesByNameFinds(entries[..n], i);
    }
  }

  lemma {:induction false} PayloadBytesByName(entries: seq<Entry>)
    requires EntriesSorted(entries)
    ensures PayloadBytes(entries) == SumValues(SizesByName(entries))
  {
    if entries != [] {
      var n := |entries| - 1;
      PayloadBytesByName(entries[..n]);
      if entries[n].name !in REQUIRED_TAGS {
        forall i | 0 <= i < n ensures entries[i].name != entries[n].name { LessTotal(entries[i].name,
          entries[n].name); }
        SumWith(SizesByName(entries[..n]), entries[n].name, PayloadSize(entries[n]));
      }
    }
  }

  /** The declared lengths of the included assets by payload path. */
  function LengthsByPath(assets: seq<Asset>): map<Text, nat> {
    var expected := ExpectedAssets(assets);
    map path | path in expected :: expected[path].byteLength
  }

  /** Every included asset has a payload path, and no two share one. */
  ghost predicate PathsKeyed(assets: seq<Asset>) {
    && (forall i :: 0 <= i < |assets| && assets[i].included ==> assets[i].payloadPath.Some?)
    && (forall i, j :: 0 <= i < j < |assets| && assets[i].included && assets[j].included ==>
          assets[i].payloadPath != assets[j].payloadPath)
  }

  lemma RecordPathsKeyed(r: Record)
    requires RecordInvariant(r)
    ensures PathsKeyed(r.assets)
  {
    forall i, j | 0 <= i < j < |r.assets| && r.assets[i].included && r.assets[j].included
      ensures r.assets[i].payloadPath != r.assets[j].payloadPath
    {
      if PayloadPath(r.assets[i].objectId) == PayloadPath(r.assets[j].objectId) {
        PayloadPathInjective(r.assets[i].objectId, r.assets[j].objectId);
      }
    }
  }

  lemma PayloadPathInjective(a: Text, b: Text)
    requires IsDigest(a) && IsDigest(b) && PayloadPath(a) == PayloadPath(b)
    ensures a == b
  {
    var p, q := PayloadPath(a), PayloadPath(b);
    var n := |PAYLOAD_ROOT|;
    assert p[n..n + 2] == a[7..9] && q[n..n + 2] == b[7..9];
    assert p[n + 3..] == a[9..] && q[n + 3..] == b[9..];
    assert a == a[..7] + a[7..9] + a[9..] && b == b[..7] + b[7..9] + b[9..];
    assert a[..7] == T("sha256:") == b[..7];
  }

  lemma PrefixIsKeyed(assets: seq<Asset>)
    requires PathsKeyed(assets) && assets != []
    ensures PathsKeyed(assets[..|assets| - 1])
  {
  }

  lemma LastPathDiffers(assets: seq<Asset>, i: nat)
    requires PathsKeyed(assets) && i < |assets| - 1 && assets[i].included
    ensures assets[|assets| - 1].included ==> assets[i].payloadPath != assets[|assets| - 1].payloadPath
  {
  }

  /** What the dict holds of the earlier assets, it holds of all. */
  lemma ExpectedKeeps(assets: seq<Asset>, i: nat, path: Text)
    requires PathsKeyed(assets) && i < |assets| - 1 && assets[i].included && assets[i].payloadPath == Some(path)
    requires path in ExpectedAssets(assets[..|assets| - 1])
    ensures path in ExpectedAssets(assets)
    ensures ExpectedAssets(assets)[path] == ExpectedAssets(assets[..|assets| - 1])[path]
  {
    LastPathDiffers(assets, i);
    IncludedGrows(assets);
  }

  /** The dict of included assets loses none of them. */
  lemma {:induction false} ExpectedFinds(assets: seq<Asset>, i: nat)
    requires PathsKeyed(assets) && i < |assets| && assets[i].included
    ensures assets[i].payloadPath.value in ExpectedAssets(assets)
    ensures ExpectedAssets(assets)[assets[i].payloadPath.value] == assets[i]
  {
    var n := |assets| - 1;
    if i < n {
      PrefixIsKeyed(assets);
      ExpectedFinds(assets[..n], i);
      ExpectedKeeps(assets, i, assets[i].payloadPath.value);
    } else {
      IncludedGrows(assets);
    }
  }

  lemma LastPathIsNew(assets: seq<Asset>)
    requires PathsKeyed(assets) && assets != [] && assets[|assets| - 1].included
    ensures assets[|assets| - 1].payloadPath.value !in ExpectedAssets(assets[..|assets| - 1])
  {
    var before := ExpectedAssets(assets[..|assets| - 1]);
    assert forall k :: k in before ==> before[k] in assets[..|assets| - 1];
  }

  lemma {:induction false} IncludedByPath(assets: seq<Asset>)
    requires PathsKeyed(assets)
    ensures SumLengths(Included(assets)) == SumValues(LengthsByPath(assets))
    ensures |Included(assets)| == |ExpectedAssets(assets)|
  {
    if assets != [] {
      var n := |assets| - 1;
      var last, before := assets[n], assets[..n];
      PrefixIsKeyed(assets);
      IncludedByPath(before);
      IncludedGrows(assets);
      if last.included {
        LastPathIsNew(assets);
        LengthsWith(before, assets, last.payloadPath.value, last);
        SumLengthsWith(Included(before), last);
      }
    }
  }

  lemma IncludedGrows(assets: seq<Asset>)
    requires PathsKeyed(assets) && assets != []
    ensures var last, before := assets[|assets| - 1], assets[..|assets| - 1];
            && Included(assets) == (if last.included then Included(before) + [last] else Included(before))
            && ExpectedAssets(assets) == if last.included then ExpectedAssets(before)[last.payloadPath.value :=
              last] else ExpectedAssets(before)
  {
  }

  lemma SumLengthsWith(assets: seq<Asset>, last: Asset)
    ensures SumLengths(assets + [last]) == SumLengths(assets) + last.byteLength
  {
    assert (assets + [last])[..|assets|] == assets;
  }

  lemma LengthsWith(before: seq<Asset>, after: seq<Asset>, path: Text, last: Asset)
    requires path !in ExpectedAssets(before) && ExpectedAssets(after) == ExpectedAssets(before)[path := last]
    ensures SumValues(LengthsByPath(after)) == SumValues(LengthsByPath(before)) + last.byteLength
  {
    assert LengthsByPath(after) == LengthsByPath(before)[path := last.byteLength];
    SumWith(LengthsByPath(before), path, last.byteLength);
  }

  // ---------------------------------------------------------------- complete and valid

  /** The members are exactly the five tag files and the payload of each included asset. */
  ghost predicate Complete(entries: seq<Entry>, record: Record) {
    && (forall i, j :: 0 <= i < j < |entries| ==> entries[i].name != entries[j].name)
    && (forall name :: name in Names(entries) <==>
          name in REQUIRED_TAGS
          || exists a :: a in record.assets && a.included && a.payloadPath == Some(name))
  }

  /** A manifest agrees with the members it names. */
  ghost predicate DigestsAgree(entries: seq<Entry>, m: Manifest, env: Env) {
    forall i :: 0 <= i < |entries| && entries[i].name in m ==>
      entries[i].content.Some? && env.sha(entries[i].content.value) == T("sha256:") + m[entries[i].name]
  }

  /** Every payload member is an included asset's exact bytes. */
  ghost predicate PayloadExact(entries: seq<Entry>, record: Record, env: Env) {
    forall i :: 0 <= i < |entries| && entries[i].name !in REQUIRED_TAGS ==>
      exists a :: a in record.assets && a.included && a.payloadPath == Some(entries[i].name)
                  && entries[i].content.Some?
                  && |entries[i].content.value| == a.byteLength && env.sha(entries[i].content.value) == a.objectId
  }

  lemma AcceptedIsComplete(pkg: Package, limits: Limits, env: Env)
    requires Sound(env) && Accepted(pkg, limits, env)
    ensures Complete(pkg.entries, RecordOf(pkg, env).value)
  {
    var record := RecordOf(pkg, env).value;
    var expected := ExpectedAssets(record.assets);
    forall i, j | 0 <= i < j < |pkg.entries| ensures pkg.entries[i].name != pkg.entries[j].name {
      LessTotal(pkg.entries[i].name, pkg.entries[j].name);
    }
    forall name
      ensures name in Names(pkg.entries) <==>
        name in REQUIRED_TAGS || exists a :: a in record.assets && a.included && a.payloadPath == Some(name)
    {
      if name in Names(pkg.entries) && name !in REQUIRED_TAGS {
        assert name in PayloadNames(pkg.entries) && name in expected;
        assert expected[name] in record.assets;
      }
      if exists a :: a in record.assets && a.included && a.payloadPath == Some(name) {
        var a :| a in record.assets && a.included && a.payloadPath == Some(name);
        var i :| 0 <= i < |record.assets| && record.assets[i] == a;
        RecordPathsKeyed(record);
        ExpectedFinds(record.assets, i);
        assert name in expected.Keys;
      }
    }
  }

  lemma AcceptedPayloadIsExact(pkg: Package, limits: Limits, env: Env)
    requires Sound(env) && Accepted(pkg, limits, env)
    ensures PayloadExact(pkg.entries, RecordOf(pkg, env).value, env)
  {
    var record := RecordOf(pkg, env).value;
    var expected := ExpectedAssets(record.assets);
    forall i | 0 <= i < |pkg.entries| && pkg.entries[i].name !in REQUIRED_TAGS
      ensures exists a :: a in record.assets && a.included && a.payloadPath == Some(pkg.entries[i].name)
                          && pkg.entries[i].content.Some?
                          && |pkg.entries[i].content.value| == a.byteLength
                          && env.sha(pkg.entries[i].content.value) == a.objectId
    {
      assert MemberAcceptable(pkg.entries[i], expected, limits, env);
      var a := expected[pkg.entries[i].name];
      assert a in record.assets && a.included && a.payloadPath == Some(pkg.entries[i].name);
    }
  }

  /** The manifest that a tag file of the package holds. */
  ghost function ManifestIn(pkg: Package, name: Text, env: Env): Manifest {
    var files := ByName(pkg.entries);
    var lines := if name in files then Lines(ContentOf(files[name]), DefaultPortable(env)) else Fail("");
    if lines.Ok? then ToMap(lines.value) else map[]
  }

  lemma {:induction false} ExpectedPayloadFinds(included: seq<Asset>, i: nat)
    requires i < |included| && included[i].payloadPath.Some?
    ensures included[i].payloadPath.value in ExpectedPayload(included)
  {
    var n := |included| - 1;
    if i < n { ExpectedPayloadFinds(included[..n], i); }
  }

  lemma ExpectedPayloadKeys(assets: seq<Asset>)
    requires PathsKeyed(assets)
    ensures ExpectedPayload(Included(assets)).Keys == ExpectedAssets(assets).Keys
  {
    var included, expected := Included(assets), ExpectedAssets(assets);
    forall k ensures k in ExpectedPayload(included) <==> k in expected {
      if k in expected {
        var i :| 0 <= i < |included| && included[i] == expected[k];
        ExpectedPayloadFinds(included, i);
      }
      if a :| a in included && a.payloadPath == Some(k) {
        var i :| 0 <= i < |assets| && assets[i] == a;
        ExpectedFinds(assets, i);
      }
    }
  }

  lemma ExpectedPayloadDigest(assets: seq<Asset>, k: Text)
    requires PathsKeyed(assets)
    requires k in ExpectedPayload(Included(assets))
    ensures k in ExpectedAssets(assets)
    ensures ExpectedPayload(Included(assets))[k] == Hex(ExpectedAssets(assets)[k].objectId)
  {
    var m := ExpectedPayload(Included(assets));
    var a :| a in Included(assets) && a.payloadPath == Some(k) && m[k] == Hex(a.objectId);
    var i :| 0 <= i < |assets| && assets[i] == a;
    ExpectedFinds(assets, i);
  }

  lemma DigestOfHex(id: Text)
    requires IsDigest(id)
    ensures T("sha256:") + Hex(id) == id
  {
  }

  /** A listed payload member has the digest that the expected manifest gives for its path. */
  lemma PayloadMemberDigest(e: Entry, assets: seq<Asset>, limits: Limits, env: Env)
    requires PathsKeyed(assets) && forall a :: a in assets ==> IsDigest(a.objectId)
    requires MemberAcceptable(e, ExpectedAssets(assets), limits, env) && e.name !in REQUIRED_TAGS
    requires e.name in ExpectedPayload(Included(assets))
    ensures e.content.Some? && env.sha(e.content.value) == T("sha256:") + ExpectedPayload(Included(assets))[e.name]
  {
    ExpectedPayloadDigest(assets, e.name);
    DigestOfHex(ExpectedAssets(assets)[e.name].objectId);
  }

  /** The payload manifest lists exactly the payload members, each with the digest of its bytes. */
  lemma AcceptedPayloadManifest(pkg: Package, limits: Limits, env: Env)
    requires Sound(env) && Accepted(pkg, limits, env)
    ensures var m := ManifestIn(pkg, MANIFEST_NAME, env);
            m.Keys == PayloadNames(pkg.entries) && DigestsAgree(pkg.entries, m, env)
  {
    var assets := RecordOf(pkg, env).value.assets;
    var m := ManifestIn(pkg, MANIFEST_NAME, env);
    assert m == ExpectedPayload(Included(assets));
    RecordPathsKeyed(RecordOf(pkg, env).value);
    assert forall a :: a in assets ==> IsDigest(a.objectId);
    ExpectedPayloadKeys(assets);
    MembersDigestsAgree(pkg.entries, assets, limits, env);
  }

  lemma MembersDigestsAgree(entries: seq<Entry>, assets: seq<Asset>, limits: Limits, env: Env)
    requires PathsKeyed(assets) && forall a :: a in assets ==> IsDigest(a.objectId)
    requires AllMembersAcceptable(entries, ExpectedAssets(assets), limits, env)
    requires ExpectedPayload(Included(assets)).Keys == PayloadNames(entries)
    ensures DigestsAgree(entries, ExpectedPayload(Included(assets)), env)
  {
    var m := ExpectedPayload(Included(assets));
    forall i | 0 <= i < |entries| && entries[i].name in m
      ensures entries[i].content.Some? && env.sha(entries[i].content.value) == T("sha256:") + m[entries[i].name]
    {
      PayloadMemberDigest(entries[i], assets, limits, env);
    }
  }

  /** The tag manifest lists the other four tag files, each with the digest of its bytes. */
  lemma AcceptedTagManifest(pkg: Package, limits: Limits, env: Env)
    requires Sound(env) && Accepted(pkg, limits, env)
    ensures var m := ManifestIn(pkg, TAG_MANIFEST_NAME, env);
            m.Keys == TAG_MANIFEST_PATHS && DigestsAgree(pkg.entries, m, env)
  {
    var m := ManifestIn(pkg, TAG_MANIFEST_NAME, env);
    var files := ByName(pkg.entries);
    assert TagDigestsAgree(files, m, env);
    forall i | 0 <= i < |pkg.entries| && pkg.entries[i].name in m
      ensures pkg.entries[i].content.Some?
      ensures env.sha(pkg.entries[i].content.value) == T("sha256:") + m[pkg.entries[i].name]
    {
      ByNameFinds(pkg.entries, i);
      assert MemberAcceptable(pkg.entries[i], ExpectedAssets(RecordOf(pkg, env).value.assets), limits, env);
    }
  }

  lemma SizeAgrees(entries: seq<Entry>, expected: map<Text, Asset>, limits: Limits, env: Env, k: Text)
    requires EntriesSorted(entries) && AllMembersAcceptable(entries, expected, limits, env)
    requires PayloadNames(entries) == expected.Keys && k in expected
    ensures k in SizesByName(entries) && SizesByName(entries)[k] == expected[k].byteLength
  {
    assert k in PayloadNames(entries);
    var i :| 0 <= i < |entries| && entries[i].name == k;
    SizesByNameFinds(entries, i);
    assert MemberAcceptable(entries[i], expected, limits, env);
  }

  lemma SizesAgree(entries: seq<Entry>, assets: seq<Asset>, limits: Limits, env: Env)
    requires EntriesSorted(entries) && AllMembersAcceptable(entries, ExpectedAssets(assets), limits, env)
    requires PayloadNames(entries) == ExpectedAssets(assets).Keys
    ensures SizesByName(entries) == LengthsByPath(assets)
  {
    var expected := ExpectedAssets(assets);
    forall k | k in expected ensures SizesByName(entries)[k] == expected[k].byteLength {
      SizeAgrees(entries, expected, limits, env, k);
    }
  }

  /**
    The octet and stream counts of the Payload-Oxum line are those of the payload members, and the
    octet count is what the validator returns.
   */
  lemma AcceptedOxum(pkg: Package, limits: Limits, env: Env)
    requires Sound(env) && Accepted(pkg, limits, env)
    ensures BagInfo(RecordOf(pkg, env).value.packageId, PayloadBytes(pkg.entries), |PayloadNames(pkg.entries)|)
         == Ok(ContentOf(ByName(pkg.entries)[BAG_INFO_NAME]))
  {
    var record := RecordOf(pkg, env).value;
    RecordPathsKeyed(record);
    IncludedByPath(record.assets);
    PayloadBytesByName(pkg.entries);
    SizesAgree(pkg.entries, record.assets, limits, env);
    assert |ExpectedAssets(record.assets).Keys| == |ExpectedAssets(record.assets)|;
  }

  /** The bytes that the members really hold, or those of the tag files only. */
  function TotalContent(entries: seq<Entry>, tagsOnly: bool): nat {
    if entries == [] then 0
    else
      var last := entries[|entries| - 1];
      TotalContent(entries[..|entries| - 1], tagsOnly)
      + if !tagsOnly || last.name in REQUIRED_TAGS then |ContentOf(last)| else 0
  }

  lemma {:induction false} TotalContentIsDeclared(entries: seq<Entry>, expected: map<Text, Asset>, limits: Limits,
                                                  env: Env, tagsOnly: bool)
    requires AllMembersAcceptable(entries, expected, limits, env)
    ensures TotalContent(entries, tagsOnly) == SumSizes(entries, tagsOnly)
  {
    if entries != [] {
      var n := |entries| - 1;
      TotalContentIsDeclared(entries[..n], expected, limits, env, tagsOnly);
      assert MemberAcceptable(entries[n], expected, limits, env);
    }
  }

  /** The path, the entry and its content are within their limits. */
  predicate MemberWithinLimits(e: Entry, limits: Limits) {
    && Utf8Length(e.name) <= limits.maxPathBytes && Depth(e.name) <= limits.maxPathDepth
    && |ContentOf(e)| <= limits.maxEntryBytes
  }

  /** Every limit holds, of the bytes that members really hold and not only of what they declare. */
  lemma AcceptedWithinLimits(pkg: Package, limits: Limits, env: Env)
    requires Sound(env) && Accepted(pkg, limits, env)
    ensures |pkg.entries| <= limits.maxEntryCount && TotalContent(pkg.entries, false) <= limits.maxExpandedBytes
    ensures TotalContent(pkg.entries, true) <= limits.maxMetadataBytes
    ensures RecordOf(pkg, env).value.relationships <= limits.maxRelationships
    ensures forall i :: 0 <= i < |pkg.entries| ==> MemberWithinLimits(pkg.entries[i], limits)
    ensures pkg.first.Regular? && |pkg.first.content| <= limits.maxArchiveBytes
    ensures pkg.again.Regular? && |pkg.again.content| <= limits.maxArchiveBytes
    ensures NoFoldedCollision(pkg.entries, env)
  {
    var expected := ExpectedAssets(RecordOf(pkg, env).value.assets);
    TotalContentIsDeclared(pkg.entries, expected, limits, env, false);
    TotalContentIsDeclared(pkg.entries, expected, limits, env, true);
    forall i | 0 <= i < |pkg.entries| ensures MemberWithinLimits(pkg.entries[i], limits) {
      assert MemberAcceptable(pkg.entries[i], expected, limits, env);
      assert EntryAcceptable(pkg.entries[i], limits, env);
    }
  }
}
