/**
  The independent validator of an interchange package: a stored ZIP archive that must be a complete
  and valid bag in the sense of section 3 of RFC 8493.

  ZIP decoding, the portable-path rules, case folding, the record parser and SHA-256 are parameters.
 */
module InterchangePackage {
  import opened Wrappers
  import opened Unicode
  import opened CanonicalJson
  import opened Evidence
  import opened Manifests

  /** What opening a member yields: None where the archive layer raises BadZipFile. */
  type Content = Option<Bytes>

  /** `regular`: stored, no flags, fixed metadata, and the mode of a plain profile file. */
  datatype Entry = Entry(name: Text, fileSize: nat, compressSize: nat, regular: bool, content: Content)

  datatype Asset = Asset(objectId: Text, byteLength: nat, mediaType: Text, included: bool, payloadPath: Option<Text>)

  datatype Record = Record(packageId: Text, assets: seq<Asset>, relationships: nat)

  datatype Limits = Limits(maxArchiveBytes: nat, maxEntryCount: nat, maxPathBytes: nat, maxPathDepth: nat,
                           maxEntryBytes: nat, maxExpandedBytes: nat, maxMetadataBytes: nat, maxRelationships: nat)

  datatype Env = Env(sha: Hash, portable: (Text, nat, nat) -> bool, casefold: Text -> Text,
                     parse: Bytes -> Result<Record>)

  const BAGIT_NAME: Text := T("bagit.txt")
  const BAG_INFO_NAME: Text := T("bag-info.txt")
  const MANIFEST_NAME: Text := T("manifest-sha256.txt")
  const RECORD_NAME: Text := T("openardp-package.json")
  const TAG_MANIFEST_NAME: Text := T("tagmanifest-sha256.txt")
  const REQUIRED_TAGS: set<Text> := {BAGIT_NAME, BAG_INFO_NAME, MANIFEST_NAME, RECORD_NAME, TAG_MANIFEST_NAME}
  const TAG_MANIFEST_PATHS: set<Text> := {BAGIT_NAME, BAG_INFO_NAME, MANIFEST_NAME, RECORD_NAME}

  const ARCHIVE_MEDIA: set<Text> :=
    {T("application/gzip"), T("application/vnd.rar"), T("application/x-7z-compressed"), T("application/x-tar"),
     T("application/zip")}

  const PAYLOAD_ROOT: Text := T("data/objects/sha256/")

  /** `payload_path` of a digest. */
  function PayloadPath(objectId: Text): Text
    requires |objectId| == 71
  {
    PAYLOAD_ROOT + objectId[7..9] + [0x2F] + objectId[9..]
  }

  /** `^data/objects/sha256/[0-9a-f]{2}/[0-9a-f]{62}$` */
  predicate IsPayloadName(name: Text) {
    && |name| == 85 && PAYLOAD_ROOT <= name && name[22] == 0x2F
    && forall i :: 20 <= i < 85 && i != 22 ==> IsLowerHex(name[i])
  }

  /** What the record model guarantees of its assets. */
  ghost predicate RecordInvariant(r: Record) {
    && (forall i, j :: 0 <= i < j < |r.assets| ==> r.assets[i].objectId != r.assets[j].objectId)
    && (forall i :: 0 <= i < |r.assets| ==> IsDigest(r.assets[i].objectId))
    && (forall i :: 0 <= i < |r.assets| ==>
          if r.assets[i].included then r.assets[i].payloadPath == Some(PayloadPath(r.assets[i].objectId))
          else r.assets[i].payloadPath.None?)
  }

  function Depth(name: Text): nat {
    if name == [] then 1 else (if name[0] == 0x2F then 1 else 0) + Depth(name[1..])
  }

  function Utf8Length(name: Text): nat {
    if name == [] then 0
    else (if name[0] < 0x80 then 1 else if name[0] < 0x800 then 2 else if name[0] < 0x1_0000 then 3 else 4)
         + Utf8Length(name[1..])
  }

  function SumSizes(entries: seq<Entry>, tagsOnly: bool): nat {
    if entries == [] then 0
    else
      var n := |entries| - 1;
      SumSizes(entries[..n], tagsOnly) + SizeOf(entries[n], tagsOnly)
  }

  function SizeOf(e: Entry, tagsOnly: bool): nat {
    if !tagsOnly || e.name in REQUIRED_TAGS then e.fileSize else 0
  }

  // ---------------------------------------------------------------- members

  /** What one member must be, apart from its name not colliding with an earlier one. */
  predicate EntryAcceptable(e: Entry, limits: Limits, env: Env) {
    && env.portable(e.name, 4096, 64)
    && Utf8Length(e.name) <= limits.maxPathBytes && Depth(e.name) <= limits.maxPathDepth
    && (e.name in REQUIRED_TAGS || IsPayloadName(e.name))
    && e.regular && e.fileSize == e.compressSize && e.fileSize <= limits.maxEntryBytes
  }

  function Names(entries: seq<Entry>): set<Text> {
    set i | 0 <= i < |entries| :: entries[i].name
  }

  ghost predicate NoFoldedCollision(entries: seq<Entry>, env: Env) {
    forall i, j :: 0 <= i < j < |entries| ==> env.casefold(entries[i].name) != env.casefold(entries[j].name)
  }

  ghost predicate EntriesSorted(entries: seq<Entry>) {
    forall i, j :: 0 <= i < j < |entries| ==> Less(entries[i].name, entries[j].name)
  }

  ghost predicate AllAcceptable(entries: seq<Entry>, limits: Limits, env: Env) {
    forall i :: 0 <= i < |entries| ==> EntryAcceptable(entries[i], limits, env)
  }

  ghost predicate InfosAcceptable(entries: seq<Entry>, limits: Limits, env: Env) {
    && 5 <= |entries| <= limits.maxEntryCount
    && EntriesSorted(entries)
    && AllAcceptable(entries, limits, env)
    && NoFoldedCollision(entries, env)
    && SumSizes(entries, false) <= limits.maxExpandedBytes && SumSizes(entries, true) <= limits.maxMetadataBytes
    && REQUIRED_TAGS <= Names(entries)
  }

  lemma {:induction false} AdjacentSorted(entries: seq<Entry>)
    requires forall i :: 0 <= i < |entries| - 1 ==> Less(entries[i].name, entries[i + 1].name)
    ensures EntriesSorted(entries)
  {
    if |entries| > 1 {
      var n := |entries| - 1;
      AdjacentSorted(entries[..n]);
      forall i | 0 <= i < n ensures Less(entries[i].name, entries[n].name) {
        if i < n - 1 {
          assert Less(entries[..n][i].name, entries[..n][n - 1].name);
          LessTransitive(entries[i].name, entries[n - 1].name, entries[n].name);
        }
      }
    }
  }

  /** The category of the first rule that a member breaks. */
  function EntryFailure(e: Entry, limits: Limits, env: Env, folded: set<Text>): Result<()> {
    if !env.portable(e.name, 4096, 64) then Fail("policy_rejected")
    else if Utf8Length(e.name) > limits.maxPathBytes || Depth(e.name) > limits.maxPathDepth then
      Fail("resource_exhausted")
    else if env.casefold(e.name) in folded then Fail("policy_rejected")
    else if e.name !in REQUIRED_TAGS && !IsPayloadName(e.name) then Fail("policy_rejected")
    else if !e.regular then Fail("policy_rejected")
    else if e.fileSize != e.compressSize || e.fileSize > limits.maxEntryBytes then Fail("resource_exhausted")
    else Ok(())
  }

  function Folded(entries: seq<Entry>, env: Env): set<Text> {
    set k | 0 <= k < |entries| :: env.casefold(entries[k].name)
  }

  /** One more member is acceptable exactly when it breaks no rule. */
  lemma OneMoreEntry(before: seq<Entry>, e: Entry, limits: Limits, env: Env)
    requires AllAcceptable(before, limits, env) && NoFoldedCollision(before, env)
    ensures EntryFailure(e, limits, env, Folded(before, env)).Ok?
       <==> AllAcceptable(before + [e], limits, env) && NoFoldedCollision(before + [e], env)
  {
    var more := before + [e];
    assert more[|before|] == e && forall k :: 0 <= k < |before| ==> more[k] == before[k];
    if env.casefold(e.name) in Folded(before, env) {
      var k :| 0 <= k < |before| && env.casefold(before[k].name) == env.casefold(e.name);
      assert env.casefold(more[k].name) == env.casefold(more[|before|].name);
    }
  }

  /** The rules applied member by member, in order. */
  function EntriesResult(entries: seq<Entry>, limits: Limits, env: Env): Result<()> {
    if entries == [] then Ok(())
    else
      var n := |entries| - 1;
      var _ :- EntriesResult(entries[..n], limits, env);
      EntryFailure(entries[n], limits, env, Folded(entries[..n], env))
  }

  lemma {:induction false} EntriesResultMeans(entries: seq<Entry>, limits: Limits, env: Env)
    ensures EntriesResult(entries, limits, env).Ok?
       <==> AllAcceptable(entries, limits, env) && NoFoldedCollision(entries, env)
  {
    if entries != [] {
      var n := |entries| - 1;
      EntriesResultMeans(entries[..n], limits, env);
      assert entries == entries[..n] + [entries[n]];
      if EntriesResult(entries[..n], limits, env).Ok? {
        OneMoreEntry(entries[..n], entries[n], limits, env);
      }
    }
  }

  lemma {:induction false} EarlyFailure(entries: seq<Entry>, n: nat, limits: Limits, env: Env)
    requires n <= |entries| && EntriesResult(entries[..n], limits, env).Fail?
    ensures EntriesResult(entries, limits, env) == EntriesResult(entries[..n], limits, env)
  {
    if n == |entries| {
      assert entries[..n] == entries;
    } else {
      assert entries[..|entries| - 1][..n] == entries[..n];
      EarlyFailure(entries[..|entries| - 1], n, limits, env);
    }
  }

  lemma FoldedGrows(entries: seq<Entry>, i: nat, env: Env)
    requires i < |entries|
    ensures Folded(entries[..i + 1], env) == Folded(entries[..i], env) + {env.casefold(entries[i].name)}
  {
    assert entries[..i + 1] == entries[..i] + [entries[i]];
  }

  /** The loop of `_validate_infos`: the expanded and metadata sizes, or the first broken rule. */
  method CheckEntries(entries: seq<Entry>, limits: Limits, env: Env) returns (r: Result<(nat, nat)>)
    ensures r.Ok? <==> EntriesResult(entries, limits, env).Ok?
    ensures r.Ok? ==> r.value == (SumSizes(entries, false), SumSizes(entries, true))
  {
    var folded: set<Text> := {};
    var expanded, metadata := 0, 0;
    for i := 0 to |entries|
      invariant folded == Folded(entries[..i], env)
      invariant expanded == SumSizes(entries[..i], false) && metadata == SumSizes(entries[..i], true)
      invariant EntriesResult(entries[..i], limits, env).Ok?
    {
      var e := entries[i];
      assert entries[..i + 1][..i] == entries[..i];
      var checked := EntryFailure(e, limits, env, folded);
      if checked.Fail? {
        EarlyFailure(entries, i + 1, limits, env);
        return Fail(checked.category);
      }
      FoldedGrows(entries, i, env);
      folded := folded + {env.casefold(e.name)};
      expanded := expanded + SizeOf(e, false);
      metadata := metadata + SizeOf(e, true);
    }
    assert entries[..|entries|] == entries;
    return Ok((expanded, metadata));
  }

  /** `_validate_infos`. */
  method ValidateInfos(entries: seq<Entry>, limits: Limits, env: Env) returns (r: Result<()>)
    ensures r.Ok? <==> InfosAcceptable(entries, limits, env)
  {
    if |entries| > limits.maxEntryCount {
      return Fail("resource_exhausted");
    }
    if |entries| < 5 {
      return Fail("malformed_package");
    }
    if exists i :: 0 <= i < |entries| - 1 && !Less(entries[i].name, entries[i + 1].name) {
      return Fail("malformed_package");
    }
    AdjacentSorted(entries);
    EntriesResultMeans(entries, limits, env);
    var sizes :- CheckEntries(entries, limits, env);
    if sizes.0 > limits.maxExpandedBytes || sizes.1 > limits.maxMetadataBytes {
      return Fail("resource_exhausted");
    }
    if !(REQUIRED_TAGS <= Names(entries)) {
      return Fail("malformed_package");
    }
    return Ok(());
  }

  // ---------------------------------------------------------------- tags

  /** `_read`: the whole member, if it fits the metadata limit and has its declared length. */
  function ReadMember(e: Entry, limits: Limits): (r: Result<Bytes>)
    ensures r.Ok? <==> e.fileSize <= limits.maxMetadataBytes && e.content.Some? && |e.content.value| == e.fileSize
    ensures r.Ok? ==> r.value == e.content.value
  {
    if e.fileSize > limits.maxMetadataBytes then Fail("resource_exhausted")
    else if e.content.None? then Fail("integrity_invalid")
    else
      var whole := e.content.value;
      var data := if |whole| > e.fileSize + 1 then whole[..e.fileSize + 1] else whole;
      if |data| != e.fileSize then Fail("integrity_invalid") else Ok(data)
  }

  function ByName(entries: seq<Entry>): (m: map<Text, Entry>)
    ensures m.Keys == Names(entries)
    ensures forall k :: k in m ==> m[k] in entries && m[k].name == k
  {
    if entries == [] then map[]
    else
      var n := |entries| - 1;
      assert entries == entries[..n] + [entries[n]];
      ByName(entries[..n])[entries[n].name := entries[n]]
  }

  /** With distinct names the dict holds every member under its own name. */
  lemma {:induction false} ByNameFinds(entries: seq<Entry>, i: nat)
    requires EntriesSorted(entries) && i < |entries|
    ensures entries[i].name in ByName(entries) && ByName(entries)[entries[i].name] == entries[i]
  {
    var n := |entries| - 1;
    if i < n {
      LessTotal(entries[i].name, entries[n].name);
      ByNameFinds(entries[..n], i);
    }
  }

  function Included(assets: seq<Asset>): (r: seq<Asset>)
    ensures forall a :: a in r <==> a in assets && a.included
  {
    if assets == [] then []
    else
      var n := |assets| - 1;
      assert assets == assets[..n] + [assets[n]];
      Included(assets[..n]) + if assets[n].included then [assets[n]] else []
  }

  function SumLengths(assets: seq<Asset>): nat {
    if assets == [] then 0 else SumLengths(assets[..|assets| - 1]) + assets[|assets| - 1].byteLength
  }

  /** The Payload-Oxum line of section 2.2.2 of RFC 8493: octet count, stream count. */
  function OxumLine(octets: nat, streams: nat): Text {
    T("Payload-Oxum: ") + Digits(octets) + [DOT] + Digits(streams) + [0x0A]
  }

  /** `_bag_info`; an identifier that is not ASCII raises. */
  function BagInfo(packageId: Text, octets: nat, streams: nat): Result<Bytes> {
    var text := T("BagIt-Profile-Identifier: ") + PROFILE_IDENTIFIER + [0x0A]
                + T("OpenARDP-Export-Profile: ") + PROFILE_VERSION + [0x0A]
                + T("OpenARDP-Package-Id: ") + packageId + [0x0A]
                + OxumLine(octets, streams);
    if IsAscii(text) then Ok(Ascii(text)) else Fail("malformed_package")
  }

  const PROFILE_IDENTIFIER: Text := T("https://openardp.org/profiles/bagit/0.1.0")
  const PROFILE_VERSION: Text := T("0.1.0")
  const BAGIT: Text := T("BagIt-Version: 1.0\nTag-File-Character-Encoding: UTF-8\n")

  /** `removeprefix("sha256:")`. */
  function Hex(digest: Text): Text {
    if T("sha256:") <= digest then digest[7..] else digest
  }

  /** `expected_payload`: the payload path of each included asset and its checksum. */
  function ExpectedPayload(included: seq<Asset>): (m: Manifest)
    ensures forall k :: k in m ==> exists a :: a in included && a.payloadPath == Some(k) && m[k] == Hex(a.objectId)
  {
    if included == [] then map[]
    else
      var n := |included| - 1;
      assert included == included[..n] + [included[n]];
      var m := ExpectedPayload(included[..n]);
      match included[n].payloadPath
      case None => m
      case Some(path) => m[path := Hex(included[n].objectId)]
  }

  /** `validate_portable_path` with its default limits. */
  function DefaultPortable(env: Env): Text -> bool {
    path => env.portable(path, 512, 16)
  }

  /** The tag manifest names the other four tags with their digests. */
  ghost predicate TagDigestsAgree(files: map<Text, Entry>, tags: Manifest, env: Env) {
    && tags.Keys == TAG_MANIFEST_PATHS
    && forall name :: name in tags ==>
         name in files && env.sha(ContentOf(files[name])) == T("sha256:") + tags[name]
  }

  function ContentOf(e: Entry): Bytes {
    if e.content.Some? then e.content.value else []
  }

  ghost predicate IsManifestOf(data: Bytes, m: Manifest, portable: Text -> bool) {
    Acceptable(data, portable) && ToMap(Lines(data, portable).value) == m
  }

  /** What the tag files must be. */
  ghost predicate TagsAcceptable(files: map<Text, Entry>, record: Record, limits: Limits, env: Env)
    requires RecordInvariant(record) && REQUIRED_TAGS <= files.Keys
  {
    var included := Included(record.assets);
    var portable := DefaultPortable(env);
    && (forall name :: name in REQUIRED_TAGS ==> ReadMember(files[name], limits).Ok?)
    && ContentOf(files[BAGIT_NAME]) == Ascii'(BAGIT)
    && BagInfo(record.packageId, SumLengths(included), |included|) == Ok(ContentOf(files[BAG_INFO_NAME]))
    && IsManifestOf(ContentOf(files[MANIFEST_NAME]), ExpectedPayload(included), portable)
    && exists tags :: IsManifestOf(ContentOf(files[TAG_MANIFEST_NAME]), tags, portable)
                      && TagDigestsAgree(files, tags, env)
  }

  function Ascii'(t: Text): Bytes {
    if IsAscii(t) then Ascii(t) else []
  }

  /** The loop of `_validate_tags` over the tag manifest. */
  method CheckTagDigests(files: map<Text, Entry>, tags: Manifest, limits: Limits, env: Env) returns (r: Result<()>)
    requires tags.Keys == TAG_MANIFEST_PATHS && TAG_MANIFEST_PATHS <= files.Keys
    ensures r.Ok? <==> TagDigestsAgree(files, tags, env)
                       && forall name :: name in tags ==> ReadMember(files[name], limits).Ok?
  {
    var left := tags.Keys;
    while left != {}
      invariant left <= tags.Keys
      invariant forall name :: name in tags.Keys - left ==>
        ReadMember(files[name], limits).Ok? && env.sha(ContentOf(files[name])) == T("sha256:") + tags[name]
      decreases |left|
    {
      var name := Least(left);
      var data :- ReadMember(files[name], limits);
      if env.sha(data) != T("sha256:") + tags[name] {
        return Fail("integrity_invalid");
      }
      left := left - {name};
    }
    return Ok(());
  }

  /** `_validate_tags`. */
  method ValidateTags(files: map<Text, Entry>, record: Record, limits: Limits, env: Env) returns (r: Result<()>)
    requires RecordInvariant(record) && REQUIRED_TAGS <= files.Keys
    ensures r.Ok? <==> TagsAcceptable(files, record, limits, env)
  {
    var portable := DefaultPortable(env);
    var declaration :- ReadMember(files[BAGIT_NAME], limits);
    if declaration != Ascii'(BAGIT) {
      return Fail("malformed_package");
    }
    var included := Included(record.assets);
    var expectedInfo :- BagInfo(record.packageId, SumLengths(included), |included|);
    var info :- ReadMember(files[BAG_INFO_NAME], limits);
    if info != expectedInfo {
      return Fail("malformed_package");
    }
    var payloadData :- ReadMember(files[MANIFEST_NAME], limits);
    var payloadManifest :- ReadManifest(payloadData, portable);
    if payloadManifest != ExpectedPayload(included) {
      return Fail("integrity_invalid");
    }
    var tagData :- ReadMember(files[TAG_MANIFEST_NAME], limits);
    var tagManifest :- ReadManifest(tagData, portable);
    if tagManifest.Keys != TAG_MANIFEST_PATHS {
      return Fail("integrity_invalid");
    }
    r := CheckTagDigests(files, tagManifest, limits, env);
    assert IsManifestOf(tagData, tagManifest, portable);
  }

  // ---------------------------------------------------------------- payload

  /** The included assets by payload path. */
  function ExpectedAssets(assets: seq<Asset>): (m: map<Text, Asset>)
    ensures forall k :: k in m ==> m[k] in assets && m[k].included && m[k].payloadPath == Some(k)
  {
    if assets == [] then map[]
    else
      var n := |assets| - 1;
      assert assets == assets[..n] + [assets[n]];
      var m := ExpectedAssets(assets[..n]);
      match assets[n].payloadPath
      case Some(path) => if assets[n].included then m[path := assets[n]] else m
      case None => m
  }

  const CHUNK: nat := 1_048_576

  /** The member opens, and is as long as it declares, within the entry limit. */
  predicate Streams(e: Entry, limits: Limits) {
    e.content.Some? && |e.content.value| == e.fileSize && |e.content.value| <= limits.maxEntryBytes
  }

  /** The member loop of `_verify_members`: chunk by chunk, stopping once a limit is passed. */
  method StreamMember(e: Entry, limits: Limits) returns (r: Result<Bytes>)
    ensures r.Ok? <==> Streams(e, limits)
    ensures r.Ok? ==> r.value == e.content.value
  {
    if e.content.None? {
      return Fail("integrity_invalid");
    }
    var whole := e.content.value;
    var read := 0;
    while read < |whole|
      invariant 0 <= read <= |whole|
      invariant read <= e.fileSize && read <= limits.maxEntryBytes
    {
      read := if read + CHUNK <= |whole| then read + CHUNK else |whole|;
      if read > e.fileSize || read > limits.maxEntryBytes {
        return Fail("resource_exhausted");
      }
    }
    if read != e.fileSize {
      return Fail("integrity_invalid");
    }
    return Ok(whole);
  }

  /** The member is exactly the payload of the asset declared for its path. */
  predicate IsPayloadOf(e: Entry, asset: Asset, env: Env) {
    && asset.mediaType !in ARCHIVE_MEDIA
    && asset.byteLength == |ContentOf(e)|
    && asset.objectId == env.sha(ContentOf(e))
    && |asset.objectId| == 71 && PayloadPath(asset.objectId) == e.name
  }

  predicate MemberAcceptable(e: Entry, expected: map<Text, Asset>, limits: Limits, env: Env) {
    && Streams(e, limits)
    && (e.name in REQUIRED_TAGS || (e.name in expected && IsPayloadOf(e, expected[e.name], env)))
  }

  function PayloadNames(entries: seq<Entry>): set<Text> {
    Names(entries) - REQUIRED_TAGS
  }

  function PayloadSize(e: Entry): nat {
    if e.name in REQUIRED_TAGS then 0 else |ContentOf(e)|
  }

  function PayloadBytes(entries: seq<Entry>): nat {
    if entries == [] then 0 else PayloadBytes(entries[..|entries| - 1]) + PayloadSize(entries[|entries| - 1])
  }

  ghost predicate AllMembersAcceptable(entries: seq<Entry>, expected: map<Text, Asset>, limits: Limits, env: Env) {
    forall i :: 0 <= i < |entries| ==> MemberAcceptable(entries[i], expected, limits, env)
  }

  /** One member of `_verify_members`. */
  method VerifyMember(e: Entry, expected: map<Text, Asset>, limits: Limits, env: Env) returns (r: Result<()>)
    ensures r.Ok? <==> MemberAcceptable(e, expected, limits, env)
  {
    var data :- StreamMember(e, limits);
    if e.name !in REQUIRED_TAGS {
      if e.name in expected && expected[e.name].mediaType in ARCHIVE_MEDIA {
        return Fail("policy_rejected");
      }
      if e.name !in expected || !IsPayloadOf(e, expected[e.name], env) {
        return Fail("integrity_invalid");
      }
    }
    return Ok(());
  }

  lemma PayloadNamesGrow(entries: seq<Entry>, i: nat)
    requires i < |entries|
    ensures PayloadNames(entries[..i + 1])
         == PayloadNames(entries[..i]) + if entries[i].name in REQUIRED_TAGS then {} else {entries[i].name}
  {
    assert entries[..i + 1] == entries[..i] + [entries[i]];
    assert Names(entries[..i + 1]) == Names(entries[..i]) + {entries[i].name};
  }

  /** `_verify_members`: every member checks, every included asset was met; the payload octets. */
  method VerifyMembers(entries: seq<Entry>, record: Record, limits: Limits, env: Env) returns (r: Result<nat>)
    ensures r.Ok? <==> AllMembersAcceptable(entries, ExpectedAssets(record.assets), limits, env)
                       && PayloadNames(entries) == ExpectedAssets(record.assets).Keys
    ensures r.Ok? ==> r.value == PayloadBytes(entries)
  {
    var expected := ExpectedAssets(record.assets);
    var observed: set<Text> := {};
    var payloadBytes := 0;
    for i := 0 to |entries|
      invariant AllMembersAcceptable(entries[..i], expected, limits, env)
      invariant observed == PayloadNames(entries[..i])
      invariant payloadBytes == PayloadBytes(entries[..i])
    {
      var checked := VerifyMember(entries[i], expected, limits, env);
      if checked.Fail? {
        return Fail(checked.category);
      }
      PayloadNamesGrow(entries, i);
      assert entries[..i + 1][..i] == entries[..i];
      if entries[i].name !in REQUIRED_TAGS {
        observed := observed + {entries[i].name};
      }
      payloadBytes := payloadBytes + PayloadSize(entries[i]);
    }
    assert entries[..|entries|] == entries;
    if observed != expected.Keys {
      return Fail("integrity_invalid");
    }
    return Ok(payloadBytes);
  }
}
