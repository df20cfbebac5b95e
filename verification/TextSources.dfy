/**
  When the producer accepts a plain-text source at all, and when what it produces is valid. The two
  conditions differ: a text that starts with a line break is produced, then refused by the validators.
 */
module TextSources {
  import opened Wrappers
  import opened Unicode
  import opened CanonicalJson
  import opened Evidence
  import opened EvidenceSets
  import opened EvidenceCoherence
  import opened EvidenceProducer

  // ---------------------------------------------------------------- JSON-safe values

  lemma Literal(s: string)
    ensures NoSurrogates(T(s))
  {
  }

  lemma Literals(strings: seq<string>)
    ensures forall i :: 0 <= i < |strings| ==> NoSurrogates(T(strings[i]))
  {
    forall i | 0 <= i < |strings| ensures NoSurrogates(T(strings[i])) { Literal(strings[i]); }
  }

  lemma DigestIsText(t: Text)
    requires IsDigest(t)
    ensures NoSurrogates(t)
  {
    forall i | 0 <= i < |t| ensures !IsSurrogate(t[i]) {
      if i < 7 { assert t[i] == T("sha256:")[i]; }
    }
  }

  lemma EnvelopeIsSafe(domain: Text, payload: Members)
    requires NoSurrogates(domain) && Safe(JObj(payload))
    ensures Safe(Envelope(domain, payload))
  {
    Literals(["canonicalization", "RFC8785", "domain", "identity_version", "payload"]);
  }

  lemma IdentityOfSafe(sha: Hash, domain: Text, payload: Members)
    requires NoSurrogates(domain) && Safe(JObj(payload))
    ensures Identity(sha, domain, payload).Ok?
    ensures DigestShaped(sha) ==> IsDigest(Identity(sha, domain, payload).value)
  {
    EnvelopeIsSafe(domain, payload);
    CanonicalBytesTotal(Envelope(domain, payload));
  }

  // ---------------------------------------------------------------- the three payloads

  lemma ProviderPartIsSafe(p: Members, configHash: Text, part: Members)
    requires JObj(p) == FixedProvider(configHash) && NoSurrogates(configHash)
    requires part == map[T("name") := Get(p, T("name")), T("version") := Get(p, T("version")),
                         T("profile") := Get(p, T("profile")), T("profile_version") := Get(p, T("profile_version")),
                         T("config_hash") := Get(p, T("config_hash"))]
    ensures Safe(JObj(part))
  {
    Literals(["name", "version", "profile", "profile_version", "config_hash", "stdlib-text-csv", "3.12",
              "deterministic-grid", "0.1.0"]);
  }

  lemma NativePayloadIsSafe(sha: Hash, sourceId: Text, nativePayload: Bytes, configHash: Text, m: Members, p: Members)
    requires m == NativeFields(sha, sourceId, nativePayload, configHash) && NativePayload(m) == Ok(p)
    requires DigestShaped(sha) && NoSurrogates(sourceId) && NoSurrogates(configHash)
    ensures Safe(JObj(p))
  {
    BareNative(sha, sourceId, nativePayload, configHash, m);
    DigestIsText(sha(nativePayload));
    var provider := FixedProvider(configHash).members;
    var part: Members := map[T("name") := Get(provider, T("name")), T("version") := Get(provider, T("version")),
                    T("profile") := Get(provider, T("profile")),
                    T("profile_version") := Get(provider, T("profile_version")),
                    T("config_hash") := Get(provider, T("config_hash"))];
    ProviderPartIsSafe(provider, configHash, part);
    NativeMembersAreSafe(Get(m, T("source_version_id")), Get(m, T("native_artifact_id")),
                         Get(m, T("native_artifact_media_type")), JObj(part), p);
  }

  lemma NativeMembersAreSafe(source: Json, artifact: Json, media: Json, provider: Json, p: Members)
    requires media == JStr(T("application/json")) && Safe(source) && Safe(artifact) && Safe(provider)
    requires p == map[T("source_version_id") := source, T("native_artifact_id") := artifact,
                      T("native_artifact_media_type") := media, T("provider") := provider]
    ensures Safe(JObj(p))
  {
    Literals(["source_version_id", "native_artifact_id", "native_artifact_media_type", "provider",
              "application/json"]);
  }

  lemma NativeSucceeds(sha: Hash, sourceId: Text, nativePayload: Bytes, configHash: Text)
    requires DigestShaped(sha) && NoSurrogates(sourceId) && NoSurrogates(configHash)
    ensures MakeNative(sha, sourceId, nativePayload, configHash).Ok?
    ensures IsSha256(NativeId(MakeNative(sha, sourceId, nativePayload, configHash).value))
  {
    var m := NativeFields(sha, sourceId, nativePayload, configHash);
    BareNative(sha, sourceId, nativePayload, configHash, m);
    var p := NativePayload(m).value;
    NativePayloadIsSafe(sha, sourceId, nativePayload, configHash, m, p);
    Literal("openardp:native-representation");
    IdentityOfSafe(sha, NATIVE_DOMAIN, p);
  }

  lemma ReferenceSucceeds(sha: Hash, sourceId: Text, nativeId: Text, anchor: Members)
    requires DigestShaped(sha) && NoSurrogates(sourceId) && NoSurrogates(nativeId) && Safe(JObj(anchor))
    ensures MakeReference(sha, sourceId, nativeId, anchor).Ok?
    ensures IsDigest(TextOf(ReferenceId(MakeReference(sha, sourceId, nativeId, anchor).value)))
    ensures ReferenceId(MakeReference(sha, sourceId, nativeId, anchor).value).JStr?
  {
    var m := ReferenceFields(sourceId, nativeId, anchor);
    BareReference(sourceId, nativeId, anchor, m);
    var p := ReferencePayload(m);
    ReferenceMembersAreSafe(JStr(sourceId), JStr(nativeId), JObj(anchor), p);
    Literal("openardp:evidence-reference");
    IdentityOfSafe(sha, REFERENCE_DOMAIN, p);
  }

  lemma ReferenceMembersAreSafe(source: Json, native: Json, anchor: Json, p: Members)
    requires Safe(source) && Safe(native) && Safe(anchor)
    requires p == map[T("source_version_id") := source, T("native_representation_id") := native, T("anchor") := anchor]
    ensures Safe(JObj(p))
  {
    Literals(["source_version_id", "native_representation_id", "anchor"]);
  }

  lemma RetrievalPartIsSafe(artifact: Json, media: Json, part: Members)
    requires Safe(artifact) && Safe(media)
    requires part == map[T("artifact_id") := artifact, T("media_type") := media]
    ensures Safe(JObj(part))
  {
    Literals(["artifact_id", "media_type"]);
  }

  lemma GeneratorPartIsSafe(name: Json, version: Json, hash: Json, part: Members)
    requires Safe(name) && Safe(version) && Safe(hash)
    requires part == map[T("name") := name, T("version") := version, T("config_hash") := hash]
    ensures Safe(JObj(part))
  {
    Literals(["name", "version", "config_hash"]);
  }

  lemma ProjectionMembersAreSafe(source: Json, native: Json, reference: Json, retrieval: Json, parent: Json,
                                 ordinal: Json, generator: Json, p: Members)
    requires Safe(source) && Safe(native) && Safe(reference) && Safe(retrieval) && Safe(parent) && Safe(ordinal)
    requires Safe(generator)
    requires p == map[T("source_version_id") := source, T("native_representation_id") := native,
                      T("evidence_reference_id") := reference, T("retrieval") := retrieval,
                      T("parent_projection_id") := parent, T("ordinal") := ordinal, T("generator") := generator]
    ensures Safe(JObj(p))
  {
    var first: Members := map[T("source_version_id") := source, T("native_representation_id") := native,
                              T("evidence_reference_id") := reference, T("retrieval") := retrieval];
    Literals(["source_version_id", "native_representation_id", "evidence_reference_id", "retrieval"]);
    assert Safe(JObj(first));
    SafeUpdate(first, "parent_projection_id", parent);
    SafeUpdate(first[T("parent_projection_id") := parent], "ordinal", ordinal);
    SafeUpdate(first[T("parent_projection_id") := parent][T("ordinal") := ordinal], "generator", generator);
  }

  /** Setting one member of a safe object to a safe value keeps it safe. */
  lemma SafeUpdate(m: Members, name: string, v: Json)
    requires Safe(JObj(m)) && Safe(v)
    ensures Safe(JObj(m[T(name) := v]))
  {
    Literal(name);
  }

  lemma RetrievalMembers(sha: Hash, payload: Bytes, mediaType: Text, part: Members)
    requires DigestShaped(sha) && NoSurrogates(mediaType)
    requires var r := RetrievalOf(sha, payload, mediaType).members;
             part == map[T("artifact_id") := Get(r, T("artifact_id")), T("media_type") := Get(r, T("media_type"))]
    ensures Safe(JObj(part))
  {
    DigestIsText(sha(payload));
    RetrievalPartIsSafe(JStr(sha(payload)), JStr(mediaType), part);
  }

  lemma GeneratorMembers(configHash: Text, part: Members)
    requires NoSurrogates(configHash)
    requires var r := FixedProvenance(configHash).members;
             part == map[T("name") := Get(r, T("generator_name")), T("version") := Get(r, T("generator_version")),
                         T("config_hash") := Get(r, T("generator_config_hash"))]
    ensures Safe(JObj(part))
  {
    Literal("stdlib-text-csv-projector");
    Literal("0.1.0");
    GeneratorPartIsSafe(JStr(T("stdlib-text-csv-projector")), JStr(T("0.1.0")), JStr(configHash), part);
  }

  lemma ProjectionSucceeds(sha: Hash, sourceId: Text, nativeId: Text, reference: Members, payload: Bytes,
                           mediaType: Text, ordinal: nat, configHash: Text)
    requires DigestShaped(sha) && NoSurrogates(sourceId) && NoSurrogates(nativeId) && NoSurrogates(configHash)
    requires NoSurrogates(mediaType) && ordinal <= MAX_SAFE_INTEGER && Safe(ReferenceId(reference))
    ensures MakeProjection(sha, sourceId, nativeId, reference, payload, mediaType, ordinal, configHash).Ok?
  {
    var m := ProjectionFields(sha, sourceId, nativeId, reference, payload, mediaType, ordinal, configHash);
    BareProjection(sha, sourceId, nativeId, reference, payload, mediaType, ordinal, configHash, m);
    var r, g := RetrievalOf(sha, payload, mediaType).members, FixedProvenance(configHash).members;
    var retrieval: Members := map[T("artifact_id") := Get(r, T("artifact_id")),
        T("media_type") := Get(r, T("media_type"))];
    var generator: Members := map[T("name") := Get(g, T("generator_name")),
        T("version") := Get(g, T("generator_version")),
                         T("config_hash") := Get(g, T("generator_config_hash"))];
    RetrievalMembers(sha, payload, mediaType, retrieval);
    GeneratorMembers(configHash, generator);
    var p := ProjectionPayload(m).value;
    ProjectionMembersAreSafe(JStr(sourceId), JStr(nativeId), ReferenceId(reference), JObj(retrieval), JNull,
                             JInt(ordinal), JObj(generator), p);
    Literal("openardp:evidence-projection");
    IdentityOfSafe(sha, PROJECTION_DOMAIN, p);
  }

  // ---------------------------------------------------------------- plain text

  lemma SpanIsSafe(end: nat, length: nat)
    requires end <= MAX_SAFE_INTEGER && length <= MAX_SAFE_INTEGER
    ensures Safe(JObj(TextSpanAnchor(end, length)))
  {
    Literals(["anchor_type", "coordinate_system", "start", "end", "text_length", "text_span",
              "unicode_code_points"]);
  }

  lemma RegionIsSafe(height: int)
    requires 0 <= height <= PPM
    ensures Safe(JObj(PageRegionAnchor(height)))
  {
    Literals(["anchor_type", "coordinate_system", "page_number", "x", "y", "width", "height", "page_region",
              "normalized_ppm_top_left"]);
  }

  lemma NativeTextIsSafe(text: Text, length: nat)
    requires NoSurrogates(text) && length <= MAX_SAFE_INTEGER
    ensures Safe(JObj(map[T("format") := JStr(T("plain-text")), T("newline") := JStr(T("lf")),
                          T("source_byte_length") := JInt(length), T("text") := JStr(text)]))
  {
    Literals(["format", "newline", "source_byte_length", "text", "plain-text", "lf"]);
  }

  lemma ConfigIsSafe(kind: string, mediaType: Text)
    requires NoSurrogates(mediaType)
    ensures Safe(ConfigValue(T(kind), mediaType))
  {
    Literal(kind);
    Literals(["kind", "media_type", "profile", "profile_version", "deterministic-grid", "0.1.0"]);
  }

  lemma CollectOne(results: seq<Result<Members>>)
    requires results != [] && results[0].Ok? && Collect(results[1..]).Ok?
    ensures Collect(results).Ok? && Collect(results).value == [results[0].value] + Collect(results[1..]).value
  {
  }

  lemma CollectTwo(results: seq<Result<Members>>)
    requires |results| == 2 && results[0].Ok? && results[1].Ok?
    ensures Collect(results).Ok?
  {
    assert results[1..][0] == results[1] && results[1..][1..] == [];
    CollectOne(results[1..]);
    CollectOne(results);
  }

  /** The reference was made, with an identifier that can be printed. */
  predicate Referable(r: Result<Members>) {
    r.Ok? && Safe(ReferenceId(r.value))
  }

  lemma ReferenceIsReferable(sha: Hash, sourceId: Text, nativeId: Text, anchor: Members)
    requires DigestShaped(sha) && NoSurrogates(sourceId) && NoSurrogates(nativeId) && Safe(JObj(anchor))
    ensures Referable(MakeReference(sha, sourceId, nativeId, anchor))
  {
    ReferenceSucceeds(sha, sourceId, nativeId, anchor);
    DigestIsText(TextOf(ReferenceId(MakeReference(sha, sourceId, nativeId, anchor).value)));
  }

  lemma ReferencesAreMade(sha: Hash, sourceId: Text, nativeId: Text, anchors: seq<Members>)
    requires |anchors| == 2 && forall i :: 0 <= i < 2 ==> MakeReference(sha, sourceId, nativeId, anchors[i]).Ok?
    ensures MakeReferences(sha, sourceId, nativeId, anchors).Ok?
  {
    CollectTwo(seq(|anchors|, i requires 0 <= i < |anchors| => MakeReference(sha, sourceId, nativeId, anchors[i])));
  }

  lemma ReferencesSucceed(sha: Hash, sourceId: Text, nativeId: Text, anchors: seq<Members>)
    requires DigestShaped(sha) && NoSurrogates(sourceId) && NoSurrogates(nativeId)
    requires |anchors| == 2 && Safe(JObj(anchors[0])) && Safe(JObj(anchors[1]))
    ensures MakeReferences(sha, sourceId, nativeId, anchors).Ok?
    ensures forall i :: 0 <= i < 2 ==> Safe(ReferenceId(MakeReferences(sha, sourceId, nativeId, anchors).value[i]))
  {
    forall i | 0 <= i < 2 ensures Referable(MakeReference(sha, sourceId, nativeId, anchors[i])) {
      ReferenceIsReferable(sha, sourceId, nativeId, anchors[i]);
    }
    ReferencesAreMade(sha, sourceId, nativeId, anchors);
  }

  lemma MediaIsText(ordinal: nat)
    ensures NoSurrogates(MediaOf(ordinal))
  {
    Literal("text/plain");
    Literal("application/json");
  }

  lemma ProjectionsSucceed(sha: Hash, sourceId: Text, nativeId: Text, references: seq<Members>, payloads: seq<Bytes>,
                           configHash: Text)
    requires DigestShaped(sha) && NoSurrogates(sourceId) && NoSurrogates(nativeId) && NoSurrogates(configHash)
    requires |references| == |payloads| == 2 && Safe(ReferenceId(references[0])) && Safe(ReferenceId(references[1]))
    ensures MakeProjections(sha, sourceId, nativeId, references, payloads, configHash).Ok?
  {
    MediaIsText(0);
    MediaIsText(1);
    ProjectionSucceeds(sha, sourceId, nativeId, references[0], payloads[0], MediaOf(0), 0, configHash);
    ProjectionSucceeds(sha, sourceId, nativeId, references[1], payloads[1], MediaOf(1), 1, configHash);
    CollectTwo(seq(|references|, i requires 0 <= i < |references| =>
      MakeProjection(sha, sourceId, nativeId, references[i], payloads[i], MediaOf(i), i, configHash)));
  }

  lemma RecordsSucceed(sha: Hash, sourceId: Text, native: Members, reading: Reading, configHash: Text)
    requires DigestShaped(sha) && NoSurrogates(sourceId) && NoSurrogates(configHash) && IsSha256(NativeId(native))
    requires |reading.anchors| == |reading.payloads| == 2
    requires Safe(JObj(reading.anchors[0])) && Safe(JObj(reading.anchors[1]))
    ensures MakeRecords(sha, sourceId, native, reading, configHash).Ok?
  {
    var nativeId := TextOf(NativeId(native));
    DigestIsText(nativeId);
    ReferencesSucceed(sha, sourceId, nativeId, reading.anchors);
    var references := MakeReferences(sha, sourceId, nativeId, reading.anchors).value;
    ProjectionsSucceed(sha, sourceId, nativeId, references, reading.payloads, configHash);
  }

  lemma ConfigSucceeds(sha: Hash, mediaType: Text)
    requires DigestShaped(sha) && NoSurrogates(mediaType)
    ensures ConfigHash(sha, PlainText, mediaType).Ok?
    ensures NoSurrogates(ConfigHash(sha, PlainText, mediaType).value)
  {
    ConfigIsSafe("text", mediaType);
    CanonicalBytesTotal(ConfigValue(T("text"), mediaType));
    DigestIsText(ConfigHash(sha, PlainText, mediaType).value);
  }

  lemma {:induction false} EncodedIsNoShorter(b: Bytes)
    requires Decode(b).Some?
    ensures |Decode(b).value| <= |b|
  {
    EncodeOfDecode(b);
  }

  lemma FromReadingSucceeds(sha: Hash, sourceId: Text, reading: Reading, configHash: Text)
    requires DigestShaped(sha) && NoSurrogates(sourceId) && NoSurrogates(configHash) && Safe(reading.native)
    requires |reading.anchors| == |reading.payloads| == 2
    requires Safe(JObj(reading.anchors[0])) && Safe(JObj(reading.anchors[1]))
    ensures ProduceFrom(sha, sourceId, reading, configHash).Ok?
  {
    CanonicalBytesTotal(reading.native);
    var nativePayload := CanonicalBytes(reading.native).value;
    NativeSucceeds(sha, sourceId, nativePayload, configHash);
    RecordsSucceed(sha, sourceId, MakeNative(sha, sourceId, nativePayload, configHash).value, reading, configHash);
  }

  /** The bytes are strict UTF-8, not empty, with line feeds only. */
  predicate Readable(payload: Bytes) {
    Decode(payload).Some? && Decode(payload).value != [] && 0x0D !in Decode(payload).value
  }

  lemma TextIsRead(csv: CsvReader, payload: Bytes)
    ensures Read(csv, PlainText, payload).Ok? <==> Readable(payload)
  {
    if Readable(payload) {
      EncodeOfDecode(payload);
      var text := Decode(payload).value;
      assert FirstLine(text) == text[..|FirstLine(text)|];
    }
  }

  lemma ReadingIsSafe(csv: CsvReader, payload: Bytes, reading: Reading)
    requires Read(csv, PlainText, payload) == Ok(reading) && |payload| <= MAX_SAFE_INTEGER
    ensures |reading.anchors| == |reading.payloads| == 2
    ensures Safe(reading.native) && Safe(JObj(reading.anchors[0])) && Safe(JObj(reading.anchors[1]))
  {
    EncodeOfDecode(payload);
    var text := Decode(payload).value;
    EncodedIsNoShorter(payload);
    SpanIsSafe(|FirstLine(text)|, |text|);
    RegionIsSafe(250_000);
    NativeTextIsSafe(text, |payload|);
  }

  /** A plain-text source is produced exactly when it is readable. */
  lemma TextIsProduced(sha: Hash, csv: CsvReader, mediaType: Text, payload: Bytes)
    requires DigestShaped(sha) && NoSurrogates(mediaType) && |payload| <= MAX_SAFE_INTEGER
    ensures ProduceOne(sha, csv, PlainText, mediaType, payload).Ok? <==> Readable(payload)
  {
    TextIsRead(csv, payload);
    if Readable(payload) {
      var reading := Read(csv, PlainText, payload).value;
      ReadingIsSafe(csv, payload, reading);
      CanonicalBytesTotal(reading.native);
      ConfigSucceeds(sha, mediaType);
      DigestIsText(sha(payload));
      FromReadingSucceeds(sha, sha(payload), reading, ConfigHash(sha, PlainText, mediaType).value);
    }
  }

  /** A source of one line feed is produced, and the validators refuse what was produced. */
  lemma LineFeedIsProducedThenRefused(sha: Hash, csv: CsvReader, mediaType: Text)
    requires DigestShaped(sha) && NoSurrogates(mediaType)
    ensures ProduceOne(sha, csv, PlainText, mediaType, [0x0A]).Ok?
    ensures !Validated(sha, ProduceOne(sha, csv, PlainText, mediaType, [0x0A]).value.records)
  {
    assert Encode([0x0A]) == [0x0A] + Encode([]);
    DecodeOfEncode([0x0A]);
    TextIsProduced(sha, csv, mediaType, [0x0A]);
    ProducedRecordsConform(sha, csv, PlainText, mediaType, [0x0A],
        ProduceOne(sha, csv, PlainText, mediaType, [0x0A]).value);
  }
}
