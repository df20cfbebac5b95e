/**
  The alternate TXT/CSV producer. Python's `csv` dialect is a parameter: a function from text to
  rows, or None where it raises `csv.Error`.
 */
module EvidenceProducer {
  import opened Wrappers
  import opened Unicode
  import opened CanonicalJson
  import opened Evidence
  import opened EvidenceSets
  import opened EvidenceCoherence

  type Rows = seq<seq<Text>>
  type CsvReader = Text -> Option<Rows>

  datatype Kind = PlainText | Csv | OtherKind(name: Text)

  datatype Artifact = Artifact(id: Text, payload: Bytes, mediaType: Text)

  datatype Output = Output(records: RecordSet, nativeArtifact: Artifact, artifacts: seq<Artifact>)

  // ---------------------------------------------------------------- text

  /** The characters at which `str.splitlines` breaks. */
  predicate IsLineBreak(c: CodePoint) {
    0x0A <= c <= 0x0D || 0x1C <= c <= 0x1E || c == 0x85 || c == 0x2028 || c == 0x2029
  }

  /** `text.splitlines()[0]` of a non-empty text. */
  function FirstLine(text: Text): (line: Text)
    ensures line <= text
  {
    if text == [] || IsLineBreak(text[0]) then [] else [text[0]] + FirstLine(text[1..])
  }

  function Join(parts: seq<Text>, separator: CodePoint): Text {
    if parts == [] then []
    else if |parts| == 1 then parts[0]
    else parts[0] + [separator] + Join(parts[1..], separator)
  }

  function JoinRows(rows: Rows): Text {
    Join(seq(|rows|, i requires 0 <= i < |rows| => Join(rows[i], 0x09)), 0x0A)
  }

  function TextArray(row: seq<Text>): Json {
    JArr(seq(|row|, i requires 0 <= i < |row| => JStr(row[i])))
  }

  function RowArray(rows: Rows): Json {
    JArr(seq(|rows|, i requires 0 <= i < |rows| => TextArray(rows[i])))
  }

  /** `text.encode()`; a lone surrogate raises. */
  function EncodeText(t: Text): Result<Bytes> {
    if NoSurrogates(t) then Ok(Encode(t)) else Fail("internal")
  }

  // ---------------------------------------------------------------- records

  /** `{**_base_record(), ...}`: the given members and the three that every record has. */
  function WithBase(m: Members): Members {
    m[T("contract_version") := JStr(T("0.1.0"))]
     [T("extensions") := JObj(map[])]
     [T("stability") := JStr(T("experimental"))]
  }

  function Trust(): Members {
    WithBase(map[T("effective_zone") := JStr(T("external_untrusted")),
                 T("instruction_execution_allowed") := JBool(false),
                 T("integrity") := JStr(T("verified_sha256")),
                 T("origin_zone") := JStr(T("external_untrusted")),
                 T("role") := JStr(T("data")),
                 T("sensitivity") := JStr(T("internal"))])
  }

  /** A reference record before its identifier is set. */
  function ReferenceFields(sourceId: Text, nativeId: Text, anchor: Members): Members {
    WithBase(map[T("source_version_id") := JStr(sourceId),
                 T("native_representation_id") := JStr(nativeId),
                 T("anchor") := JObj(anchor)])
  }

  function MakeReference(sha: Hash, sourceId: Text, nativeId: Text, anchor: Members): Result<Members> {
    var m := ReferenceFields(sourceId, nativeId, anchor);
    var id :- Identity(sha, REFERENCE_DOMAIN, ReferencePayload(m));
    Ok(m[T("evidence_reference_id") := JStr(id)])
  }

  function RetrievalOf(sha: Hash, payload: Bytes, mediaType: Text): Json {
    JObj(map[T("artifact_id") := JStr(sha(payload)),
             T("byte_length") := JInt(|payload|),
             T("media_type") := JStr(mediaType)])
  }

  function FixedProvenance(configHash: Text): Json {
    JObj(map[T("generator_name") := JStr(T("stdlib-text-csv-projector")),
             T("generator_version") := JStr(T("0.1.0")),
             T("generator_config_hash") := JStr(configHash),
             T("created_at") := JStr(T("2026-08-01T00:00:00Z"))])
  }

  /** A projection record before its identifier is set. */
  function ProjectionFields(sha: Hash, sourceId: Text, nativeId: Text, reference: Members, payload: Bytes,
                            mediaType: Text, ordinal: nat, configHash: Text): Members
  {
    WithBase(map[T("source_version_id") := JStr(sourceId),
                 T("native_representation_id") := JStr(nativeId),
                 T("reference") := JObj(reference),
                 T("retrieval") := RetrievalOf(sha, payload, mediaType),
                 T("parent_projection_id") := JNull,
                 T("ordinal") := JInt(ordinal),
                 T("trust") := JObj(Trust()),
                 T("provenance") := FixedProvenance(configHash)])
  }

  function MakeProjection(sha: Hash, sourceId: Text, nativeId: Text, reference: Members, payload: Bytes,
                          mediaType: Text, ordinal: nat, configHash: Text): Result<Members>
  {
    var m := ProjectionFields(sha, sourceId, nativeId, reference, payload, mediaType, ordinal, configHash);
    var id :- ProjectionIdentity(sha, m);
    Ok(m[T("evidence_projection_id") := JStr(id)])
  }

  function FixedProvider(configHash: Text): Json {
    JObj(map[T("name") := JStr(T("stdlib-text-csv")),
             T("version") := JStr(T("3.12")),
             T("profile") := JStr(T("deterministic-grid")),
             T("profile_version") := JStr(T("0.1.0")),
             T("config_hash") := JStr(configHash)])
  }

  /** A native record before its identifier is set. */
  function NativeFields(sha: Hash, sourceId: Text, nativePayload: Bytes, configHash: Text): Members {
    WithBase(map[T("source_version_id") := JStr(sourceId),
                 T("native_artifact_id") := JStr(sha(nativePayload)),
                 T("native_artifact_media_type") := JStr(T("application/json")),
                 T("native_artifact_byte_length") := JInt(|nativePayload|),
                 T("provider") := FixedProvider(configHash),
                 T("created_at") := JStr(T("2026-08-01T00:00:00Z"))])
  }

  function MakeNative(sha: Hash, sourceId: Text, nativePayload: Bytes, configHash: Text): Result<Members> {
    var m := NativeFields(sha, sourceId, nativePayload, configHash);
    var id :- NativeIdentity(sha, m);
    Ok(m[T("native_representation_id") := JStr(id)])
  }

  // ---------------------------------------------------------------- anchors

  function TextSpanAnchor(end: nat, length: nat): Members {
    map[T("anchor_type") := JStr(T("text_span")),
        T("coordinate_system") := JStr(T("unicode_code_points")),
        T("start") := JInt(0), T("end") := JInt(end), T("text_length") := JInt(length)]
  }

  function PageRegionAnchor(height: int): Members {
    map[T("anchor_type") := JStr(T("page_region")),
        T("coordinate_system") := JStr(T("normalized_ppm_top_left")),
        T("page_number") := JInt(1), T("x") := JInt(0), T("y") := JInt(0),
        T("width") := JInt(PPM), T("height") := JInt(height)]
  }

  function MainTable(): Json {
    JObj(map[T("provider_profile") := JStr(T("deterministic-grid")),
             T("provider_profile_version") := JStr(T("0.1.0")),
             T("pointer_format") := JStr(T("stdlib-table-key")),
             T("pointer") := JStr(T("tables/main"))])
  }

  function TableCellAnchor(): Members {
    map[T("anchor_type") := JStr(T("table_cell")), T("table") := MainTable(),
        T("row_index") := JInt(1), T("column_index") := JInt(1),
        T("row_span") := JInt(1), T("column_span") := JInt(1)]
  }

  function ProviderPointerAnchor(): Members {
    map[T("anchor_type") := JStr(T("provider_pointer")), T("target") := MainTable()]
  }

  // ---------------------------------------------------------------- one source

  /** What the source kind determines: the native value, the anchors and the payload of each. */
  datatype Reading = Reading(native: Json, anchors: seq<Members>, payloads: seq<Bytes>)

  function ReadText(text: Text, payload: Bytes): (r: Result<Reading>)
    ensures r.Ok? ==> |r.value.payloads| == |r.value.anchors| == 2
  {
    if text == [] then Fail("internal")  // IndexError: an empty text has no first line
    else
      var line := FirstLine(text);
      var lineBytes :- EncodeText(line);
      Ok(Reading(
           JObj(map[T("format") := JStr(T("plain-text")), T("newline") := JStr(T("lf")),
                    T("source_byte_length") := JInt(|payload|), T("text") := JStr(text)]),
           [TextSpanAnchor(|line|, |text|), PageRegionAnchor(250_000)],
           [lineBytes, payload]))
  }

  function CsvNative(rows: Rows, width: nat, payload: Bytes): Json {
    JObj(map[T("dialect") := JObj(map[T("delimiter") := JStr(T(",")), T("doublequote") := JBool(true),
                                      T("quotechar") := JStr([QUOTE])]),
             T("format") := JStr(T("rfc4180-table")),
             T("page_view") := JObj(map[T("columns") := JInt(width), T("page_number") := JInt(1),
                                        T("rows") := JInt(|rows|)]),
             T("rows") := RowArray(rows),
             T("source_byte_length") := JInt(|payload|)])
  }

  function ReadCsv(csv: CsvReader, text: Text, payload: Bytes): (r: Result<Reading>)
    ensures r.Ok? ==> |r.value.payloads| == |r.value.anchors| == 4
  {
    match csv(text)
    case None => Fail("source_csv")
    case Some(rows) =>
      if rows == [] || [] in rows then Fail("source_csv")
      else if exists i :: 0 <= i < |rows| && |rows[i]| != |rows[0]| then Fail("source_csv")
      else if |rows| < 2 || |rows[0]| < 2 then Fail("internal")  // IndexError at rows[1][1]
      else
        var native := CsvNative(rows, |rows[0]|, payload);
        var flattened := JoinRows(rows);
        var flatBytes :- EncodeText(flattened);
        var rowBytes :- CanonicalBytes(RowArray(rows));
        var cellBytes :- EncodeText(rows[1][1]);
        var nativeBytes :- CanonicalBytes(native);
        Ok(Reading(native,
                   [TextSpanAnchor(|flattened|, |flattened|), PageRegionAnchor(PPM),
                    TableCellAnchor(), ProviderPointerAnchor()],
                   [flatBytes, rowBytes, cellBytes, nativeBytes]))
  }

  function ConfigValue(kind: Text, mediaType: Text): Json {
    JObj(map[T("kind") := JStr(kind), T("media_type") := JStr(mediaType),
             T("profile") := JStr(T("deterministic-grid")), T("profile_version") := JStr(T("0.1.0"))])
  }

  /** The values of a list of results, or the first failure in it. */
  function Collect(results: seq<Result<Members>>): (r: Result<seq<Members>>)
    ensures r.Ok? ==> |r.value| == |results|
    ensures r.Ok? ==> forall i :: 0 <= i < |results| ==> results[i] == Ok(r.value[i])
  {
    if results == [] then Ok([])
    else
      var first :- results[0];
      var rest :- Collect(results[1..]);
      Ok([first] + rest)
  }

  function MediaOf(ordinal: nat): Text {
    if ordinal == 0 then T("text/plain") else T("application/json")
  }

  function KindName(kind: Kind): Text {
    match kind
    case PlainText => T("text")
    case Csv => T("csv")
    case OtherKind(name) => name
  }

  function Read(csv: CsvReader, kind: Kind, payload: Bytes): (r: Result<Reading>)
    ensures r.Ok? ==> |r.value.payloads| == |r.value.anchors| <= 4
  {
    match Decode(payload)
    case None => Fail("source_encoding")
    case Some(text) =>
      if 0x0D in text then Fail("source_newline")
      else
        match kind
        case PlainText => ReadText(text, payload)
        case Csv => ReadCsv(csv, text, payload)
        case OtherKind(_) => Fail("source_kind")
  }

  function MakeReferences(sha: Hash, sourceId: Text, nativeId: Text, anchors: seq<Members>)
    : (r: Result<seq<Members>>)
    ensures r.Ok? ==> |r.value| == |anchors|
    ensures r.Ok? ==> forall i :: 0 <= i < |anchors| ==>
      MakeReference(sha, sourceId, nativeId, anchors[i]) == Ok(r.value[i])
  {
    Collect(seq(|anchors|, i requires 0 <= i < |anchors| => MakeReference(sha, sourceId, nativeId, anchors[i])))
  }

  function MakeProjections(sha: Hash, sourceId: Text, nativeId: Text, references: seq<Members>,
                           payloads: seq<Bytes>, configHash: Text): (r: Result<seq<Members>>)
    requires |references| == |payloads|
    ensures r.Ok? ==> |r.value| == |references|
    ensures r.Ok? ==> forall i :: 0 <= i < |references| ==>
      MakeProjection(sha, sourceId, nativeId, references[i], payloads[i], MediaOf(i), i, configHash)
      == Ok(r.value[i])
  {
    var results := seq(|references|, i requires 0 <= i < |references| =>
      MakeProjection(sha, sourceId, nativeId, references[i], payloads[i], MediaOf(i), i, configHash));
    Collect(results)
  }

  /** The records about one native artifact, over the anchors and payloads that were read. */
  function MakeRecords(sha: Hash, sourceId: Text, native: Members, reading: Reading, configHash: Text)
    : (r: Result<RecordSet>)
    requires |reading.payloads| == |reading.anchors|
    ensures r.Ok? ==> r.value.native == native
    ensures r.Ok? ==> MakeReferences(sha, sourceId, TextOf(NativeId(native)), reading.anchors) == Ok(r.value.references)
    ensures r.Ok? ==> MakeProjections(sha, sourceId, TextOf(NativeId(native)), r.value.references, reading.payloads,
                                      configHash) == Ok(r.value.projections)
  {
    var nativeId := TextOf(NativeId(native));
    var references :- MakeReferences(sha, sourceId, nativeId, reading.anchors);
    var projections :- MakeProjections(sha, sourceId, nativeId, references, reading.payloads, configHash);
    Ok(RecordSet(native, references, projections))
  }

  function ConfigHash(sha: Hash, kind: Kind, mediaType: Text): Result<Text> {
    var bytes :- CanonicalBytes(ConfigValue(KindName(kind), mediaType));
    Ok(sha(bytes))
  }

  function MakeArtifacts(sha: Hash, payloads: seq<Bytes>): (r: seq<Artifact>)
    ensures |r| == |payloads|
    ensures forall i :: 0 <= i < |r| ==> r[i].payload == payloads[i]
  {
    seq(|payloads|, i requires 0 <= i < |payloads| => Artifact(sha(payloads[i]), payloads[i], MediaOf(i)))
  }

  /** `_produce_one` after the source has been read. */
  function ProduceFrom(sha: Hash, sourceId: Text, reading: Reading, configHash: Text): (r: Result<Output>)
    requires |reading.payloads| == |reading.anchors|
    ensures r.Ok? ==> r.value.artifacts == MakeArtifacts(sha, reading.payloads)
    ensures r.Ok? ==>
      MakeNative(sha, sourceId, r.value.nativeArtifact.payload, configHash) == Ok(r.value.records.native)
    ensures r.Ok? ==> MakeRecords(sha, sourceId, r.value.records.native, reading, configHash) == Ok(r.value.records)
    ensures r.Ok? ==> CanonicalBytes(reading.native) == Ok(r.value.nativeArtifact.payload)
  {
    var nativePayload :- CanonicalBytes(reading.native);
    var native :- MakeNative(sha, sourceId, nativePayload, configHash);
    var records :- MakeRecords(sha, sourceId, native, reading, configHash);
    Ok(Output(records, Artifact(sha(nativePayload), nativePayload, T("application/json")),
              MakeArtifacts(sha, reading.payloads)))
  }

  /** `_produce_one`. */
  function ProduceOne(sha: Hash, csv: CsvReader, kind: Kind, mediaType: Text, payload: Bytes): (r: Result<Output>)
    ensures r.Ok? ==> Read(csv, kind, payload).Ok? && ConfigHash(sha, kind, mediaType).Ok?
    ensures r.Ok? ==> ProduceFrom(sha, sha(payload), Read(csv, kind, payload).value,
                                  ConfigHash(sha, kind, mediaType).value) == r
  {
    var reading :- Read(csv, kind, payload);
    var _ :- CanonicalBytes(reading.native);
    var configHash :- ConfigHash(sha, kind, mediaType);
    ProduceFrom(sha, sha(payload), reading, configHash)
  }

  function TextOf(v: Json): Text {
    if v.JStr? then v.s else []
  }

  // ---------------------------------------------------------------- conformance

  /** What is known of SHA-256 here: every digest has the digest shape. */
  ghost predicate DigestShaped(sha: Hash) {
    forall b :: IsDigest(sha(b))
  }

  lemma BaseIsCommon(m: Members)
    requires Get(m, T("contract_version")) == JStr(T("0.1.0"))
    requires Get(m, T("extensions")) == JObj(map[])
    requires Get(m, T("stability")) == JStr(T("experimental"))
    ensures Common(m).Ok?
  {
  }

  lemma FixedVersionIsSemver()
    ensures IsSemverText(T("0.1.0"))
  {
    var t := T("0.1.0");
    assert t == [0x30, 0x2E, 0x31, 0x2E, 0x30];
    assert CoreNumberAndDotEnd(t, 0) == Some(2);
    assert SpanEnd(t, 3, IsDigit) == 3;
    assert CoreNumberAndDotEnd(t, 2) == Some(4);
    assert CoreNumberEnd(t, 4) == Some(5);
  }

  lemma {:induction false} SpanEndIs(t: Text, i: nat, e: nat, inClass: CodePoint -> bool)
    requires i <= e <= |t|
    requires forall k :: i <= k < e ==> inClass(t[k])
    requires e < |t| ==> !inClass(t[e])
    ensures SpanEnd(t, i, inClass) == e
    decreases e - i
  {
    if i < e { SpanEndIs(t, i + 1, e, inClass); }
  }

  lemma FixedMediaTypes()
    ensures IsMediaText(T("application/json")) && IsMediaText(T("text/plain"))
  {
    var json, plain := T("application/json"), T("text/plain");
    assert forall k :: 0 <= k < 16 && k != 11 ==> IsMediaChar(json[k]);
    assert forall k :: 0 <= k < 10 && k != 4 ==> IsMediaChar(plain[k]);
    SpanEndIs(json, 0, 11, IsMediaChar);
    SpanEndIs(json, 12, 16, IsMediaChar);
    SpanEndIs(plain, 0, 4, IsMediaChar);
    SpanEndIs(plain, 5, 10, IsMediaChar);
  }

  lemma MainTableIsPointer()
    ensures Pointer(MainTable()).Ok?
  {
    FixedVersionIsSemver();
    var m := MainTable().members;
    assert m.Keys == POINTER_FIELDS;
    assert forall i :: 0 <= i < |T("tables/main")| ==> !IsControl(T("tables/main")[i]);
  }

  /** A text span is valid exactly when it is not empty, within its text, and within bounds. */
  lemma TextSpanConforms(end: nat, length: nat)
    ensures Anchor(JObj(TextSpanAnchor(end, length))).Ok? <==> 0 < end <= length <= MAX_SAFE_INTEGER
  {
    var m := TextSpanAnchor(end, length);
    assert m.Keys == {T("anchor_type"), T("coordinate_system"), T("start"), T("end"), T("text_length")};
    assert Anchor(JObj(m)) == TextSpan(m);
  }

  lemma PageRegionConforms(height: int)
    requires 1 <= height <= PPM
    ensures Anchor(JObj(PageRegionAnchor(height))).Ok?
  {
    var m := PageRegionAnchor(height);
    assert m.Keys == {T("anchor_type"), T("coordinate_system"), T("page_number"),
                      T("x"), T("y"), T("width"), T("height")};
    assert Anchor(JObj(m)) == PageRegion(m);
  }

  lemma TableCellConforms()
    ensures Anchor(JObj(TableCellAnchor())).Ok?
  {
    MainTableIsPointer();
    var m := TableCellAnchor();
    assert m.Keys == {T("anchor_type"), T("table"), T("row_index"), T("column_index"),
                      T("row_span"), T("column_span")};
    assert Anchor(JObj(m)) == TableCell(m);
  }

  lemma ProviderPointerConforms()
    ensures Anchor(JObj(ProviderPointerAnchor())).Ok?
  {
    MainTableIsPointer();
    var m := ProviderPointerAnchor();
    assert m.Keys == {T("anchor_type"), T("target")};
    assert Anchor(JObj(m)) == ProviderPointer(m);
  }

  lemma TrustConforms()
    ensures ValidateTrust(JObj(Trust())).Ok?
  {
    var m := Trust();
    assert m.Keys == TRUST_FIELDS;
    BaseIsCommon(m);
  }

  /** What a reference record needs besides a valid anchor. */
  lemma ReferenceValidIffAnchorIs(sha: Hash, m: Members)
    requires DigestShaped(sha)
    requires m.Keys == REFERENCE_FIELDS && Common(m).Ok?
    requires IsSha256(m[T("source_version_id")]) && IsSha256(m[T("native_representation_id")])
    requires HasIdentity(sha, m[T("evidence_reference_id")], REFERENCE_DOMAIN, ReferencePayload(m))
    ensures ValidateReference(sha, JObj(m)).Ok? <==> Anchor(m[T("anchor")]).Ok?
  {
    IdentityIsHash(sha, REFERENCE_DOMAIN, ReferencePayload(m));
  }

  lemma BareReference(sourceId: Text, nativeId: Text, anchor: Members, m: Members)
    requires m == ReferenceFields(sourceId, nativeId, anchor)
    ensures && m.Keys == REFERENCE_FIELDS - {T("evidence_reference_id")} && Common(m).Ok?
            && m[T("source_version_id")] == JStr(sourceId)
            && m[T("native_representation_id")] == JStr(nativeId)
            && m[T("anchor")] == JObj(anchor)
  {
    var m := ReferenceFields(sourceId, nativeId, anchor);
    BaseIsCommon(m);
    assert m.Keys == REFERENCE_FIELDS - {T("evidence_reference_id")};
  }

  /** The payload that an identity covers leaves the identifier itself out. */
  lemma SettingReferenceId(m: Members, id: Json)
    ensures ReferencePayload(m[T("evidence_reference_id") := id]) == ReferencePayload(m)
    ensures Common(m[T("evidence_reference_id") := id]) == Common(m)
  {
  }

  lemma SettingNativeId(m: Members, id: Json)
    ensures NativePayload(m[T("native_representation_id") := id]) == NativePayload(m)
    ensures Common(m[T("native_representation_id") := id]) == Common(m)
  {
  }

  lemma SettingProjectionId(m: Members, id: Json)
    ensures ProjectionPayload(m[T("evidence_projection_id") := id]) == ProjectionPayload(m)
    ensures Common(m[T("evidence_projection_id") := id]) == Common(m)
  {
  }

  lemma MadeReference(sha: Hash, sourceId: Text, nativeId: Text, anchor: Members, m: Members)
    requires MakeReference(sha, sourceId, nativeId, anchor) == Ok(m)
    ensures && m.Keys == REFERENCE_FIELDS && Common(m).Ok?
            && m[T("source_version_id")] == JStr(sourceId)
            && m[T("native_representation_id")] == JStr(nativeId)
            && m[T("anchor")] == JObj(anchor)
  {
    var bare := ReferenceFields(sourceId, nativeId, anchor);
    var id := Identity(sha, REFERENCE_DOMAIN, ReferencePayload(bare)).value;
    BareReference(sourceId, nativeId, anchor, bare);
    SettingReferenceId(bare, JStr(id));
  }

  lemma MadeReferenceIdentity(sha: Hash, sourceId: Text, nativeId: Text, anchor: Members, m: Members)
    requires MakeReference(sha, sourceId, nativeId, anchor) == Ok(m)
    ensures HasIdentity(sha, m[T("evidence_reference_id")], REFERENCE_DOMAIN, ReferencePayload(m))
  {
    var bare := ReferenceFields(sourceId, nativeId, anchor);
    var id := Identity(sha, REFERENCE_DOMAIN, ReferencePayload(bare)).value;
    SettingReferenceId(bare, JStr(id));
  }

  lemma ReferenceConforms(sha: Hash, sourceId: Text, nativeId: Text, anchor: Members, m: Members)
    requires DigestShaped(sha) && IsDigest(sourceId) && IsDigest(nativeId)
    requires MakeReference(sha, sourceId, nativeId, anchor) == Ok(m)
    ensures ValidateReference(sha, JObj(m)).Ok? <==> Anchor(JObj(anchor)).Ok?
  {
    MadeReference(sha, sourceId, nativeId, anchor, m);
    MadeReferenceIdentity(sha, sourceId, nativeId, anchor, m);
    ReferenceValidIffAnchorIs(sha, m);
  }

  lemma NativeValidIffLengthIs(sha: Hash, m: Members)
    requires DigestShaped(sha)
    requires m.Keys == NATIVE_FIELDS && Common(m).Ok?
    requires IsSha256(m[T("source_version_id")]) && IsSha256(m[T("native_artifact_id")])
    requires IsMediaType(m[T("native_artifact_media_type")])
    requires Provider(m[T("provider")]).Ok? && EndsWithZ(m[T("created_at")])
    requires HasIdentity(sha, m[T("native_representation_id")], NATIVE_DOMAIN, PayloadOf(NativePayload(m)))
    ensures ValidateNative(sha, JObj(m)).Ok?
       <==> IsInteger(m[T("native_artifact_byte_length")], 0, MAX_SAFE_INTEGER)
  {
    IdentityIsHash(sha, NATIVE_DOMAIN, PayloadOf(NativePayload(m)));
  }

  lemma ProviderConforms(configHash: Text)
    requires IsDigest(configHash)
    ensures Provider(FixedProvider(configHash)).Ok?
  {
    FixedVersionIsSemver();
    assert FixedProvider(configHash).members.Keys == PROVIDER_FIELDS;
  }

  lemma BareNative(sha: Hash, sourceId: Text, nativePayload: Bytes, configHash: Text, m: Members)
    requires m == NativeFields(sha, sourceId, nativePayload, configHash)
    ensures && m.Keys == NATIVE_FIELDS - {T("native_representation_id")}
            && m[T("source_version_id")] == JStr(sourceId)
            && m[T("native_artifact_id")] == JStr(sha(nativePayload))
            && m[T("native_artifact_media_type")] == JStr(T("application/json"))
            && m[T("native_artifact_byte_length")] == JInt(|nativePayload|)
            && m[T("provider")] == FixedProvider(configHash)
            && EndsWithZ(m[T("created_at")])
  {
    assert m.Keys == NATIVE_FIELDS - {T("native_representation_id")};
  }

  lemma BareNativeIsCommon(sha: Hash, sourceId: Text, nativePayload: Bytes, configHash: Text)
    ensures Common(NativeFields(sha, sourceId, nativePayload, configHash)).Ok?
  {
    BaseIsCommon(NativeFields(sha, sourceId, nativePayload, configHash));
  }

  lemma MadeNative(sha: Hash, sourceId: Text, nativePayload: Bytes, configHash: Text, m: Members)
    requires MakeNative(sha, sourceId, nativePayload, configHash) == Ok(m)
    ensures && m.Keys == NATIVE_FIELDS
            && m[T("source_version_id")] == JStr(sourceId)
            && m[T("native_artifact_id")] == JStr(sha(nativePayload))
            && m[T("native_artifact_media_type")] == JStr(T("application/json"))
            && m[T("native_artifact_byte_length")] == JInt(|nativePayload|)
            && m[T("provider")] == FixedProvider(configHash)
            && EndsWithZ(m[T("created_at")])
  {
    var bare := NativeFields(sha, sourceId, nativePayload, configHash);
    BareNative(sha, sourceId, nativePayload, configHash, bare);
    AddsIdentifier(bare, T("native_representation_id"), m[T("native_representation_id")], m);
  }

  lemma MadeNativeIdentity(sha: Hash, sourceId: Text, nativePayload: Bytes, configHash: Text, m: Members)
    requires MakeNative(sha, sourceId, nativePayload, configHash) == Ok(m)
    ensures && Common(m).Ok? && NativePayload(m).Ok?
            && HasIdentity(sha, m[T("native_representation_id")], NATIVE_DOMAIN, PayloadOf(NativePayload(m)))
  {
    var bare := NativeFields(sha, sourceId, nativePayload, configHash);
    var id := Identity(sha, NATIVE_DOMAIN, NativePayload(bare).value).value;
    BareNativeIsCommon(sha, sourceId, nativePayload, configHash);
    SettingNativeId(bare, JStr(id));
  }

  lemma NativeConforms(sha: Hash, sourceId: Text, nativePayload: Bytes, configHash: Text, m: Members)
    requires DigestShaped(sha) && IsDigest(sourceId) && IsDigest(configHash)
    requires MakeNative(sha, sourceId, nativePayload, configHash) == Ok(m)
    ensures ValidateNative(sha, JObj(m)).Ok? <==> |nativePayload| <= MAX_SAFE_INTEGER
    ensures IsSha256(NativeId(m))
  {
    MadeNative(sha, sourceId, nativePayload, configHash, m);
    MadeNativeIdentity(sha, sourceId, nativePayload, configHash, m);
    FixedMediaTypes();
    ProviderConforms(configHash);
    NativeValidIffLengthIs(sha, m);
    IdentityIsHash(sha, NATIVE_DOMAIN, PayloadOf(NativePayload(m)));
  }

  lemma ProjectionValidIffPartsAre(sha: Hash, m: Members)
    requires DigestShaped(sha)
    requires m.Keys == PROJECTION_FIELDS && Common(m).Ok?
    requires IsSha256(m[T("source_version_id")]) && IsSha256(m[T("native_representation_id")])
    requires m[T("reference")].JObj? && InScope(m[T("reference")].members, m)
    requires m[T("parent_projection_id")] == JNull && IsInteger(m[T("ordinal")], 0, MAX_SAFE_INTEGER)
    requires ValidateTrust(m[T("trust")]).Ok? && Provenance(m[T("provenance")]).Ok?
    requires HasIdentity(sha, m[T("evidence_projection_id")], PROJECTION_DOMAIN, PayloadOf(ProjectionPayload(m)))
    ensures ValidateProjection(sha, JObj(m)).Ok?
       <==> ValidateReference(sha, m[T("reference")]).Ok? && Retrieval(m[T("retrieval")]).Ok?
  {
    IdentityIsHash(sha, PROJECTION_DOMAIN, PayloadOf(ProjectionPayload(m)));
  }

  lemma ProvenanceConforms(configHash: Text)
    requires IsDigest(configHash)
    ensures Provenance(FixedProvenance(configHash)).Ok?
  {
    var m := FixedProvenance(configHash).members;
    assert m.Keys == {T("generator_name"), T("generator_version"), T("generator_config_hash"), T("created_at")};
  }

  lemma RetrievalConforms(sha: Hash, payload: Bytes, mediaType: Text)
    requires DigestShaped(sha) && IsMediaText(mediaType)
    ensures Retrieval(RetrievalOf(sha, payload, mediaType)).Ok? <==> |payload| <= MAX_SAFE_INTEGER
  {
    var m := RetrievalOf(sha, payload, mediaType).members;
    assert m.Keys == {T("artifact_id"), T("media_type"), T("byte_length")};
  }

  lemma BareProjectionKeys(sha: Hash, sourceId: Text, nativeId: Text, reference: Members, payload: Bytes,
                           mediaType: Text, ordinal: nat, configHash: Text, m: Members)
    requires m == ProjectionFields(sha, sourceId, nativeId, reference, payload, mediaType, ordinal, configHash)
    ensures m.Keys == PROJECTION_FIELDS - {T("evidence_projection_id")}
  {
  }

  lemma BareProjection(sha: Hash, sourceId: Text, nativeId: Text, reference: Members, payload: Bytes,
                       mediaType: Text, ordinal: nat, configHash: Text, m: Members)
    requires m == ProjectionFields(sha, sourceId, nativeId, reference, payload, mediaType, ordinal, configHash)
    ensures Get(m, T("source_version_id")) == JStr(sourceId) && Get(m, T("native_representation_id")) == JStr(nativeId)
    ensures Get(m, T("reference")) == JObj(reference) && Get(m, T("retrieval")) == RetrievalOf(sha, payload, mediaType)
    ensures Get(m, T("parent_projection_id")) == JNull && Get(m, T("ordinal")) == JInt(ordinal)
    ensures Get(m, T("trust")) == JObj(Trust()) && Get(m, T("provenance")) == FixedProvenance(configHash)
  {
  }

  /** Adding an identifier that was not there leaves the other members as they were. */
  lemma AddsIdentifier(bare: Members, name: Text, id: Json, m: Members)
    requires name !in bare && m == bare[name := id]
    ensures m.Keys == bare.Keys + {name}
    ensures forall k :: k != name ==> Get(m, k) == Get(bare, k)
  {
  }

  lemma BareProjectionIsCommon(sha: Hash, sourceId: Text, nativeId: Text, reference: Members, payload: Bytes,
                               mediaType: Text, ordinal: nat, configHash: Text)
    ensures Common(ProjectionFields(sha, sourceId, nativeId, reference, payload, mediaType, ordinal, configHash)).Ok?
  {
    BaseIsCommon(ProjectionFields(sha, sourceId, nativeId, reference, payload, mediaType, ordinal, configHash));
  }

  lemma MadeProjection(sha: Hash, sourceId: Text, nativeId: Text, reference: Members, payload: Bytes,
                       mediaType: Text, ordinal: nat, configHash: Text, m: Members)
    requires MakeProjection(sha, sourceId, nativeId, reference, payload, mediaType, ordinal, configHash) == Ok(m)
    ensures m.Keys == PROJECTION_FIELDS
    ensures forall k :: k != T("evidence_projection_id") ==>
      Get(m, k) == Get(ProjectionFields(sha, sourceId, nativeId, reference, payload, mediaType, ordinal, configHash), k)
  {
    var bare := ProjectionFields(sha, sourceId, nativeId, reference, payload, mediaType, ordinal, configHash);
    BareProjectionKeys(sha, sourceId, nativeId, reference, payload, mediaType, ordinal, configHash, bare);
    AddsIdentifier(bare, T("evidence_projection_id"), m[T("evidence_projection_id")], m);
  }

  /** The members of a made projection. */
  lemma MadeProjectionMembers(sha: Hash, sourceId: Text, nativeId: Text, reference: Members, payload: Bytes,
                              mediaType: Text, ordinal: nat, configHash: Text, m: Members)
    requires MakeProjection(sha, sourceId, nativeId, reference, payload, mediaType, ordinal, configHash) == Ok(m)
    ensures && m.Keys == PROJECTION_FIELDS
            && m[T("source_version_id")] == JStr(sourceId)
            && m[T("native_representation_id")] == JStr(nativeId)
            && m[T("reference")] == JObj(reference)
            && m[T("retrieval")] == RetrievalOf(sha, payload, mediaType)
            && m[T("parent_projection_id")] == JNull
            && m[T("ordinal")] == JInt(ordinal)
            && m[T("trust")] == JObj(Trust())
            && m[T("provenance")] == FixedProvenance(configHash)
  {
    MadeProjection(sha, sourceId, nativeId, reference, payload, mediaType, ordinal, configHash, m);
    BareProjection(sha, sourceId, nativeId, reference, payload, mediaType, ordinal, configHash,
                   ProjectionFields(sha, sourceId, nativeId, reference, payload, mediaType, ordinal, configHash));
  }

  lemma MadeProjectionIdentity(sha: Hash, sourceId: Text, nativeId: Text, reference: Members, payload: Bytes,
                               mediaType: Text, ordinal: nat, configHash: Text, m: Members)
    requires MakeProjection(sha, sourceId, nativeId, reference, payload, mediaType, ordinal, configHash) == Ok(m)
    ensures && Common(m).Ok? && ProjectionPayload(m).Ok?
            && HasIdentity(sha, m[T("evidence_projection_id")], PROJECTION_DOMAIN, PayloadOf(ProjectionPayload(m)))
  {
    var bare := ProjectionFields(sha, sourceId, nativeId, reference, payload, mediaType, ordinal, configHash);
    var id := Identity(sha, PROJECTION_DOMAIN, ProjectionPayload(bare).value).value;
    BareProjectionIsCommon(sha, sourceId, nativeId, reference, payload, mediaType, ordinal, configHash);
    SettingProjectionId(bare, JStr(id));
  }

  lemma ProjectionConforms(sha: Hash, sourceId: Text, nativeId: Text, reference: Members, payload: Bytes,
                           mediaType: Text, ordinal: nat, configHash: Text, m: Members)
    requires DigestShaped(sha) && IsDigest(sourceId) && IsDigest(nativeId) && IsDigest(configHash)
    requires IsMediaText(mediaType) && ordinal <= MAX_SAFE_INTEGER
    requires Get(reference, T("source_version_id")) == JStr(sourceId) && NativeId(reference) == JStr(nativeId)
    requires MakeProjection(sha, sourceId, nativeId, reference, payload, mediaType, ordinal, configHash) == Ok(m)
    ensures ValidateProjection(sha, JObj(m)).Ok?
       <==> ValidateReference(sha, JObj(reference)).Ok? && |payload| <= MAX_SAFE_INTEGER
  {
    MadeProjectionMembers(sha, sourceId, nativeId, reference, payload, mediaType, ordinal, configHash, m);
    MadeProjectionIdentity(sha, sourceId, nativeId, reference, payload, mediaType, ordinal, configHash, m);
    TrustConforms();
    ProvenanceConforms(configHash);
    RetrievalConforms(sha, payload, mediaType);
    ProjectionValidIffPartsAre(sha, m);
  }

  lemma JoinNotEmpty(parts: seq<Text>, separator: CodePoint)
    requires |parts| >= 2
    ensures Join(parts, separator) != []
  {
  }

  /** Every artifact's byte length is a JSON-safe integer. */
  predicate ArtifactsFit(out: Output) {
    && |out.nativeArtifact.payload| <= MAX_SAFE_INTEGER
    && forall i :: 0 <= i < |out.artifacts| ==> |out.artifacts[i].payload| <= MAX_SAFE_INTEGER
  }

  /** What a caller can see before the call: a text source must not start with a line break. */
  predicate StartsWithALine(kind: Kind, payload: Bytes) {
    kind.PlainText? ==> Decode(payload).Some? && FirstLine(Decode(payload).value) != []
  }

  lemma AnchorsConform(csv: CsvReader, kind: Kind, payload: Bytes, reading: Reading)
    requires Read(csv, kind, payload) == Ok(reading)
    requires forall i :: 0 <= i < |reading.payloads| ==> |reading.payloads[i]| <= MAX_SAFE_INTEGER
    ensures (forall i :: 0 <= i < |reading.anchors| ==> Anchor(JObj(reading.anchors[i])).Ok?)
       <==> StartsWithALine(kind, payload)
  {
    var text := Decode(payload).value;
    EncodeOfDecode(payload);
    if kind.PlainText? {
      var line := FirstLine(text);
      assert reading.anchors == [TextSpanAnchor(|line|, |text|), PageRegionAnchor(250_000)];
      assert |reading.payloads[1]| <= MAX_SAFE_INTEGER;
      TextSpanConforms(|line|, |text|);
      PageRegionConforms(250_000);
      assert reading.anchors[0] == TextSpanAnchor(|line|, |text|);
    } else {
      CsvAnchorsConform(csv, text, payload, reading);
    }
  }

  /** What a CSV reading holds. */
  lemma CsvReading(csv: CsvReader, text: Text, payload: Bytes, reading: Reading)
    requires ReadCsv(csv, text, payload) == Ok(reading)
    ensures csv(text).Some? && |csv(text).value| >= 2
    ensures reading.payloads[0] == Encode(JoinRows(csv(text).value))
    ensures reading.anchors == CsvAnchors(|JoinRows(csv(text).value)|)
  {
  }

  function CsvAnchors(length: nat): seq<Members> {
    [TextSpanAnchor(length, length), PageRegionAnchor(PPM), TableCellAnchor(), ProviderPointerAnchor()]
  }

  lemma CsvAnchorsAreValid(length: nat)
    requires 0 < length <= MAX_SAFE_INTEGER
    ensures forall i :: 0 <= i < 4 ==> Anchor(JObj(CsvAnchors(length)[i])).Ok?
  {
    TextSpanConforms(length, length);
    PageRegionConforms(PPM);
    TableCellConforms();
    ProviderPointerConforms();
    HoldsOfFour(TextSpanAnchor(length, length), PageRegionAnchor(PPM), TableCellAnchor(), ProviderPointerAnchor(),
                (a: Members) => Anchor(JObj(a)).Ok?);
  }

  lemma HoldsOfFour(a: Members, b: Members, c: Members, d: Members, valid: Members -> bool)
    requires valid(a) && valid(b) && valid(c) && valid(d)
    ensures forall i :: 0 <= i < 4 ==> valid([a, b, c, d][i])
  {
  }

  lemma JoinedRowsNotEmpty(rows: Rows)
    requires |rows| >= 2
    ensures JoinRows(rows) != []
  {
    JoinNotEmpty(seq(|rows|, i requires 0 <= i < |rows| => Join(rows[i], 0x09)), 0x0A);
  }

  lemma CsvAnchorsConform(csv: CsvReader, text: Text, payload: Bytes, reading: Reading)
    requires ReadCsv(csv, text, payload) == Ok(reading)
    requires |reading.payloads[0]| <= MAX_SAFE_INTEGER
    ensures forall i :: 0 <= i < |reading.anchors| ==> Anchor(JObj(reading.anchors[i])).Ok?
  {
    CsvReading(csv, text, payload, reading);
    JoinedRowsNotEmpty(csv(text).value);
    CsvAnchorsAreValid(|JoinRows(csv(text).value)|);
  }

  /** Which records of a reading the validators accept. */
  lemma RecordsConform(sha: Hash, sourceId: Text, native: Members, reading: Reading, configHash: Text, s: RecordSet)
    requires DigestShaped(sha) && IsDigest(sourceId) && IsDigest(configHash) && IsSha256(NativeId(native))
    requires |reading.payloads| == |reading.anchors| <= MAX_SAFE_INTEGER
    requires MakeRecords(sha, sourceId, native, reading, configHash) == Ok(s)
    ensures s.native == native
    ensures |s.references| == |s.projections| == |reading.anchors|
    ensures forall i :: 0 <= i < |reading.anchors| ==>
      (ValidateReference(sha, JObj(s.references[i])).Ok? <==> Anchor(JObj(reading.anchors[i])).Ok?)
    ensures forall i :: 0 <= i < |reading.anchors| ==>
      (ValidateProjection(sha, JObj(s.projections[i])).Ok?
       <==> ValidateReference(sha, JObj(s.references[i])).Ok? && |reading.payloads[i]| <= MAX_SAFE_INTEGER)
  {
    var nativeId := NativeId(native).s;
    FixedMediaTypes();
    forall i | 0 <= i < |reading.anchors|
      ensures ValidateReference(sha, JObj(s.references[i])).Ok? <==> Anchor(JObj(reading.anchors[i])).Ok?
      ensures ValidateProjection(sha, JObj(s.projections[i])).Ok?
         <==> ValidateReference(sha, JObj(s.references[i])).Ok? && |reading.payloads[i]| <= MAX_SAFE_INTEGER
    {
      PairConforms(sha, sourceId, nativeId, reading.anchors[i], s.references[i], reading.payloads[i], MediaOf(i), i,
                   configHash, s.projections[i]);
    }
  }

  /** One reference and its projection. */
  lemma PairConforms(sha: Hash, sourceId: Text, nativeId: Text, anchor: Members, reference: Members, payload: Bytes,
                     mediaType: Text, ordinal: nat, configHash: Text, projection: Members)
    requires DigestShaped(sha) && IsDigest(sourceId) && IsDigest(nativeId) && IsDigest(configHash)
    requires IsMediaText(mediaType) && ordinal <= MAX_SAFE_INTEGER
    requires MakeReference(sha, sourceId, nativeId, anchor) == Ok(reference)
    requires MakeProjection(sha, sourceId, nativeId, reference, payload, mediaType, ordinal, configHash)
      == Ok(projection)
    ensures ValidateReference(sha, JObj(reference)).Ok? <==> Anchor(JObj(anchor)).Ok?
    ensures ValidateProjection(sha, JObj(projection)).Ok?
       <==> ValidateReference(sha, JObj(reference)).Ok? && |payload| <= MAX_SAFE_INTEGER
  {
    ReferenceConforms(sha, sourceId, nativeId, anchor, reference);
    MadeReference(sha, sourceId, nativeId, anchor, reference);
    ProjectionConforms(sha, sourceId, nativeId, reference, payload, mediaType, ordinal, configHash, projection);
  }

  lemma ProducedNativeConforms(sha: Hash, csv: CsvReader, kind: Kind, mediaType: Text, payload: Bytes, out: Output)
    requires DigestShaped(sha)
    requires ProduceOne(sha, csv, kind, mediaType, payload) == Ok(out)
    ensures ValidateNative(sha, JObj(out.records.native)).Ok? <==> |out.nativeArtifact.payload| <= MAX_SAFE_INTEGER
    ensures IsSha256(NativeId(out.records.native))
  {
    NativeConforms(sha, sha(payload), out.nativeArtifact.payload, ConfigHash(sha, kind, mediaType).value,
                   out.records.native);
  }

  lemma ProducedByParts(sha: Hash, csv: CsvReader, kind: Kind, mediaType: Text, payload: Bytes, out: Output,
                        reading: Reading)
    requires DigestShaped(sha)
    requires ProduceOne(sha, csv, kind, mediaType, payload) == Ok(out) && Read(csv, kind, payload) == Ok(reading)
    ensures Validated(sha, out.records)
       <==> |out.nativeArtifact.payload| <= MAX_SAFE_INTEGER
            && (forall i :: 0 <= i < |reading.anchors| ==> Anchor(JObj(reading.anchors[i])).Ok?)
            && (forall i :: 0 <= i < |reading.payloads| ==> |reading.payloads[i]| <= MAX_SAFE_INTEGER)
  {
    ProducedNativeConforms(sha, csv, kind, mediaType, payload, out);
    RecordsConform(sha, sha(payload), out.records.native, reading, ConfigHash(sha, kind, mediaType).value, out.records);
    ValidatedByParts(sha, out.records, reading);
  }

  /**
    A produced set passes every validator exactly when its source does not start with an empty
    line and its artifacts have JSON-safe lengths.
   */
  lemma ProducedRecordsConform(sha: Hash, csv: CsvReader, kind: Kind, mediaType: Text, payload: Bytes, out: Output)
    requires DigestShaped(sha)
    requires ProduceOne(sha, csv, kind, mediaType, payload) == Ok(out)
    ensures Validated(sha, out.records) <==> StartsWithALine(kind, payload) && ArtifactsFit(out)
  {
    var reading := Read(csv, kind, payload).value;
    ProducedByParts(sha, csv, kind, mediaType, payload, out, reading);
    ReadingFits(csv, kind, payload, reading);
    ArtifactsAreRead(sha, csv, kind, mediaType, payload, reading, out);
  }

  ghost predicate PayloadsFit(reading: Reading) {
    forall i :: 0 <= i < |reading.payloads| ==> |reading.payloads[i]| <= MAX_SAFE_INTEGER
  }

  lemma ReadingFits(csv: CsvReader, kind: Kind, payload: Bytes, reading: Reading)
    requires Read(csv, kind, payload) == Ok(reading)
    ensures PayloadsFit(reading) ==>
      ((forall i :: 0 <= i < |reading.anchors| ==> Anchor(JObj(reading.anchors[i])).Ok?) <==>
       StartsWithALine(kind, payload))
  {
    if PayloadsFit(reading) { AnchorsConform(csv, kind, payload, reading); }
  }

  lemma ArtifactsAreRead(sha: Hash, csv: CsvReader, kind: Kind, mediaType: Text, payload: Bytes, reading: Reading,
                         out: Output)
    requires ProduceOne(sha, csv, kind, mediaType, payload) == Ok(out) && Read(csv, kind, payload) == Ok(reading)
    ensures ArtifactsFit(out) <==> |out.nativeArtifact.payload| <= MAX_SAFE_INTEGER && PayloadsFit(reading)
  {
    assert out.artifacts == MakeArtifacts(sha, reading.payloads);
  }

  lemma ValidatedByParts(sha: Hash, s: RecordSet, reading: Reading)
    requires |s.references| == |s.projections| == |reading.anchors| == |reading.payloads|
    requires forall i :: 0 <= i < |reading.anchors| ==>
      (ValidateReference(sha, JObj(s.references[i])).Ok? <==> Anchor(JObj(reading.anchors[i])).Ok?)
    requires forall i :: 0 <= i < |reading.anchors| ==>
      (ValidateProjection(sha, JObj(s.projections[i])).Ok?
       <==> ValidateReference(sha, JObj(s.references[i])).Ok? && |reading.payloads[i]| <= MAX_SAFE_INTEGER)
    ensures Validated(sha, s)
       <==> ValidateNative(sha, JObj(s.native)).Ok?
            && (forall i :: 0 <= i < |reading.anchors| ==> Anchor(JObj(reading.anchors[i])).Ok?)
            && (forall i :: 0 <= i < |reading.payloads| ==> |reading.payloads[i]| <= MAX_SAFE_INTEGER)
  {
  }

  lemma ProjectionPayloadOrdinal(m: Members)
    requires ProjectionPayload(m).Ok?
    ensures T("ordinal") in ProjectionPayload(m).value
    ensures ProjectionPayload(m).value[T("ordinal")] == Get(m, T("ordinal"))
  {
  }

  lemma ProducedReferencesInScope(sha: Hash, sourceId: Text, native: Members, reading: Reading, configHash: Text,
                                  s: RecordSet)
    requires |reading.payloads| == |reading.anchors|
    requires MakeRecords(sha, sourceId, native, reading, configHash) == Ok(s)
    requires Get(native, T("source_version_id")) == JStr(sourceId) && NativeId(native).JStr?
    ensures AllInScope(s.references, native)
  {
    var nativeId := TextOf(NativeId(native));
    forall i | 0 <= i < |s.references| ensures InScope(s.references[i], native) {
      MadeReference(sha, sourceId, nativeId, reading.anchors[i], s.references[i]);
    }
  }

  lemma ProducedProjection(sha: Hash, sourceId: Text, nativeId: Text, reference: Members, payload: Bytes,
                           mediaType: Text, ordinal: nat, configHash: Text, m: Members)
    requires MakeProjection(sha, sourceId, nativeId, reference, payload, mediaType, ordinal, configHash) == Ok(m)
    ensures Get(m, T("source_version_id")) == JStr(sourceId) && NativeId(m) == JStr(nativeId)
    ensures Embedded(m) == reference
  {
    MadeProjectionMembers(sha, sourceId, nativeId, reference, payload, mediaType, ordinal, configHash, m);
  }

  lemma ProducedProjectionsListed(sha: Hash, sourceId: Text, native: Members, reading: Reading, configHash: Text,
                                  s: RecordSet)
    requires |reading.payloads| == |reading.anchors|
    requires MakeRecords(sha, sourceId, native, reading, configHash) == Ok(s)
    requires Get(native, T("source_version_id")) == JStr(sourceId) && NativeId(native).JStr?
    ensures AllInScope(s.projections, native) && AllListed(s.references, s.projections)
  {
    var nativeId := TextOf(NativeId(native));
    forall i | 0 <= i < |s.projections|
      ensures InScope(s.projections[i], native) && Embedded(s.projections[i]) == s.references[i]
    {
      ProducedProjection(sha, sourceId, nativeId, s.references[i], reading.payloads[i], MediaOf(i), i, configHash,
                         s.projections[i]);
    }
    EmbeddedMeansListed(s.references, s.projections);
  }

  lemma EmbeddedMeansListed(references: seq<Members>, projections: seq<Members>)
    requires |references| == |projections|
    requires forall i :: 0 <= i < |projections| ==> Embedded(projections[i]) == references[i]
    ensures AllListed(references, projections)
  {
    forall i | 0 <= i < |projections| ensures Listed(references, projections[i]) {
      assert ReferenceId(references[i]) == ReferenceId(Embedded(projections[i]));
    }
  }

  /**
    Without hash collisions on its own inputs, a produced set that passes the validators also
    passes the record-set checks, with the source version that the manifest expects of it.
   */
  lemma ProducedSetIsCoherent(sha: Hash, sourceId: Text, native: Members, reading: Reading, configHash: Text,
                              s: RecordSet)
    requires |reading.payloads| == |reading.anchors|
    requires MakeRecords(sha, sourceId, native, reading, configHash) == Ok(s)
    requires Get(native, T("source_version_id")) == JStr(sourceId) && NativeId(native).JStr?
    requires Validated(sha, s) && CollisionFree(sha, Hashed(s))
    ensures Coherent(native, s.references, s.projections, Some(JStr(sourceId)))
  {
    ProducedReferencesInScope(sha, sourceId, native, reading, configHash, s);
    ProducedProjectionsListed(sha, sourceId, native, reading, configHash, s);
    NoReferenceCollision(sha, sourceId, native, reading, configHash, s);
    NoProjectionCollision(sha, sourceId, native, reading, configHash, s);
  }

  lemma NoReferenceCollision(sha: Hash, sourceId: Text, native: Members, reading: Reading, configHash: Text,
                             s: RecordSet)
    requires |reading.payloads| == |reading.anchors|
    requires MakeRecords(sha, sourceId, native, reading, configHash) == Ok(s)
    requires Validated(sha, s) && CollisionFree(sha, Hashed(s))
    ensures NoCollision(s.references, ReferenceId)
  {
    var nativeId := TextOf(NativeId(native));
    forall i, j | 0 <= i < j < |s.references| && ReferenceId(s.references[i]) == ReferenceId(s.references[j])
      ensures PyEqual(s.references[i], s.references[j])
    {
      var a, b := s.references[i], s.references[j];
      ReferenceIdentified(sha, a);
      ReferenceIdentified(sha, b);
      EqualIdsBind(sha, Hashed(s), ReferenceId(a), REFERENCE_DOMAIN, ReferencePayload(a),
                   REFERENCE_DOMAIN, ReferencePayload(b));
      SameReferencePayload(a, b);
      MadeReference(sha, sourceId, nativeId, reading.anchors[i], a);
      MadeReference(sha, sourceId, nativeId, reading.anchors[j], b);
      assert reading.anchors[i] == reading.anchors[j];
      assert a == b;
    }
  }

  lemma NoProjectionCollision(sha: Hash, sourceId: Text, native: Members, reading: Reading, configHash: Text,
                              s: RecordSet)
    requires |reading.payloads| == |reading.anchors|
    requires MakeRecords(sha, sourceId, native, reading, configHash) == Ok(s)
    requires Validated(sha, s) && CollisionFree(sha, Hashed(s))
    ensures NoCollision(s.projections, ProjectionId)
  {
    var nativeId := TextOf(NativeId(native));
    forall i, j | 0 <= i < j < |s.projections|
      ensures ProjectionId(s.projections[i]) != ProjectionId(s.projections[j])
    {
      var a, b := s.projections[i], s.projections[j];
      MadeProjectionMembers(sha, sourceId, nativeId, s.references[i], reading.payloads[i], MediaOf(i), i, configHash,
          a);
      MadeProjectionMembers(sha, sourceId, nativeId, s.references[j], reading.payloads[j], MediaOf(j), j, configHash,
          b);
      ProjectionIdentified(sha, a);
      ProjectionIdentified(sha, b);
      ProjectionPayloadOrdinal(a);
      ProjectionPayloadOrdinal(b);
      if ProjectionId(a) == ProjectionId(b) {
        EqualIdsBind(sha, Hashed(s), ProjectionId(a), PROJECTION_DOMAIN, PayloadOf(ProjectionPayload(a)),
                     PROJECTION_DOMAIN, PayloadOf(ProjectionPayload(b)));
      }
    }
  }

  /** Producer and consumer agree: what is produced from a source with a first line is accepted. */
  lemma ProducedSetIsAccepted(sha: Hash, csv: CsvReader, kind: Kind, mediaType: Text, payload: Bytes, out: Output)
    requires DigestShaped(sha)
    requires ProduceOne(sha, csv, kind, mediaType, payload) == Ok(out)
    requires StartsWithALine(kind, payload) && ArtifactsFit(out)
    requires CollisionFree(sha, Hashed(out.records))
    ensures Validated(sha, out.records)
    ensures Coherent(out.records.native, out.records.references, out.records.projections,
                     Some(JStr(sha(payload))))
  {
    var reading := Read(csv, kind, payload).value;
    var configHash := ConfigHash(sha, kind, mediaType).value;
    ProducedRecordsConform(sha, csv, kind, mediaType, payload, out);
    NativeConforms(sha, sha(payload), out.nativeArtifact.payload, configHash, out.records.native);
    MadeNative(sha, sha(payload), out.nativeArtifact.payload, configHash, out.records.native);
    ProducedSetIsCoherent(sha, sha(payload), out.records.native, reading, configHash, out.records);
  }
}
