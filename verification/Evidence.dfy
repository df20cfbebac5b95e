/**
  The record validators, the content identities and the record-set checks of the alternate
  evidence process. SHA-256 is a parameter: an arbitrary function from bytes to digest text.

  An exception that the script does not raise itself (a TypeError, an IndexError) is the
  category "internal", as its main function reports it.
 */
module Evidence {
  import opened Wrappers
  import opened Unicode
  import opened CanonicalJson

  type Hash = Bytes -> Text
  type Members = map<Text, Json>

  const PPM: int := 1_000_000

  function Check(ok: bool, category: string): Result<()> {
    if ok then Ok(()) else Fail(category)
  }

  // ---------------------------------------------------------------- shapes

  function Object(v: Json, category: string): Result<Members> {
    if v.JObj? then Ok(v.members) else Fail(category)
  }

  /** `record.get(name)`. */
  function Get(m: Members, name: Text): Json {
    if name in m then m[name] else JNull
  }

  function ExactFields(m: Members, required: set<Text>, optional: set<Text>): (r: Result<()>)
    ensures r.Ok? <==> required <= m.Keys && m.Keys <= required + optional
  {
    if !(m.Keys <= required + optional) then Fail("unknown_field")
    else if !(required <= m.Keys) then Fail("missing_field")
    else Ok(())
  }

  predicate IsString(v: Json, maximum: nat) {
    v.JStr? && 0 < |v.s| <= maximum
  }

  predicate IsInteger(v: Json, minimum: int, maximum: int) {
    v.JInt? && minimum <= v.i <= maximum
  }

  predicate IsLowerHex(c: CodePoint) {
    IsDigit(c) || 0x61 <= c <= 0x66
  }

  /** `^sha256:[0-9a-f]{64}$` */
  predicate IsDigest(t: Text) {
    |t| == 71 && T("sha256:") <= t && forall i :: 7 <= i < 71 ==> IsLowerHex(t[i])
  }

  predicate IsSha256(v: Json) {
    v.JStr? && IsDigest(v.s)
  }

  predicate IsAlnum(c: CodePoint) {
    IsDigit(c) || 0x41 <= c <= 0x5A || 0x61 <= c <= 0x7A
  }

  /** The end of the longest prefix of `t[i..]` made of characters of the given class. */
  function SpanEnd(t: Text, i: nat, inClass: CodePoint -> bool): (e: nat)
    requires i <= |t|
    ensures i <= e <= |t|
    decreases |t| - i
  {
    if i < |t| && inClass(t[i]) then SpanEnd(t, i + 1, inClass) else i
  }

  /** `0|[1-9][0-9]*` from position i; None when it does not match. */
  function CoreNumberEnd(t: Text, i: nat): (e: Option<nat>)
    requires i <= |t|
    ensures e.Some? ==> i < e.value <= |t|
  {
    if i == |t| || !IsDigit(t[i]) then None
    else if t[i] == 0x30 then Some(i + 1)
    else Some(SpanEnd(t, i + 1, IsDigit))
  }

  predicate IsIdentifierChar(c: CodePoint) {
    IsAlnum(c) || c == MINUS
  }

  /** `[0-9A-Za-z-]+(?:\.[0-9A-Za-z-]+)*` from position i, as far as it goes. */
  function IdentifiersEnd(t: Text, i: nat): (e: Option<nat>)
    requires i <= |t|
    ensures e.Some? ==> i < e.value <= |t|
    decreases |t| - i
  {
    var e := SpanEnd(t, i, IsIdentifierChar);
    if e == i then None
    else if e < |t| && t[e] == DOT then
      match IdentifiersEnd(t, e + 1)
      case Some(e2) => Some(e2)
      case None => Some(e)
    else Some(e)
  }

  function CoreNumberAndDotEnd(t: Text, i: nat): (e: Option<nat>)
    requires i <= |t|
    ensures e.Some? ==> i < e.value <= |t|
  {
    var e := CoreNumberEnd(t, i);
    if e.Some? && e.value < |t| && t[e.value] == DOT then Some(e.value + 1) else None
  }

  /** Nothing, or the given sign and then dotted identifiers. */
  function SuffixEnd(t: Text, i: nat, sign: CodePoint): (e: Option<nat>)
    requires i <= |t|
    ensures e.Some? ==> i <= e.value <= |t|
  {
    if i < |t| && t[i] == sign then IdentifiersEnd(t, i + 1) else Some(i)
  }

  /** The semantic-version pattern of the contract. */
  predicate IsSemverText(t: Text) {
    var major := CoreNumberAndDotEnd(t, 0);
    if major.None? then false else
    var minor := CoreNumberAndDotEnd(t, major.value);
    if minor.None? then false else
    var patch := CoreNumberEnd(t, minor.value);
    if patch.None? then false else
    var pre := SuffixEnd(t, patch.value, MINUS);
    if pre.None? then false else
    SuffixEnd(t, pre.value, 0x2B) == Some(|t|)
  }

  predicate IsSemver(v: Json) {
    v.JStr? && IsSemverText(v.s)
  }

  predicate IsMediaChar(c: CodePoint) {
    IsAlnum(c) || c in {0x21, 0x23, 0x24, 0x26, 0x5E, 0x5F, 0x2E, 0x2B, 0x2D}
  }

  /** `type/subtype`, each an alphanumeric and up to 126 further characters. */
  predicate IsMediaText(t: Text) {
    var slash := SpanEnd(t, 0, IsMediaChar);
    && 1 <= slash <= 127 && IsAlnum(t[0])
    && slash + 1 < |t| && t[slash] == 0x2F && IsAlnum(t[slash + 1])
    && SpanEnd(t, slash + 1, IsMediaChar) == |t|
    && |t| - slash - 1 <= 127
  }

  predicate IsMediaType(v: Json) {
    v.JStr? && IsMediaText(v.s)
  }

  predicate IsUriSchemeChar(c: CodePoint) {
    IsAlnum(c) || c == 0x2B || c == DOT || c == MINUS
  }

  /** What `\s` matches in a Python string. */
  predicate IsPythonSpace(c: CodePoint) {
    0x09 <= c <= 0x0D || 0x1C <= c <= 0x20 || c == 0x85 || c == 0xA0 || c == 0x1680
    || 0x2000 <= c <= 0x200A || c == 0x2028 || c == 0x2029 || c == 0x202F || c == 0x205F || c == 0x3000
  }

  /** `^[A-Za-z][A-Za-z0-9+.-]*:[^\s]+$` */
  predicate IsUri(t: Text) {
    var colon := SpanEnd(t, 0, IsUriSchemeChar);
    && 1 <= colon && IsAlnum(t[0]) && !IsDigit(t[0])
    && colon + 1 < |t| && t[colon] == COLON
    && forall i :: colon < i < |t| ==> !IsPythonSpace(t[i])
  }

  predicate IsControl(c: CodePoint) {
    c <= 0x1F || 0x7F <= c <= 0x9F
  }

  // ---------------------------------------------------------------- parts of records

  function Extensions(v: Json): Result<()> {
    var m :- Object(v, "extensions");
    // The dict is checked item by item; a set of namespaces has no order to tell which failed first.
    if exists k :: k in m && !IsUri(k) then Fail("extension_namespace")
    else if exists k :: k in m && !Safe(m[k]) then Fail("unsupported_json")
    else Ok(())
  }

  function Common(m: Members): Result<()> {
    if Get(m, T("contract_version")) != JStr(T("0.1.0")) then Fail("contract_version")
    else if Get(m, T("stability")) != JStr(T("experimental")) then Fail("stability")
    else Extensions(Get(m, T("extensions")))
  }

  const PROVIDER_FIELDS: set<Text> :=
    {T("name"), T("version"), T("profile"), T("profile_version"), T("config_hash")}

  function Provider(v: Json): Result<Members> {
    var m :- Object(v, "structure");
    var _ :- ExactFields(m, PROVIDER_FIELDS, {});
    var _ :- Check(IsString(m[T("name")], 128), "type_or_bounds");
    var _ :- Check(IsString(m[T("version")], 128), "type_or_bounds");
    var _ :- Check(IsString(m[T("profile")], 128), "type_or_bounds");
    var _ :- Check(IsSemver(m[T("profile_version")]), "semver");
    var _ :- Check(IsSha256(m[T("config_hash")]), "sha256");
    Ok(m)
  }

  const POINTER_FIELDS: set<Text> :=
    {T("provider_profile"), T("provider_profile_version"), T("pointer_format"), T("pointer")}

  function Pointer(v: Json): Result<()> {
    var m :- Object(v, "structure");
    var _ :- ExactFields(m, POINTER_FIELDS, {});
    var _ :- Check(IsString(m[T("provider_profile")], 128), "type_or_bounds");
    var _ :- Check(IsSemver(m[T("provider_profile_version")]), "semver");
    var _ :- Check(IsString(m[T("pointer_format")], 128), "type_or_bounds");
    var _ :- Check(IsString(m[T("pointer")], 2048), "type_or_bounds");
    Check(forall i :: 0 <= i < |m[T("pointer")].s| ==> !IsControl(m[T("pointer")].s[i]), "pointer_control")
  }

  function TextSpan(m: Members): Result<()> {
    var _ :- ExactFields(m, {T("anchor_type"), T("coordinate_system"), T("start"), T("end")}, {T("text_length")});
    var _ :- Check(m[T("coordinate_system")] == JStr(T("unicode_code_points")), "coordinate_system");
    var start, end := m[T("start")], m[T("end")];
    var _ :- Check(IsInteger(start, 0, MAX_SAFE_INTEGER), "type_or_bounds");
    var _ :- Check(IsInteger(end, 0, MAX_SAFE_INTEGER), "type_or_bounds");
    var _ :- Check(start.i < end.i, "text_bounds");
    var length := Get(m, T("text_length"));
    if length == JNull then Ok(())
    else if !IsInteger(length, 0, MAX_SAFE_INTEGER) then Fail("type_or_bounds")
    else Check(end.i <= length.i, "text_bounds")
  }

  function PageRegion(m: Members): Result<()> {
    var _ :- ExactFields(m, {T("anchor_type"), T("coordinate_system"), T("page_number"),
                             T("x"), T("y"), T("width"), T("height")}, {});
    var _ :- Check(m[T("coordinate_system")] == JStr(T("normalized_ppm_top_left")), "coordinate_system");
    var x, y, width, height := m[T("x")], m[T("y")], m[T("width")], m[T("height")];
    var _ :- Check(IsInteger(m[T("page_number")], 1, MAX_SAFE_INTEGER), "type_or_bounds");
    var _ :- Check(IsInteger(x, 0, PPM - 1) && IsInteger(y, 0, PPM - 1), "type_or_bounds");
    var _ :- Check(IsInteger(width, 1, PPM) && IsInteger(height, 1, PPM), "type_or_bounds");
    Check(x.i + width.i <= PPM && y.i + height.i <= PPM, "page_bounds")
  }

  function TableCell(m: Members): Result<()> {
    var _ :- ExactFields(m, {T("anchor_type"), T("table"), T("row_index"), T("column_index")},
                         {T("row_span"), T("column_span")});
    var _ :- Pointer(m[T("table")]);
    var row, column := m[T("row_index")], m[T("column_index")];
    var rowSpan := if T("row_span") in m then m[T("row_span")] else JInt(1);
    var columnSpan := if T("column_span") in m then m[T("column_span")] else JInt(1);
    var _ :- Check(IsInteger(row, 0, MAX_SAFE_INTEGER) && IsInteger(column, 0, MAX_SAFE_INTEGER)
                   && IsInteger(rowSpan, 1, MAX_SAFE_INTEGER)
                   && IsInteger(columnSpan, 1, MAX_SAFE_INTEGER), "type_or_bounds");
    Check(row.i + rowSpan.i <= MAX_SAFE_INTEGER && column.i + columnSpan.i <= MAX_SAFE_INTEGER,
          "table_bounds")
  }

  function ProviderPointer(m: Members): Result<()> {
    var _ :- ExactFields(m, {T("anchor_type"), T("target")}, {});
    Pointer(m[T("target")])
  }

  function Anchor(v: Json): Result<()> {
    var m :- Object(v, "structure");
    var kind := Get(m, T("anchor_type"));
    if kind == JStr(T("text_span")) then TextSpan(m)
    else if kind == JStr(T("page_region")) then PageRegion(m)
    else if kind == JStr(T("table_cell")) then TableCell(m)
    else if kind == JStr(T("provider_pointer")) then ProviderPointer(m)
    else Fail("anchor_type")
  }

  // ---------------------------------------------------------------- identities

  const NATIVE_DOMAIN: Text := T("openardp:native-representation")
  const REFERENCE_DOMAIN: Text := T("openardp:evidence-reference")
  const PROJECTION_DOMAIN: Text := T("openardp:evidence-projection")

  /** The value whose canonical bytes are hashed. */
  function Envelope(domain: Text, payload: Members): Json {
    JObj(map[T("canonicalization") := JStr(T("RFC8785")),
             T("domain") := JStr(domain),
             T("identity_version") := JInt(1),
             T("payload") := JObj(payload)])
  }

  function Identity(sha: Hash, domain: Text, payload: Members): Result<Text> {
    var bytes :- CanonicalBytes(Envelope(domain, payload));
    Ok(sha(bytes))
  }

  /** The identifier is the identity of the payload in the domain. */
  predicate HasIdentity(sha: Hash, id: Json, domain: Text, payload: Members) {
    Identity(sha, domain, payload).Ok? && id == JStr(Identity(sha, domain, payload).value)
  }

  function NativePayload(m: Members): Result<Members> {
    var p :- Object(Get(m, T("provider")), "structure");
    Ok(map[T("source_version_id") := Get(m, T("source_version_id")),
           T("native_artifact_id") := Get(m, T("native_artifact_id")),
           T("native_artifact_media_type") := Get(m, T("native_artifact_media_type")),
           T("provider") := JObj(map[T("name") := Get(p, T("name")),
                                     T("version") := Get(p, T("version")),
                                     T("profile") := Get(p, T("profile")),
                                     T("profile_version") := Get(p, T("profile_version")),
                                     T("config_hash") := Get(p, T("config_hash"))])])
  }

  function NativeIdentity(sha: Hash, m: Members): Result<Text> {
    var payload :- NativePayload(m);
    Identity(sha, NATIVE_DOMAIN, payload)
  }

  function ReferencePayload(m: Members): Members {
    map[T("source_version_id") := Get(m, T("source_version_id")),
        T("native_representation_id") := Get(m, T("native_representation_id")),
        T("anchor") := Get(m, T("anchor"))]
  }

  function ProjectionPayload(m: Members): Result<Members> {
    var reference :- Object(Get(m, T("reference")), "structure");
    var retrieval :- Object(Get(m, T("retrieval")), "structure");
    var provenance :- Object(Get(m, T("provenance")), "structure");
    Ok(map[T("source_version_id") := Get(m, T("source_version_id")),
           T("native_representation_id") := Get(m, T("native_representation_id")),
           T("evidence_reference_id") := Get(reference, T("evidence_reference_id")),
           T("retrieval") := JObj(map[T("artifact_id") := Get(retrieval, T("artifact_id")),
                                      T("media_type") := Get(retrieval, T("media_type"))]),
           T("parent_projection_id") := Get(m, T("parent_projection_id")),
           T("ordinal") := Get(m, T("ordinal")),
           T("generator") := JObj(map[T("name") := Get(provenance, T("generator_name")),
                                      T("version") := Get(provenance, T("generator_version")),
                                      T("config_hash") := Get(provenance, T("generator_config_hash"))])])
  }

  function ProjectionIdentity(sha: Hash, m: Members): Result<Text> {
    var payload :- ProjectionPayload(m);
    Identity(sha, PROJECTION_DOMAIN, payload)
  }

  // ---------------------------------------------------------------- validators

  predicate EndsWithZ(v: Json) {
    v.JStr? && v.s != [] && v.s[|v.s| - 1] == 0x5A
  }

  const NATIVE_FIELDS: set<Text> :=
    {T("contract_version"), T("stability"), T("extensions"), T("native_representation_id"),
     T("source_version_id"), T("native_artifact_id"), T("native_artifact_media_type"),
     T("native_artifact_byte_length"), T("provider"), T("created_at")}

  function ValidateNative(sha: Hash, v: Json): (r: Result<Members>)
    ensures r.Ok? ==> v == JObj(r.value)
  {
    var m :- Object(v, "structure");
    var _ :- ExactFields(m, NATIVE_FIELDS, {});
    var _ :- Common(m);
    var _ :- Check(IsSha256(m[T("native_representation_id")]), "sha256");
    var _ :- Check(IsSha256(m[T("source_version_id")]), "sha256");
    var _ :- Check(IsSha256(m[T("native_artifact_id")]), "sha256");
    var _ :- Check(IsMediaType(m[T("native_artifact_media_type")]), "media_type");
    var _ :- Check(IsInteger(m[T("native_artifact_byte_length")], 0, MAX_SAFE_INTEGER), "type_or_bounds");
    var _ :- Provider(m[T("provider")]);
    var _ :- Check(EndsWithZ(m[T("created_at")]), "timestamp");
    var id :- NativeIdentity(sha, m);
    var _ :- Check(m[T("native_representation_id")] == JStr(id), "identity_mismatch");
    Ok(m)
  }

  const REFERENCE_FIELDS: set<Text> :=
    {T("contract_version"), T("stability"), T("extensions"), T("evidence_reference_id"),
     T("source_version_id"), T("native_representation_id"), T("anchor")}

  function ValidateReference(sha: Hash, v: Json): (r: Result<Members>)
    ensures r.Ok? ==> v == JObj(r.value)
    ensures r.Ok? ==> HasIdentity(sha, Get(r.value, T("evidence_reference_id")), REFERENCE_DOMAIN,
                                  ReferencePayload(r.value))
  {
    var m :- Object(v, "structure");
    var _ :- ExactFields(m, REFERENCE_FIELDS, {});
    var _ :- Common(m);
    var _ :- Check(IsSha256(m[T("evidence_reference_id")]), "sha256");
    var _ :- Check(IsSha256(m[T("source_version_id")]), "sha256");
    var _ :- Check(IsSha256(m[T("native_representation_id")]), "sha256");
    var _ :- Anchor(m[T("anchor")]);
    var id :- Identity(sha, REFERENCE_DOMAIN, ReferencePayload(m));
    var _ :- Check(m[T("evidence_reference_id")] == JStr(id), "identity_mismatch");
    Ok(m)
  }

  const TRUST_FIELDS: set<Text> :=
    {T("contract_version"), T("stability"), T("extensions"), T("origin_zone"), T("effective_zone"),
     T("role"), T("instruction_execution_allowed"), T("integrity"), T("sensitivity")}

  /** `value in {...}` over a set of strings; a list or a dict is unhashable and raises. */
  function OneOf(v: Json, names: set<Text>, category: string): Result<()> {
    if v.JArr? || v.JObj? then Fail("internal")
    else Check(v.JStr? && v.s in names, category)
  }

  /** How far a source zone may be trusted; `model_derived` is outside the order. */
  function TrustRank(zone: Text): int {
    if zone == T("external_untrusted") then 0
    else if zone == T("organization_trusted") then 1
    else 2
  }

  const ZONES: set<Text> :=
    {T("local_trusted"), T("organization_trusted"), T("external_untrusted"), T("model_derived")}

  function ValidateTrust(v: Json): Result<()> {
    var m :- Object(v, "structure");
    var _ :- ExactFields(m, TRUST_FIELDS, {});
    var _ :- Common(m);
    var origin, effective := m[T("origin_zone")], m[T("effective_zone")];
    var _ :- OneOf(origin, ZONES, "trust_zone");
    var _ :- OneOf(effective, ZONES, "trust_zone");
    var _ :- Check(m[T("role")] == JStr(T("data")), "instruction_authority");
    var _ :- Check(m[T("instruction_execution_allowed")] == JBool(false), "instruction_authority");
    var _ :- OneOf(m[T("integrity")], {T("verified_sha256"), T("unverified")}, "integrity");
    var _ :- OneOf(m[T("sensitivity")],
                   {T("public"), T("internal"), T("confidential"), T("restricted"), T("unknown")}, "sensitivity");
    var derived := T("model_derived");
    if origin.s == derived then Check(effective.s == derived, "trust_escalation")
    else Check(effective.s == derived || TrustRank(effective.s) <= TrustRank(origin.s), "trust_escalation")
  }

  const PROJECTION_FIELDS: set<Text> :=
    {T("contract_version"), T("stability"), T("extensions"), T("evidence_projection_id"),
     T("source_version_id"), T("native_representation_id"), T("reference"), T("retrieval"),
     T("parent_projection_id"), T("ordinal"), T("trust"), T("provenance")}

  function Retrieval(v: Json): Result<()> {
    var m :- Object(v, "structure");
    var _ :- ExactFields(m, {T("artifact_id"), T("media_type"), T("byte_length")}, {});
    var _ :- Check(IsSha256(m[T("artifact_id")]), "sha256");
    var _ :- Check(IsMediaType(m[T("media_type")]), "media_type");
    Check(IsInteger(m[T("byte_length")], 0, MAX_SAFE_INTEGER), "type_or_bounds")
  }

  function Provenance(v: Json): Result<()> {
    var m :- Object(v, "structure");
    var _ :- ExactFields(m, {T("generator_name"), T("generator_version"), T("generator_config_hash"),
                             T("created_at")}, {});
    var _ :- Check(IsString(m[T("generator_name")], 128), "type_or_bounds");
    var _ :- Check(IsString(m[T("generator_version")], 128), "type_or_bounds");
    var _ :- Check(IsSha256(m[T("generator_config_hash")]), "sha256");
    Check(EndsWithZ(m[T("created_at")]), "timestamp")
  }

  function ValidateProjection(sha: Hash, v: Json): (r: Result<Members>)
    ensures r.Ok? ==> v == JObj(r.value)
    ensures r.Ok? ==> ValidateReference(sha, Get(r.value, T("reference"))).Ok?
    ensures r.Ok? ==> InScope(Get(r.value, T("reference")).members, r.value)
    ensures r.Ok? ==> ProjectionPayload(r.value).Ok?
    ensures r.Ok? ==> HasIdentity(sha, Get(r.value, T("evidence_projection_id")), PROJECTION_DOMAIN,
                                  ProjectionPayload(r.value).value)
  {
    var m :- Object(v, "structure");
    var _ :- ExactFields(m, PROJECTION_FIELDS, {});
    var _ :- Common(m);
    var _ :- Check(IsSha256(m[T("evidence_projection_id")]), "sha256");
    var _ :- Check(IsSha256(m[T("source_version_id")]), "sha256");
    var _ :- Check(IsSha256(m[T("native_representation_id")]), "sha256");
    var reference :- ValidateReference(sha, m[T("reference")]);
    var _ :- Retrieval(m[T("retrieval")]);
    var _ :- Check(m[T("parent_projection_id")] == JNull || IsSha256(m[T("parent_projection_id")]), "sha256");
    var _ :- Check(IsInteger(m[T("ordinal")], 0, MAX_SAFE_INTEGER), "type_or_bounds");
    var _ :- ValidateTrust(m[T("trust")]);
    var _ :- Provenance(m[T("provenance")]);
    var _ :- Check(InScope(reference, m), "scope_mismatch");
    var id :- ProjectionIdentity(sha, m);
    var _ :- Check(m[T("evidence_projection_id")] == JStr(id), "identity_mismatch");
    Ok(m)
  }

  /** Both records name the same source version and native representation. */
  predicate InScope(a: Members, b: Members) {
    && Get(a, T("source_version_id")) == Get(b, T("source_version_id"))
    && Get(a, T("native_representation_id")) == Get(b, T("native_representation_id"))
  }
}
