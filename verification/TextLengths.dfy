/** How long the artifacts of a text source are, in terms of the source alone. */
module TextLengths {
  import opened Wrappers
  import opened Unicode
  import opened CanonicalJson
  import opened Evidence
  import opened EvidenceProducer
  import opened EvidenceCoherence
  import opened TextSources

  // ---------------------------------------------------------------- printed lengths

  lemma {:induction false} EncodedLength(t: Text)
    requires NoSurrogates(t)
    ensures |Encode(t)| <= 4 * |t|
  {
    if t != [] { EncodedLength(t[1..]); }
  }

  lemma {:induction false} EscapedLength(t: Text)
    ensures |Escape(t)| <= 6 * |t|
  {
    if t != [] {
      assert |EscapeChar(t[0])| <= 6;
      EscapedLength(t[1..]);
    }
  }

  lemma {:induction false} DigitsLength(n: nat)
    ensures |Digits(n)| <= n + 1
  {
    if n >= 10 { DigitsLength(n / 10); }
  }

  function MemberLength(key: Text, v: Json): nat
    requires Safe(v)
  {
    |RenderString(key)| + 1 + |Render(v)|
  }

  lemma MembersStep(whole: Json, keys: seq<Text>)
    requires whole.JObj? && Safe(whole) && keys != [] && forall k :: k in keys ==> k in whole.members
    ensures |RenderMembers(whole, keys)|
      <= MemberLength(keys[0], whole.members[keys[0]]) + 1 + |RenderMembers(whole, keys[1..])|
  {
    var first := RenderString(keys[0]) + [COLON] + Render(whole.members[keys[0]]);
    assert |first| == MemberLength(keys[0], whole.members[keys[0]]);
  }

  lemma {:induction false} MembersLength(whole: Json, keys: seq<Text>, most: nat)
    requires whole.JObj? && Safe(whole) && forall k :: k in keys ==> k in whole.members
    requires forall k :: k in keys ==> MemberLength(k, whole.members[k]) <= most
    ensures |RenderMembers(whole, keys)| <= |keys| * (most + 1)
  {
    if keys != [] {
      MembersLength(whole, keys[1..], most);
      MembersStep(whole, keys);
      OneMore(|keys| - 1, most + 1);
    }
  }

  lemma OneMore(n: nat, k: nat)
    ensures (n + 1) * k == n * k + k
  {
  }

  lemma ObjectLength(v: Json, most: nat)
    requires v.JObj? && Safe(v) && |v.members| <= 4
    requires forall k :: k in v.members ==> MemberLength(k, v.members[k]) <= most
    ensures |Render(v)| <= 4 * most + 6
  {
    var keys := SortedKeys(v.members.Keys);
    MembersLength(v, keys, most);
    AtMostFour(|keys|, most + 1);
  }

  lemma AtMostFour(n: nat, k: nat)
    requires n <= 4
    ensures n * k <= 4 * k
  {
  }

  lemma StringLength(s: Text)
    ensures |RenderString(s)| <= 6 * |s| + 2
  {
    EscapedLength(s);
  }

  // ---------------------------------------------------------------- the artifacts of a text source

  /** The value that `_plain_text` describes, from its parts. */
  function TextNative(text: Text, length: nat): Json {
    JObj(map[T("format") := JStr(T("plain-text")), T("newline") := JStr(T("lf")),
             T("source_byte_length") := JInt(length), T("text") := JStr(text)])
  }

  lemma ShortMember(key: Text, v: Json, length: nat)
    requires |key| <= 18 && Safe(v)
    requires (v.JStr? && |v.s| <= length) || v == JInt(length)
    ensures MemberLength(key, v) <= 6 * length + 113
  {
    StringLength(key);
    if v.JStr? { StringLength(v.s); } else { DigitsLength(length); }
  }

  lemma SmallMember(key: Text, v: Json, length: nat)
    requires |key| <= 18 && v.JStr? && |v.s| <= 10 && Safe(v)
    ensures MemberLength(key, v) <= 6 * length + 173
  {
    StringLength(key);
    StringLength(v.s);
  }

  lemma NativeMembers(text: Text, length: nat, m: map<Text, Json>, k: Text)
    requires |text| <= length && JObj(m) == TextNative(text, length) && Safe(JObj(m)) && k in m
    ensures MemberLength(k, m[k]) <= 6 * length + 173
  {
    if m[k] == JStr(text) || m[k] == JInt(length) {
      ShortMember(k, m[k], length);
    } else {
      SmallMember(k, m[k], length);
    }
  }

  lemma NativeLength(text: Text, length: nat, v: Json)
    requires |text| <= length && v == TextNative(text, length) && Safe(v)
    ensures |Render(v)| <= 24 * length + 698
  {
    forall k | k in v.members ensures MemberLength(k, v.members[k]) <= 6 * length + 173 {
      NativeMembers(text, length, v.members, k);
    }
    FourMembers(text, length, v.members);
    ObjectLength(v, 6 * length + 173);
  }

  lemma FourMembers(text: Text, length: nat, m: map<Text, Json>)
    requires JObj(m) == TextNative(text, length)
    ensures |m| <= 4
  {
    var four := [T("format"), T("newline"), T("source_byte_length"), T("text")];
    assert m.Keys == {four[0], four[1], four[2], four[3]};
    assert |m.Keys| == |m|;
  }

  /** A bound on a text source from which all its artifacts have safe lengths: some ninety terabytes. */
  predicate Moderate(payload: Bytes) {
    96 * |payload| + 2792 <= MAX_SAFE_INTEGER
  }

  lemma CanonicalLength(v: Json)
    requires CanonicalBytes(v).Ok?
    ensures Safe(v) && |CanonicalBytes(v).value| <= 4 * |Render(v)|
  {
    CanonicalBytesTotal(v);
    EncodedLength(Render(v));
  }

  lemma LineLength(text: Text)
    requires NoSurrogates(text)
    ensures NoSurrogates(FirstLine(text)) && |Encode(FirstLine(text))| <= 4 * |text|
  {
    assert FirstLine(text) == text[..|FirstLine(text)|];
    EncodedLength(FirstLine(text));
  }

  lemma TextIsEncodable(payload: Bytes, text: Text)
    requires Decode(payload) == Some(text)
    ensures NoSurrogates(text) && |text| <= |payload| && NoSurrogates(FirstLine(text))
  {
    EncodeOfDecode(payload);
    LineLength(text);
  }

  lemma ReadAsText(csv: CsvReader, payload: Bytes, text: Text)
    requires Decode(payload) == Some(text) && Read(csv, PlainText, payload).Ok?
    ensures ReadText(text, payload) == Read(csv, PlainText, payload)
  {
  }

  lemma PartsOfReading(text: Text, payload: Bytes, reading: Reading)
    requires ReadText(text, payload) == Ok(reading) && NoSurrogates(FirstLine(text))
    ensures reading.native == TextNative(text, |payload|)
    ensures reading.payloads == [Encode(FirstLine(text)), payload]
  {
  }

  lemma NativeFits(text: Text, length: nat, v: Json)
    requires |text| <= length && v == TextNative(text, length) && 96 * length + 2792 <= MAX_SAFE_INTEGER
    ensures CanonicalBytes(v).Ok? ==> |CanonicalBytes(v).value| <= MAX_SAFE_INTEGER
  {
    if CanonicalBytes(v).Ok? {
      CanonicalLength(v);
      NativeLength(text, length, v);
    }
  }

  lemma TextReadingFits(csv: CsvReader, payload: Bytes, reading: Reading)
    requires Read(csv, PlainText, payload) == Ok(reading) && Moderate(payload)
    ensures CanonicalBytes(reading.native).Ok? ==> |CanonicalBytes(reading.native).value| <= MAX_SAFE_INTEGER
    ensures forall i :: 0 <= i < |reading.payloads| ==> |reading.payloads[i]| <= MAX_SAFE_INTEGER
  {
    var text := Decode(payload).value;
    TextIsEncodable(payload, text);
    ReadAsText(csv, payload, text);
    PartsOfReading(text, payload, reading);
    LineLength(text);
    NativeFits(text, |payload|, reading.native);
  }

  /** The artifacts of a text source of moderate length fit. */
  lemma TextArtifactsFit(sha: Hash, csv: CsvReader, mediaType: Text, payload: Bytes, out: Output)
    requires ProduceOne(sha, csv, PlainText, mediaType, payload) == Ok(out) && Moderate(payload)
    ensures ArtifactsFit(out)
  {
    var reading := Read(csv, PlainText, payload).value;
    TextReadingFits(csv, payload, reading);
    NativeArtifactIsCanonical(sha, csv, mediaType, payload, reading, out);
  }

  lemma NativeArtifactIsCanonical(sha: Hash, csv: CsvReader, mediaType: Text, payload: Bytes, reading: Reading,
                                  out: Output)
    requires ProduceOne(sha, csv, PlainText, mediaType, payload) == Ok(out)
    requires Read(csv, PlainText, payload) == Ok(reading)
    ensures CanonicalBytes(reading.native) == Ok(out.nativeArtifact.payload)
    ensures |out.artifacts| == |reading.payloads|
    ensures forall i :: 0 <= i < |out.artifacts| ==> out.artifacts[i].payload == reading.payloads[i]
  {
    FromReading(sha, sha(payload), reading, ConfigHash(sha, PlainText, mediaType).value, out);
  }

  lemma FromReading(sha: Hash, sourceId: Text, reading: Reading, configHash: Text, out: Output)
    requires |reading.payloads| == |reading.anchors|
    requires ProduceFrom(sha, sourceId, reading, configHash) == Ok(out)
    ensures CanonicalBytes(reading.native) == Ok(out.nativeArtifact.payload)
    ensures |out.artifacts| == |reading.payloads|
    ensures forall i :: 0 <= i < |out.artifacts| ==> out.artifacts[i].payload == reading.payloads[i]
  {
    assert out.artifacts == MakeArtifacts(sha, reading.payloads);
  }

  /**
    For text sources of moderate length the condition speaks of the source alone: what is produced passes
    every validator exactly when the text does not start with a line break.
   */
  lemma TextConforms(sha: Hash, csv: CsvReader, mediaType: Text, payload: Bytes, out: Output)
    requires DigestShaped(sha) && Moderate(payload)
    requires ProduceOne(sha, csv, PlainText, mediaType, payload) == Ok(out)
    ensures Validated(sha, out.records) <==> FirstLine(Decode(payload).value) != []
  {
    TextArtifactsFit(sha, csv, mediaType, payload, out);
    ProducedRecordsConform(sha, csv, PlainText, mediaType, payload, out);
  }
}
