/** BagIt manifests and tag files as the independent package validator reads them. */
module Manifests {
  import opened Wrappers
  import opened Unicode
  import opened CanonicalJson
  import opened Evidence

  const LF: Byte := 0x0A
  const CR: Byte := 0x0D

  /** Checksum text and member path of one manifest line. */
  type Manifest = map<Text, Text>

  /** ASCII text as bytes. */
  predicate IsAscii(t: Text) {
    forall i :: 0 <= i < |t| ==> t[i] < 0x80
  }

  function Ascii(t: Text): (b: Bytes)
    requires IsAscii(t)
    ensures |b| == |t|
  {
    seq(|t|, i requires 0 <= i < |t| => t[i])
  }

  /** The first line of `data.splitlines()`, and what follows its terminator (LF, CR or CRLF). */
  function SplitLine(data: Bytes): (r: (Bytes, Bytes))
    requires data != []
    ensures |r.1| < |data|
    ensures CR !in r.0 && LF !in r.0
  {
    if data[0] == LF then ([], data[1..])
    else if data[0] == CR then ([], if |data| > 1 && data[1] == LF then data[2..] else data[1..])
    else if |data| == 1 then (data, [])
    else
      var (line, rest) := SplitLine(data[1..]);
      ([data[0]] + line, rest)
  }

  /** `[0-9a-f]{64}`, two spaces, and a path that is not empty. */
  predicate IsManifestLine(line: Bytes) {
    && |line| >= 67 && line[64] == 0x20 && line[65] == 0x20
    && forall i :: 0 <= i < 64 ==> IsLowerHex(line[i])
  }

  function LineDigest(line: Bytes): Text
    requires |line| >= 64
  {
    seq(64, i requires 0 <= i < 64 => line[i])
  }

  /** The path of a manifest line; None when it is not UTF-8 or not portable. */
  function LinePath(line: Bytes, portable: Text -> bool): Option<Text>
    requires |line| >= 66
  {
    match Decode(line[66..])
    case None => None
    case Some(path) => if portable(path) then Some(path) else None
  }

  /** The entries of a manifest in file order, or the failure of its first bad line. */
  function Lines(data: Bytes, portable: Text -> bool): Result<seq<(Text, Text)>>
    decreases |data|
  {
    if data == [] then Ok([])
    else
      var (line, rest) := SplitLine(data);
      if !IsManifestLine(line) then Fail("malformed_package")
      else
        match LinePath(line, portable)
        case None => Fail("malformed_package")
        case Some(path) =>
          var more :- Lines(rest, portable);
          Ok([(path, LineDigest(line))] + more)
  }

  ghost predicate Increasing(entries: seq<(Text, Text)>) {
    forall i, j :: 0 <= i < j < |entries| ==> Less(entries[i].0, entries[j].0)
  }

  function ToMap(entries: seq<(Text, Text)>): (m: Manifest)
    ensures forall k :: k in m ==> exists i :: 0 <= i < |entries| && entries[i].0 == k
  {
    if entries == [] then map[]
    else
      var n := |entries| - 1;
      ToMap(entries[..n])[entries[n].0 := entries[n].1]
  }

  /** What a manifest file must be for `_manifest` to accept it. */
  ghost predicate Acceptable(data: Bytes, portable: Text -> bool) {
    && (data != [] ==> data[|data| - 1] == LF)
    && Lines(data, portable).Ok? && Increasing(Lines(data, portable).value)
  }

  lemma {:induction false} ToMapOfIncreasing(entries: seq<(Text, Text)>)
    requires Increasing(entries)
    ensures forall i :: 0 <= i < |entries| ==>
      entries[i].0 in ToMap(entries) && ToMap(entries)[entries[i].0] == entries[i].1
  {
    if entries != [] {
      var n := |entries| - 1;
      ToMapOfIncreasing(entries[..n]);
      forall i | 0 <= i < n ensures entries[i].0 != entries[n].0 { LessTotal(entries[i].0, entries[n].0); }
    }
  }

  /** The lines read so far together with the lines of what is left are the lines of the file. */
  ghost predicate Reading(data: Bytes, read: seq<(Text, Text)>, rest: Bytes, portable: Text -> bool) {
    var whole, left := Lines(data, portable), Lines(rest, portable);
    if left.Ok? then whole == Ok(read + left.value) else whole.Fail?
  }

  lemma ReadOneLine(data: Bytes, read: seq<(Text, Text)>, rest: Bytes, portable: Text -> bool)
    requires Reading(data, read, rest, portable) && rest != []
    ensures var (line, after) := SplitLine(rest);
            if IsManifestLine(line) && LinePath(line, portable).Some? then
              Reading(data, read + [(LinePath(line, portable).value, LineDigest(line))], after, portable)
            else Lines(data, portable).Fail?
  {
    var (line, after) := SplitLine(rest);
    if IsManifestLine(line) && LinePath(line, portable).Some? && Lines(after, portable).Ok? {
      var entry := (LinePath(line, portable).value, LineDigest(line));
      assert read + ([entry] + Lines(after, portable).value) == read + [entry] + Lines(after, portable).value;
    }
  }

  /** Reading on keeps what was read as a prefix, so a disorder found early is final. */
  lemma ReadIsPrefix(data: Bytes, read: seq<(Text, Text)>, rest: Bytes, portable: Text -> bool)
    requires Reading(data, read, rest, portable) && Lines(data, portable).Ok?
    ensures read <= Lines(data, portable).value
  {
  }

  lemma {:induction false} AdjacentIncreasing(entries: seq<(Text, Text)>)
    requires forall i :: 0 <= i < |entries| - 1 ==> Less(entries[i].0, entries[i + 1].0)
    ensures Increasing(entries)
  {
    if |entries| > 1 {
      var n := |entries| - 1;
      AdjacentIncreasing(entries[..n]);
      forall i | 0 <= i < n ensures Less(entries[i].0, entries[n].0) {
        if i < n - 1 {
          assert Less(entries[..n][i].0, entries[..n][n - 1].0);
          LessTransitive(entries[i].0, entries[n - 1].0, entries[n].0);
        }
      }
    }
  }

  /** `_manifest`: the paths of an ordered manifest without duplicates, with their digests. */
  method ReadManifest(data: Bytes, portable: Text -> bool) returns (r: Result<Manifest>)
    ensures r.Ok? <==> Acceptable(data, portable)
    ensures r.Ok? ==> r.value == ToMap(Lines(data, portable).value)
  {
    if data != [] && data[|data| - 1] != LF {
      return Fail("malformed_package");
    }
    var rest := data;
    var entries: seq<(Text, Text)> := [];
    var result: Manifest := map[];
    assert Lines(data, portable).Ok? ==> [] + Lines(data, portable).value == Lines(data, portable).value;
    while rest != []
      invariant Reading(data, entries, rest, portable)
      invariant result == ToMap(entries)
      invariant forall i, j :: 0 <= i < j < |entries| ==> entries[i].0 != entries[j].0
      invariant forall i :: 0 <= i < |entries| ==> entries[i].0 in result
      decreases |rest|
    {
      ReadOneLine(data, entries, rest, portable);
      var (line, after) := SplitLine(rest);
      if !IsManifestLine(line) || LinePath(line, portable).None? {
        return Fail("malformed_package");
      }
      var path := LinePath(line, portable).value;
      ghost var before := entries;
      entries := entries + [(path, LineDigest(line))];
      assert entries[..|entries| - 1] == before;
      if path in result {
        DuplicateNotIncreasing(data, before, entries, after, portable);
        return Fail("malformed_package");
      }
      result := result[path := LineDigest(line)];
      rest := after;
    }
    assert Lines(data, portable) == Ok(entries + []);
    assert entries + [] == entries;
    if exists i :: 0 <= i < |entries| - 1 && !Less(entries[i].0, entries[i + 1].0) {
      return Fail("malformed_package");
    }
    AdjacentIncreasing(entries);
    return Ok(result);
  }

  lemma DuplicateNotIncreasing(data: Bytes, before: seq<(Text, Text)>, entries: seq<(Text, Text)>, after: Bytes,
                               portable: Text -> bool)
    requires Reading(data, entries, after, portable)
    requires |entries| == |before| + 1 && entries[..|before|] == before
    requires entries[|before|].0 in ToMap(before)
    ensures !Acceptable(data, portable)
  {
    if Lines(data, portable).Ok? {
      ReadIsPrefix(data, entries, after, portable);
      var all := Lines(data, portable).value;
      var i :| 0 <= i < |before| && before[i].0 == entries[|before|].0;
      assert all[i] == entries[i] && all[|before|] == entries[|before|];
      LessTotal(all[i].0, all[|before|].0);
    }
  }

  // ---------------------------------------------------------------- canonical form

  function RenderLine(path: Text, digest: Text): Bytes
    requires NoSurrogates(path) && IsAscii(digest)
  {
    Ascii(digest) + [0x20, 0x20] + Encode(path) + [LF]
  }

  predicate Printable(entries: seq<(Text, Text)>) {
    forall i :: 0 <= i < |entries| ==> NoSurrogates(entries[i].0) && IsAscii(entries[i].1)
  }

  function RenderManifest(entries: seq<(Text, Text)>): Bytes
    requires Printable(entries)
  {
    if entries == [] then [] else RenderLine(entries[0].0, entries[0].1) + RenderManifest(entries[1..])
  }

  lemma {:induction false} SplitLineWithoutCr(data: Bytes)
    requires data != [] && CR !in data && data[|data| - 1] == LF
    ensures data == SplitLine(data).0 + [LF] + SplitLine(data).1
    ensures SplitLine(data).1 != [] ==> SplitLine(data).1[|SplitLine(data).1| - 1] == LF
    ensures CR !in SplitLine(data).1
  {
    if data[0] != LF {
      SplitLineWithoutCr(data[1..]);
      assert data == [data[0]] + data[1..];
    }
  }

  lemma LineIsRendered(line: Bytes, portable: Text -> bool)
    requires IsManifestLine(line) && LinePath(line, portable).Some?
    ensures NoSurrogates(LinePath(line, portable).value) && IsAscii(LineDigest(line))
    ensures RenderLine(LinePath(line, portable).value, LineDigest(line)) == line + [LF]
  {
    EncodeOfDecode(line[66..]);
    assert Ascii(LineDigest(line)) == line[..64];
    assert line == line[..64] + [0x20, 0x20] + line[66..];
  }

  lemma {:induction false} LinesRenderWithoutCr(data: Bytes, portable: Text -> bool)
    requires Lines(data, portable).Ok?
    ensures Printable(Lines(data, portable).value)
    ensures CR !in RenderManifest(Lines(data, portable).value)
    decreases |data|
  {
    if data != [] {
      var (line, rest) := SplitLine(data);
      LineIsRendered(line, portable);
      LinesRenderWithoutCr(rest, portable);
      var entries := Lines(data, portable).value;
      assert entries[1..] == Lines(rest, portable).value;
      assert entries[0] == (LinePath(line, portable).value, LineDigest(line));
    }
  }

  lemma {:induction false} LinesRenderBack(data: Bytes, portable: Text -> bool)
    requires data != [] ==> data[|data| - 1] == LF
    requires Lines(data, portable).Ok? && CR !in data && Printable(Lines(data, portable).value)
    ensures RenderManifest(Lines(data, portable).value) == data
    decreases |data|
  {
    if data != [] {
      var (line, rest) := SplitLine(data);
      SplitLineWithoutCr(data);
      LineIsRendered(line, portable);
      LinesRenderWithoutCr(rest, portable);
      LinesRenderBack(rest, portable);
      var entries := Lines(data, portable).value;
      assert entries[1..] == Lines(rest, portable).value;
      assert line + [LF] + rest == data;
    }
  }

  /**
    An accepted manifest is byte for byte the rendering of its entries exactly when it holds no
    carriage return; with one, the same entries are accepted in a different spelling.
   */
  lemma ManifestIsCanonicalIffNoCr(data: Bytes, portable: Text -> bool)
    requires Acceptable(data, portable)
    ensures Printable(Lines(data, portable).value)
    ensures RenderManifest(Lines(data, portable).value) == data <==> CR !in data
  {
    LinesRenderWithoutCr(data, portable);
    if CR !in data { LinesRenderBack(data, portable); }
  }
}
