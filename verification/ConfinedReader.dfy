/**
  The budgeted reader of the alternate evidence process, and the producer loop over it.

  What the file system answers to one request is an input: the path is rejected, or a regular
  file was found with its size beforehand, the bytes read, and whether the second `stat` agreed
  with the first.
 */
module ConfinedReader {
  import opened Wrappers
  import opened Unicode
  import opened CanonicalJson
  import opened Evidence
  import opened EvidenceCoherence
  import opened EvidenceProducer
  import opened TextSources

  datatype Answer = BadPath | Found(size: nat, payload: Bytes, stable: bool)

  datatype Request = Request(answer: Answer, expected: Option<Json>)

  datatype Limits = Limits(maxFiles: int, maxTotal: int, maxFile: int)

  /** Counters of a reader, with the payloads that were counted. */
  datatype State = State(files: int, total: int, counted: seq<Bytes>)

  const START: State := State(0, 0, [])

  function TotalLength(payloads: seq<Bytes>): nat {
    if payloads == [] then 0 else TotalLength(payloads[..|payloads| - 1]) + |payloads[|payloads| - 1]|
  }

  /** The payload passed the stat and race checks while the budget still allowed it. */
  predicate Counted(limits: Limits, st: State, answer: Answer) {
    && answer.Found?
    && answer.size <= limits.maxFile
    && st.files + 1 <= limits.maxFiles
    && st.total + answer.size <= limits.maxTotal
    && |answer.payload| == answer.size
    && answer.stable
  }

  function Next(limits: Limits, st: State, request: Request): State {
    if Counted(limits, st, request.answer) then
      State(st.files + 1, st.total + |request.answer.payload|, st.counted + [request.answer.payload])
    else st
  }

  function Outcome(sha: Hash, limits: Limits, st: State, request: Request): Result<Bytes> {
    var answer := request.answer;
    if answer.BadPath? then Fail("path")
    else if answer.size > limits.maxFile || st.files + 1 > limits.maxFiles || st.total + answer.size > limits.maxTotal
    then Fail("resource_limit")
    else if |answer.payload| != answer.size || !answer.stable then Fail("read_race")
    else
      match request.expected
      case None => Ok(answer.payload)
      case Some(v) =>
        if !IsSha256(v) then Fail("sha256")
        else if sha(answer.payload) != v.s then Fail("digest_mismatch")
        else Ok(answer.payload)
  }

  /** The state after a sequence of requests, whatever became of each of them. */
  function Run(limits: Limits, requests: seq<Request>): State {
    if requests == [] then START
    else Next(limits, Run(limits, requests[..|requests| - 1]), requests[|requests| - 1])
  }

  ghost predicate WithinBudget(limits: Limits, st: State) {
    && st.files == |st.counted| && st.files <= limits.maxFiles
    && st.total == TotalLength(st.counted) && st.total <= limits.maxTotal
    && forall i :: 0 <= i < |st.counted| ==> |st.counted[i]| <= limits.maxFile
  }

  lemma NextKeepsBudget(limits: Limits, st: State, request: Request)
    requires WithinBudget(limits, st)
    ensures WithinBudget(limits, Next(limits, st, request))
  {
    if Counted(limits, st, request.answer) {
      var counted := st.counted + [request.answer.payload];
      assert counted[..|counted| - 1] == st.counted;
    }
  }

  /** Over every sequence of reads the counters stay within the limits and count what was read. */
  lemma {:induction false} EveryRunKeepsBudget(limits: Limits, requests: seq<Request>)
    requires 1 <= limits.maxFiles && 1 <= limits.maxTotal && 1 <= limits.maxFile
    ensures WithinBudget(limits, Run(limits, requests))
  {
    if requests != [] {
      EveryRunKeepsBudget(limits, requests[..|requests| - 1]);
      NextKeepsBudget(limits, Run(limits, requests[..|requests| - 1]), requests[|requests| - 1]);
    }
  }

  /**
    A payload that a read returned was counted and has the expected digest; one that was counted
    but not returned failed only its digest.
   */
  lemma ReturnedMeansCounted(sha: Hash, limits: Limits, st: State, request: Request)
    ensures Outcome(sha, limits, st, request).Ok? ==>
      && Next(limits, st, request).counted == st.counted + [Outcome(sha, limits, st, request).value]
      && (request.expected.Some? ==>
            request.expected.value == JStr(sha(Outcome(sha, limits, st, request).value)))
    ensures Outcome(sha, limits, st, request).Fail? && Next(limits, st, request) != st ==>
      Outcome(sha, limits, st, request).category in {"sha256", "digest_mismatch"}
  {
  }

  /** No request, accepted or rejected, gives budget back. */
  lemma {:induction false} BudgetOnlyShrinks(limits: Limits, requests: seq<Request>, n: nat)
    requires n <= |requests|
    ensures Run(limits, requests[..n]).files <= Run(limits, requests).files
    ensures Run(limits, requests[..n]).total <= Run(limits, requests).total
    ensures Run(limits, requests[..n]).counted <= Run(limits, requests).counted
  {
    if n < |requests| {
      var shorter := requests[..|requests| - 1];
      BudgetOnlyShrinks(limits, shorter, n);
      assert shorter[..n] == requests[..n];
    } else {
      assert requests[..n] == requests;
    }
  }

  lemma RunGrows(limits: Limits, requests: seq<Request>, request: Request)
    ensures Run(limits, requests + [request]) == Next(limits, Run(limits, requests), request)
  {
    assert (requests + [request])[..|requests|] == requests;
  }

  class Reader {
    const limits: Limits
    var files: int
    var total: int
    ghost var requests: seq<Request>

    ghost function Current(): State
      reads this
    {
      Run(limits, requests)
    }

    ghost predicate Valid()
      reads this
    {
      && 1 <= limits.maxFiles && 1 <= limits.maxTotal && 1 <= limits.maxFile
      && files == Current().files && total == Current().total
      && WithinBudget(limits, Current())
    }

    constructor (limits: Limits)
      requires 1 <= limits.maxFiles && 1 <= limits.maxTotal && 1 <= limits.maxFile
      ensures Valid() && requests == [] && this.limits == limits
      ensures files == 0 && total == 0
    {
      this.limits := limits;
      files, total := 0, 0;
      requests := [];
    }

    /** `ConfinedReader.read`. */
    method Read(sha: Hash, request: Request) returns (r: Result<Bytes>)
      requires Valid()
      modifies this
      ensures Valid()
      ensures requests == old(requests) + [request]
      ensures Current() == Next(limits, old(Current()), request)
      ensures r == Outcome(sha, limits, old(Current()), request)
    {
      NextKeepsBudget(limits, Current(), request);
      RunGrows(limits, requests, request);
      requests := requests + [request];
      var answer := request.answer;
      if answer.BadPath? {
        return Fail("path");
      }
      if answer.size > limits.maxFile || files + 1 > limits.maxFiles || total + answer.size > limits.maxTotal {
        return Fail("resource_limit");
      }
      if |answer.payload| != answer.size || !answer.stable {
        return Fail("read_race");
      }
      files := files + 1;
      total := total + answer.size;
      if request.expected.Some? {
        if !IsSha256(request.expected.value) {
          return Fail("sha256");
        }
        if sha(answer.payload) != request.expected.value.s {
          return Fail("digest_mismatch");
        }
      }
      return Ok(answer.payload);
    }
  }

  // ---------------------------------------------------------------- the producer loop

  /** One source of a request; `expected` is its `sha256`, a key that must be present but may be null. */
  datatype Source = Source(key: Json, kind: Json, mediaType: Json, expected: Json, answer: Answer)

  /** What `read` is asked to compare with: nothing when the declared digest is null. */
  function Declared(source: Source): Option<Json> {
    if source.expected.JNull? then None else Some(source.expected)
  }

  /** The bytes that were read have the digest that the source declares. */
  predicate HasDeclaredDigest(sha: Hash, source: Source) {
    source.answer.Found? && source.expected == JStr(sha(source.answer.payload))
  }

  function KindOf(name: Text): Kind {
    if name == T("text") then PlainText else if name == T("csv") then Csv else OtherKind(name)
  }

  ghost predicate Makes(sha: Hash, csv: CsvReader, source: Source, out: Output) {
    && source.kind.JStr? && source.mediaType.JStr? && source.answer.Found?
    && (source.expected.JNull? || HasDeclaredDigest(sha, source))
    && ProduceOne(sha, csv, KindOf(source.kind.s), source.mediaType.s, source.answer.payload) == Ok(out)
  }

  /** The outputs are those of the first n sources, one each, under distinct keys. */
  ghost predicate Produced(makes: (Source, Output) -> bool, sources: seq<Source>, n: nat, outputs: map<Text, Output>)
    requires n <= |sources|
  {
    && (forall i :: 0 <= i < n ==> HasOutput(makes, sources[i], outputs))
    && (forall i, j :: 0 <= i < j < n ==> sources[i].key != sources[j].key)
    && (forall k :: k in outputs ==> exists i :: 0 <= i < n && sources[i].key == JStr(k))
  }

  ghost predicate HasOutput(makes: (Source, Output) -> bool, source: Source, outputs: map<Text, Output>) {
    source.key.JStr? && source.key.s in outputs && makes(source, outputs[source.key.s])
  }

  lemma ProducedMore(makes: (Source, Output) -> bool, sources: seq<Source>, n: nat, outputs: map<Text, Output>,
                     key: Text, out: Output)
    requires n < |sources| && Produced(makes, sources, n, outputs)
    requires sources[n].key == JStr(key) && key !in outputs
    requires makes(sources[n], out)
    ensures Produced(makes, sources, n + 1, outputs[key := out])
  {
    var more := outputs[key := out];
    forall i | 0 <= i < n ensures HasOutput(makes, sources[i], more) && sources[i].key != sources[n].key {
      assert HasOutput(makes, sources[i], outputs);
    }
    forall k | k in more ensures exists i :: 0 <= i < n + 1 && sources[i].key == JStr(k) {
      if k in outputs {
        var i :| 0 <= i < n && sources[i].key == JStr(k);
      } else {
        assert sources[n].key == JStr(k);
      }
    }
  }

  /** What was read can be produced. */
  predicate Convertible(sha: Hash, csv: CsvReader, source: Source) {
    && IsString(source.kind, 128) && IsMediaType(source.mediaType)
    && source.answer.Found?
    && ProduceOne(sha, csv, KindOf(source.kind.s), source.mediaType.s, source.answer.payload).Ok?
  }

  /** When one source is produced. */
  predicate Yields(sha: Hash, csv: CsvReader, limits: Limits, st: State, source: Source) {
    && Outcome(sha, limits, st, Request(source.answer, Declared(source))).Ok?
    && Convertible(sha, csv, source)
  }

  /** What follows the read: the kind, the media type and the production itself. */
  method Convert(sha: Hash, csv: CsvReader, source: Source, payload: Bytes) returns (r: Result<Output>)
    requires source.answer.Found? && payload == source.answer.payload
    requires source.expected.JNull? || HasDeclaredDigest(sha, source)
    ensures r.Ok? <==> Convertible(sha, csv, source)
    ensures r.Ok? ==> Makes(sha, csv, source, r.value)
  {
    var _ :- Check(IsString(source.kind, 128), "type_or_bounds");
    var _ :- Check(IsMediaType(source.mediaType), "media_type");
    r := ProduceOne(sha, csv, KindOf(source.kind.s), source.mediaType.s, payload);
  }

  /** One source of `_produce` after the duplicate check: read, then produce. */
  method ProduceSource(sha: Hash, csv: CsvReader, reader: Reader, source: Source) returns (r: Result<Output>)
    requires reader.Valid()
    modifies reader
    ensures reader.Valid()
    ensures reader.requests == old(reader.requests) + [Request(source.answer, Declared(source))]
    ensures r.Ok? ==> Makes(sha, csv, source, r.value)
    ensures r.Ok? <==> Yields(sha, csv, reader.limits, old(reader.Current()), source)
    ensures r.Ok? ==> reader.files == old(reader.files) + 1
    ensures r.Ok? ==> source.answer.Found? && reader.total == old(reader.total) + |source.answer.payload|
  {
    var request := Request(source.answer, Declared(source));
    ReturnedMeansCounted(sha, reader.limits, reader.Current(), request);
    var payload :- reader.Read(sha, request);
    r := Convert(sha, csv, source, payload);
  }

  /** The source's file is readable under the file limit and has its declared digest, if any. */
  predicate Sound(sha: Hash, limits: Limits, source: Source) {
    && source.answer.Found? && source.answer.size <= limits.maxFile
    && |source.answer.payload| == source.answer.size && source.answer.stable
    && (source.expected.JNull? || (IsSha256(source.expected) && HasDeclaredDigest(sha, source)))
  }

  predicate Fits(limits: Limits, files: int, total: int, source: Source) {
    files + 1 <= limits.maxFiles && total + SizeOf(source) <= limits.maxTotal
  }

  /** A read returns exactly when the file is sound and the budget that is left has room for it. */
  lemma ReadsWithinBudget(sha: Hash, limits: Limits, st: State, source: Source)
    ensures Outcome(sha, limits, st, Request(source.answer, Declared(source))).Ok? <==>
      Sound(sha, limits, source) && Fits(limits, st.files, st.total, source)
  {
  }

  function SizeOf(source: Source): nat {
    if source.answer.Found? then source.answer.size else 0
  }

  function TotalSize(sources: seq<Source>): nat {
    if sources == [] then 0 else TotalSize(sources[..|sources| - 1]) + SizeOf(sources[|sources| - 1])
  }

  lemma {:induction false} TotalSizeOfPrefix(sources: seq<Source>, i: nat)
    requires i < |sources|
    ensures TotalSize(sources[..i + 1]) == TotalSize(sources[..i]) + SizeOf(sources[i])
    ensures TotalSize(sources[..i + 1]) <= TotalSize(sources)
  {
    assert sources[..i + 1][..i] == sources[..i];
    if i + 1 < |sources| {
      var shorter := sources[..|sources| - 1];
      TotalSizeOfPrefix(shorter, i);
      assert shorter[..i + 1] == sources[..i + 1];
    } else {
      assert sources[..i + 1] == sources;
    }
  }

  ghost predicate KeysFit(sources: seq<Source>) {
    && (forall i :: 0 <= i < |sources| ==> IsString(sources[i].key, 128))
    && forall i, j :: 0 <= i < j < |sources| ==> sources[i].key != sources[j].key
  }

  /** All sources can be produced under distinct keys, and together they fit the budget that is left. */
  ghost predicate AllProducible(can: Source -> bool, sha: Hash, limits: Limits, files: int, total: int,
                                sources: seq<Source>) {
    && KeysFit(sources) && (forall i :: 0 <= i < |sources| ==> Sound(sha, limits, sources[i]) && can(sources[i]))
    && files + |sources| <= limits.maxFiles && total + TotalSize(sources) <= limits.maxTotal
  }

  /** The next source has a key of its own, and is produced with the budget that is left. */
  ghost predicate Ready(can: Source -> bool, sha: Hash, limits: Limits, files: int, total: int, source: Source,
                        outputs: map<Text, Output>) {
    && IsString(source.key, 128) && source.key.s !in outputs && can(source) && Sound(sha, limits, source)
    && Fits(limits, files, total, source)
  }

  lemma NextIsReady(can: Source -> bool, makes: (Source, Output) -> bool, sha: Hash, limits: Limits, files: int,
                    total: int, sources: seq<Source>, i: nat, outputs: map<Text, Output>)
    requires i < |sources| && AllProducible(can, sha, limits, files, total, sources)
    requires Produced(makes, sources, i, outputs)
    ensures Ready(can, sha, limits, files + i, total + TotalSize(sources[..i]), sources[i], outputs)
  {
    TotalSizeOfPrefix(sources, i);
    forall j | 0 <= j < i ensures sources[j].key != sources[i].key {}
  }

  /** The first sources are all produced. */
  ghost predicate SoFar(can: Source -> bool, sha: Hash, limits: Limits, sources: seq<Source>, n: nat)
    requires n <= |sources|
  {
    forall i :: 0 <= i < n ==> IsString(sources[i].key, 128) && Sound(sha, limits, sources[i]) && can(sources[i])
  }

  lemma SoFarIsAll(can: Source -> bool, makes: (Source, Output) -> bool, sha: Hash, limits: Limits, files: int,
                   total: int, sources: seq<Source>, outputs: map<Text, Output>)
    requires SoFar(can, sha, limits, sources, |sources|) && Produced(makes, sources, |sources|, outputs)
    requires files + |sources| <= limits.maxFiles && total + TotalSize(sources) <= limits.maxTotal
    ensures AllProducible(can, sha, limits, files, total, sources)
  {
  }

  lemma SoFarMore(can: Source -> bool, sha: Hash, limits: Limits, files: int, total: int, sources: seq<Source>, i: nat,
                  outputs: map<Text, Output>)
    requires i < |sources| && SoFar(can, sha, limits, sources, i)
    requires Ready(can, sha, limits, files, total, sources[i], outputs)
    ensures SoFar(can, sha, limits, sources, i + 1) && sources[i].key.JStr? && sources[i].key.s !in outputs
  {
  }

  /** What `can` and `makes` stand for. They are looked at one source at a time. */
  ghost predicate Stands(can: Source -> bool, makes: (Source, Output) -> bool, sha: Hash, csv: CsvReader) {
    && (forall s {:trigger Convertible(sha, csv, s)} :: can(s) <==> Convertible(sha, csv, s))
    && (forall s, o {:trigger Makes(sha, csv, s, o)} :: makes(s, o) <==> Makes(sha, csv, s, o))
  }

  /** The body of the loop: a key of its own, then the source. */
  method ProduceNext(sha: Hash, csv: CsvReader, reader: Reader, source: Source, outputs: map<Text, Output>,
                     ghost can: Source -> bool, ghost makes: (Source, Output) -> bool) returns (r: Result<Output>)
    requires reader.Valid() && Stands(can, makes, sha, csv)
    modifies reader
    ensures reader.Valid()
    ensures r.Ok? <==> Ready(can, sha, reader.limits, old(reader.files), old(reader.total), source, outputs)
    ensures r.Ok? ==> makes(source, r.value)
    ensures r.Ok? ==> reader.files == old(reader.files) + 1 && reader.total == old(reader.total) + SizeOf(source)
  {
    ReadsWithinBudget(sha, reader.limits, reader.Current(), source);
    var _ :- Check(IsString(source.key, 128), "type_or_bounds");
    var _ :- Check(source.key.s !in outputs, "duplicate_source");
    r := ProduceSource(sha, csv, reader, source);
  }

  method ProduceLoop(sha: Hash, csv: CsvReader, reader: Reader, sources: seq<Source>, ghost can: Source -> bool,
                     ghost makes: (Source, Output) -> bool) returns (r: Result<map<Text, Output>>)
    requires reader.Valid() && Stands(can, makes, sha, csv)
    modifies reader
    ensures reader.Valid()
    ensures r.Ok? <==> AllProducible(can, sha, reader.limits, old(reader.files), old(reader.total), sources)
    ensures r.Ok? ==> Produced(makes, sources, |sources|, r.value)
    ensures r.Ok? ==> reader.files == old(reader.files) + |sources|
    ensures r.Ok? ==> reader.total == old(reader.total) + TotalSize(sources)
  {
    ghost var files, total := reader.files, reader.total;
    ghost var all := AllProducible(can, sha, reader.limits, files, total, sources);
    var outputs: map<Text, Output> := map[];
    for i := 0 to |sources|
      invariant reader.Valid()
      invariant Produced(makes, sources, i, outputs)
      invariant reader.files == files + i && reader.total == total + TotalSize(sources[..i])
      invariant SoFar(can, sha, reader.limits, sources, i)
    {
      if all { NextIsReady(can, makes, sha, reader.limits, files, total, sources, i, outputs); }
      var out :- ProduceNext(sha, csv, reader, sources[i], outputs, can, makes);
      SoFarMore(can, sha, reader.limits, files + i, total + TotalSize(sources[..i]), sources, i, outputs);
      TotalSizeOfPrefix(sources, i);
      ProducedMore(makes, sources, i, outputs, sources[i].key.s, out);
      outputs := outputs[sources[i].key.s := out];
    }
    assert sources[..|sources|] == sources;
    SoFarIsAll(can, makes, sha, reader.limits, files, total, sources, outputs);
    return Ok(outputs);
  }

  /**
    `_produce`. It succeeds exactly when every source can be produced under a key of its own and the sources
    fit the budget together. Then every source has its own output, made from bytes with the declared digest
    or, when it declares none, from whatever bytes were there; the reader counted each source once.
   */
  method Produce(sha: Hash, csv: CsvReader, reader: Reader, sources: seq<Source>)
    returns (r: Result<map<Text, Output>>)
    requires reader.Valid()
    modifies reader
    ensures reader.Valid()
    ensures r.Ok? <==>
      AllProducible(s => Convertible(sha, csv, s), sha, reader.limits, old(reader.files), old(reader.total), sources)
    ensures r.Ok? ==> Produced((s, o) => Makes(sha, csv, s, o), sources, |sources|, r.value)
    ensures r.Ok? ==> reader.files == old(reader.files) + |sources|
    ensures r.Ok? ==> reader.total == old(reader.total) + TotalSize(sources)
  {
    ghost var can := (s: Source) => Convertible(sha, csv, s);
    ghost var makes := (s: Source, o: Output) => Makes(sha, csv, s, o);
    r := ProduceLoop(sha, csv, reader, sources, can, makes);
  }

  // ---------------------------------------------------------------- sources without a digest

  /** A readable text that declares no digest is produced from whatever its bytes are. */
  lemma NullDigestIsProduced(sha: Hash, csv: CsvReader, limits: Limits, st: State, source: Source)
    requires DigestShaped(sha) && source.expected.JNull? && Counted(limits, st, source.answer)
    requires source.kind == JStr(T("text")) && IsMediaType(source.mediaType) && NoSurrogates(source.mediaType.s)
    requires Readable(source.answer.payload) && |source.answer.payload| <= MAX_SAFE_INTEGER
    ensures Yields(sha, csv, limits, st, source)
    ensures !HasDeclaredDigest(sha, source)
  {
    TextKind(source.kind);
    NullDigestIsRead(sha, limits, st, source);
    TextIsProduced(sha, csv, source.mediaType.s, source.answer.payload);
  }

  lemma TextKind(kind: Json)
    requires kind == JStr(T("text"))
    ensures IsString(kind, 128) && KindOf(kind.s) == PlainText
  {
  }

  lemma NullDigestIsRead(sha: Hash, limits: Limits, st: State, source: Source)
    requires source.expected.JNull? && Counted(limits, st, source.answer)
    ensures Outcome(sha, limits, st, Request(source.answer, Declared(source))) == Ok(source.answer.payload)
  {
  }

  /** Every produced payload has its declared digest exactly when no source leaves its digest null. */
  lemma VerifiedIffNoNullDigest(sha: Hash, csv: CsvReader, sources: seq<Source>, outputs: map<Text, Output>)
    requires Produced((s, o) => Makes(sha, csv, s, o), sources, |sources|, outputs)
    ensures (forall i :: 0 <= i < |sources| ==> HasDeclaredDigest(sha, sources[i]))
       <==> forall i :: 0 <= i < |sources| ==> !sources[i].expected.JNull?
  {
    ghost var makes := (s: Source, o: Output) => Makes(sha, csv, s, o);
    forall i | 0 <= i < |sources| ensures HasDeclaredDigest(sha, sources[i]) <==> !sources[i].expected.JNull? {
      assert HasOutput(makes, sources[i], outputs);
    }
  }
}
