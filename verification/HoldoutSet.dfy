/**
  The question set of the retrieval holdout and its validation against the corpus text.

  Case folding is a parameter. The operator query of a question is its text and is not repeated.
 */
module HoldoutSet {
  import opened Wrappers
  import opened Unicode
  import HoldoutRows

  type Fold = Text -> Text

  datatype Atom = Atom(id: Text, source: Text, variants: seq<Text>)

  datatype Fitness = Fitness(source: Text, authority: int, directness: int, temporalFit: int, integrity: int,
                             reuseBasis: int)

  /** A language tag; any other text is kept as it is. */
  datatype Language = De | En | Es | OtherLanguage(tag: Text)

  datatype Stratum = Direct | CrossLanguage | SourceDiscrimination | MultiSource | Absent | OtherStratum(name: Text)

  datatype Question = Question(id: Text, language: Language, stratum: Stratum, text: Text, reference: Text,
                               answerable: bool, required: seq<Text>, acceptable: seq<Text>, atoms: seq<Atom>,
                               fitness: seq<Fitness>, qaIds: seq<Text>, titles: seq<Text>)

  // ---------------------------------------------------------------- identifiers and keys

  function Digit(n: nat): CodePoint
    requires n <= 9
  {
    '0' as int + n
  }

  /** The last `width` decimal digits, padded with zeros. */
  function Padded(n: nat, width: nat): (digits: Text)
    ensures |digits| == width
  {
    if width == 0 then [] else Padded(n / 10, width - 1) + [Digit(n % 10)]
  }

  /** "H001" and so on. */
  function QuestionId(n: nat): (id: Text)
    ensures |id| == 4
  {
    ['H' as int] + Padded(n, 3)
  }

  function Pow10(width: nat): nat {
    if width == 0 then 1 else 10 * Pow10(width - 1)
  }

  lemma {:induction false} PaddedInjective(m: nat, n: nat, width: nat)
    requires m < Pow10(width) && n < Pow10(width) && Padded(m, width) == Padded(n, width)
    ensures m == n
  {
    if width > 0 {
      var a, b := Padded(m, width), Padded(n, width);
      assert a[width - 1] == Digit(m % 10) && b[width - 1] == Digit(n % 10);
      assert a[..width - 1] == Padded(m / 10, width - 1) && b[..width - 1] == Padded(n / 10, width - 1);
      PaddedInjective(m / 10, n / 10, width - 1);
    }
  }

  lemma QuestionIdsDiffer(m: nat, n: nat)
    requires m <= 999 && n <= 999 && QuestionId(m) == QuestionId(n)
    ensures m == n
  {
    assert QuestionId(m)[1..] == Padded(m, 3) && QuestionId(n)[1..] == Padded(n, 3);
    assert Pow10(3) == 10 * Pow10(2) == 100 * Pow10(1) == 1000 * Pow10(0);
    PaddedInjective(m, n, 3);
  }

  predicate KeyLetter(c: CodePoint) {
    'a' as int <= c <= 'z' as int || '0' as int <= c <= '9' as int
  }

  const DASH: CodePoint := '-' as int

  /** `^[a-z0-9]+(?:-[a-z0-9]+)*$`: letters and single inner dashes. */
  predicate IsSourceKey(key: Text) {
    && key != [] && KeyLetter(key[0]) && KeyLetter(key[|key| - 1])
    && (forall i :: 0 <= i < |key| ==> KeyLetter(key[i]) || key[i] == DASH)
    && (forall i, j :: 0 <= i < |key| && 0 <= j < |key| && j == i + 1 ==> KeyLetter(key[i]) || KeyLetter(key[j]))
  }

  /** `re.sub(r"[^a-z0-9]+", "-", s)`; `inRun` says that a run of other characters is under way. */
  function Dashed(s: Text, inRun: bool): Text {
    if s == [] then []
    else if KeyLetter(s[0]) then [s[0]] + Dashed(s[1..], false)
    else (if inRun then [] else [DASH]) + Dashed(s[1..], true)
  }

  /** `strip("-")`. */
  function Strip(s: Text): Text {
    StripRight(StripLeft(s))
  }

  function StripLeft(s: Text): Text {
    if s != [] && s[0] == DASH then StripLeft(s[1..]) else s
  }

  function StripRight(s: Text): Text {
    if s != [] && s[|s| - 1] == DASH then StripRight(s[..|s| - 1]) else s
  }

  /** `_slug`; None where the source raises. */
  function Slug(fold: Fold, title: Text): Option<Text> {
    var value := Strip(Dashed(fold(title), false));
    if value == [] || !IsSourceKey(value) then None else Some(value)
  }

  /** Letters and dashes, no two dashes together. */
  ghost predicate WellSpaced(s: Text) {
    && (forall i :: 0 <= i < |s| ==> KeyLetter(s[i]) || s[i] == DASH)
    && (forall i, j :: 0 <= i < |s| && 0 <= j < |s| && j == i + 1 ==> KeyLetter(s[i]) || KeyLetter(s[j]))
  }

  lemma {:induction false} DashedIsSpaced(s: Text, inRun: bool)
    ensures WellSpaced(Dashed(s, inRun))
    ensures inRun && Dashed(s, inRun) != [] ==> KeyLetter(Dashed(s, inRun)[0])
  {
    if s != [] {
      DashedIsSpaced(s[1..], !KeyLetter(s[0]));
      var rest := Dashed(s[1..], !KeyLetter(s[0]));
      var all := Dashed(s, inRun);
      if |all| > |rest| {
        assert all == [all[0]] + rest;
        forall i, j | 0 <= i < |all| && 0 <= j < |all| && j == i + 1 ensures KeyLetter(all[i]) || KeyLetter(all[j]) {
          if i > 0 { assert all[i] == rest[i - 1] && all[j] == rest[j - 1]; }
        }
      }
    }
  }

  lemma {:induction false} StripKeepsSpacing(s: Text)
    requires WellSpaced(s)
    ensures WellSpaced(StripLeft(s)) && WellSpaced(StripRight(s))
    ensures StripLeft(s) != [] ==> StripLeft(s)[0] != DASH
    ensures StripRight(s) != [] ==> StripRight(s)[|StripRight(s)| - 1] != DASH && StripRight(s)[0] == s[0]
    decreases |s|
  {
    if s != [] && s[0] == DASH {
      assert forall i :: 0 <= i < |s| - 1 ==> s[1..][i] == s[i + 1];
      StripLeftShrinks(s);
    }
    if s != [] && s[|s| - 1] == DASH {
      assert forall i :: 0 <= i < |s| - 1 ==> s[..|s| - 1][i] == s[i];
      StripKeepsSpacing(s[..|s| - 1]);
    }
  }

  lemma StripLeftShrinks(s: Text)
    requires WellSpaced(s) && s != [] && s[0] == DASH
    ensures WellSpaced(s[1..]) && StripLeft(s) == s[1..]
    ensures s[1..] != [] ==> s[1..][0] != DASH
  {
    assert forall i :: 0 <= i < |s| - 1 ==> s[1..][i] == s[i + 1];
    if |s| > 1 { assert KeyLetter(s[0]) || KeyLetter(s[1]); }
  }

  /** A stripped value that is not empty always has the form of a key: the pattern check never rejects. */
  lemma SlugFailsOnlyWhenEmpty(fold: Fold, title: Text)
    ensures Slug(fold, title).None? <==> Strip(Dashed(fold(title), false)) == []
  {
    var dashed := Dashed(fold(title), false);
    DashedIsSpaced(fold(title), false);
    StripKeepsSpacing(dashed);
    StripKeepsSpacing(StripLeft(dashed));
  }

  /** A prefixed slug is a key. */
  lemma PrefixedIsKey(slug: Text)
    requires IsSourceKey(slug)
    ensures IsSourceKey(T("xquad-") + slug)
  {
    var p, key := T("xquad-"), T("xquad-") + slug;
    assert forall i :: 0 <= i < 5 ==> KeyLetter(p[i]);
    assert p[5] == DASH;
    forall i | 0 <= i < |key| ensures KeyLetter(key[i]) || key[i] == DASH {
      if i >= 6 { assert key[i] == slug[i - 6]; }
    }
    forall i, j | 0 <= i < |key| && 0 <= j < |key| && j == i + 1 ensures KeyLetter(key[i]) || KeyLetter(key[j]) {
      if i >= 6 { assert key[i] == slug[i - 6] && key[j] == slug[j - 6]; }
    }
  }

  // ---------------------------------------------------------------- one question

  predicate InRange(f: Fitness) {
    && 0 <= f.authority <= 2 && 0 <= f.directness <= 2 && 0 <= f.temporalFit <= 2 && 0 <= f.integrity <= 2
    && 0 <= f.reuseBasis <= 2
  }

  /** `^A[0-9]{2}$`. */
  predicate IsAtomId(id: Text) {
    |id| == 3 && id[0] == 'A' as int && '0' as int <= id[1] <= '9' as int && '0' as int <= id[2] <= '9' as int
  }

  predicate AtomSchema(a: Atom) {
    IsAtomId(a.id) && IsSourceKey(a.source) && a.variants != [] && forall i :: 0 <= i < |a.variants| ==>
        a.variants[i] != []
  }

  predicate Keys(keys: seq<Text>) {
    |keys| <= 2 && forall i :: 0 <= i < |keys| ==> IsSourceKey(keys[i])
  }

  predicate KnownLanguage(language: Language) {
    !language.OtherLanguage?
  }

  predicate KnownStratum(stratum: Stratum) {
    !stratum.OtherStratum?
  }

  /** What the JSON schema asks of a question. */
  predicate Schema(q: Question) {
    && q.text != [] && q.reference != []
    && KnownLanguage(q.language) && KnownStratum(q.stratum)
    && Keys(q.required) && Keys(q.acceptable) && |q.atoms| <= 2 && |q.fitness| <= 2
    && (forall i :: 0 <= i < |q.atoms| ==> AtomSchema(q.atoms[i]))
    && (forall i :: 0 <= i < |q.fitness| ==> IsSourceKey(q.fitness[i].source) && InRange(q.fitness[i]))
    && 1 <= |q.qaIds| <= 2 && 1 <= |q.titles| <= 2
  }

  /** `keys == sorted(set(keys))`. */
  predicate Ascending(keys: seq<Text>) {
    forall i, j :: 0 <= i < j < |keys| ==> Less(keys[i], keys[j])
  }

  /** `sorted(xs) == keys`, for ascending keys. */
  predicate SortsTo(xs: seq<Text>, keys: seq<Text>) {
    multiset(xs) == multiset(keys)
  }

  function AtomSources(q: Question): seq<Text> {
    seq(|q.atoms|, i requires 0 <= i < |q.atoms| => q.atoms[i].source)
  }

  function FitnessSources(q: Question): seq<Text> {
    seq(|q.fitness|, i requires 0 <= i < |q.fitness| => q.fitness[i].source)
  }

  predicate Mentions(fold: Fold, body: Text, variant: Text) {
    HoldoutRows.Contains(fold(body), fold(variant))
  }

  /** The atom's source is in the corpus and its text contains a variant, case aside. */
  predicate OracleHolds(fold: Fold, sources: map<Text, Text>, a: Atom) {
    a.source in sources && exists i :: 0 <= i < |a.variants| && Mentions(fold, sources[a.source], a.variants[i])
  }

  predicate NoAtoms(q: Question) {
    q.required == [] && q.acceptable == [] && q.atoms == [] && q.fitness == []
  }

  predicate AnswerableContract(q: Question, sources: map<Text, Text>, fold: Fold) {
    && q.required != [] && q.required == q.acceptable && |q.atoms| == |q.required|
    && SortsTo(AtomSources(q), q.required) && SortsTo(FitnessSources(q), q.required)
    && forall i :: 0 <= i < |q.atoms| ==> OracleHolds(fold, sources, q.atoms[i])
  }

  predicate UnsupportedContract(q: Question, selected: set<Text>) {
    NoAtoms(q) && forall i :: 0 <= i < |q.titles| ==> q.titles[i] !in selected
  }

  predicate ValidQuestion(q: Question, sources: map<Text, Text>, selected: set<Text>, fold: Fold) {
    && Ascending(q.required) && Ascending(q.acceptable)
    && (if q.answerable then AnswerableContract(q, sources, fold) else UnsupportedContract(q, selected))
  }

  method CheckQuestion(q: Question, sources: map<Text, Text>, selected: set<Text>, fold: Fold)
    returns (r: Result<Text>)
    ensures r.Ok? <==> ValidQuestion(q, sources, selected, fold)
    ensures r == Fail("oracle_atom") ==>
      q.answerable && exists i :: 0 <= i < |q.atoms| && !OracleHolds(fold, sources, q.atoms[i])
    ensures r == Fail("unsupported_source_present") ==>
      !q.answerable && exists i :: 0 <= i < |q.titles| && q.titles[i] in selected
  {
    if !Ascending(q.required) || !Ascending(q.acceptable) { return Fail("question_source_order"); }
    if q.answerable {
      if q.required == [] || q.required != q.acceptable
          || |q.atoms| != |q.required| { return Fail("answerable_contract"); }
      if !SortsTo(AtomSources(q), q.required) { return Fail("oracle_source"); }
      if !SortsTo(FitnessSources(q), q.required) { return Fail("fitness_source"); }
      for i := 0 to |q.atoms|
        invariant forall k :: 0 <= k < i ==> OracleHolds(fold, sources, q.atoms[k])
      {
        if !OracleHolds(fold, sources, q.atoms[i]) { return Fail("oracle_atom"); }
      }
    } else {
      if !NoAtoms(q) { return Fail("unsupported_contract"); }
      for i := 0 to |q.titles|
        invariant forall k :: 0 <= k < i ==> q.titles[k] !in selected
      {
        if q.titles[i] in selected { return Fail("unsupported_source_present"); }
      }
    }
    return Ok(q.id);
  }

  // ---------------------------------------------------------------- the set

  function CountLanguage(qs: seq<Question>, language: Language): nat {
    if qs == [] then 0
    else CountLanguage(qs[..|qs| - 1], language) + if qs[|qs| - 1].language == language then 1 else 0
  }

  function CountStratum(qs: seq<Question>, stratum: Stratum): nat {
    if qs == [] then 0
    else CountStratum(qs[..|qs| - 1], stratum) + if qs[|qs| - 1].stratum == stratum then 1 else 0
  }

  /** With one hundred records, these counts leave room for no other language. */
  predicate LanguageCounts(qs: seq<Question>) {
    CountLanguage(qs, En) == 50 && CountLanguage(qs, De) == 25 && CountLanguage(qs, Es) == 25
  }

  predicate StratumCounts(qs: seq<Question>) {
    && CountStratum(qs, Direct) == 30 && CountStratum(qs, CrossLanguage) == 40
    && CountStratum(qs, SourceDiscrimination) == 10 && CountStratum(qs, MultiSource) == 10
    && CountStratum(qs, Absent) == 10
  }

  predicate InOrder(qs: seq<Question>) {
    |qs| == 100 && forall i :: 0 <= i < |qs| ==> qs[i].id == QuestionId(i + 1)
  }

  ghost predicate ValidSet(qs: seq<Question>, sources: map<Text, Text>, selected: set<Text>, fold: Fold) {
    && (forall i :: 0 <= i < |qs| ==> Schema(qs[i]))
    && InOrder(qs) && LanguageCounts(qs) && StratumCounts(qs)
    && forall i :: 0 <= i < |qs| ==> ValidQuestion(qs[i], sources, selected, fold)
  }

  ghost predicate DistinctIds(qs: seq<Question>) {
    forall i, j :: 0 <= i < j < |qs| ==> qs[i].id != qs[j].id
  }

  lemma OrderedIdsAreDistinct(qs: seq<Question>)
    requires InOrder(qs)
    ensures DistinctIds(qs)
  {
    forall i, j | 0 <= i < j < |qs| ensures qs[i].id != qs[j].id {
      if qs[i].id == qs[j].id { QuestionIdsDiffer(i + 1, j + 1); }
    }
  }

  ghost predicate Files(byId: map<Text, Question>, qs: seq<Question>) {
    && (forall k :: 0 <= k < |qs| ==> qs[k].id in byId && byId[qs[k].id] == qs[k])
    && forall id :: id in byId ==> byId[id] in qs && byId[id].id == id
  }

  method IndexById(qs: seq<Question>) returns (byId: map<Text, Question>)
    requires DistinctIds(qs)
    ensures Files(byId, qs)
  {
    byId := map[];
    for i := 0 to |qs|
      invariant Files(byId, qs[..i])
    {
      byId := byId[qs[i].id := qs[i]];
      assert qs[..i + 1][i] == qs[i];
      assert forall k :: 0 <= k < i ==> qs[..i + 1][k] == qs[..i][k];
    }
    assert qs[..|qs|] == qs;
  }

  method CheckQuestions(qs: seq<Question>, sources: map<Text, Text>, selected: set<Text>, fold: Fold)
    returns (r: Result<nat>)
    ensures r.Ok? <==> forall i :: 0 <= i < |qs| ==> ValidQuestion(qs[i], sources, selected, fold)
  {
    for i := 0 to |qs|
      invariant forall k :: 0 <= k < i ==> ValidQuestion(qs[k], sources, selected, fold)
    {
      var checked := CheckQuestion(qs[i], sources, selected, fold);
      if checked.Fail? { return Fail(checked.category); }
    }
    return Ok(|qs|);
  }

  /** `_validate_question_set`. */
  method ValidateQuestionSet(qs: seq<Question>, sources: map<Text, Text>, selected: set<Text>, fold: Fold)
    returns (r: Result<map<Text, Question>>)
    ensures r.Ok? <==> ValidSet(qs, sources, selected, fold)
    ensures r.Ok? ==> Files(r.value, qs)
  {
    if !(forall k :: 0 <= k < |qs| ==> Schema(qs[k])) { return Fail("question_schema"); }
    if !InOrder(qs) { return Fail("question_order"); }
    OrderedIdsAreDistinct(qs);
    var byId := IndexById(qs);
    if !LanguageCounts(qs) || !StratumCounts(qs) { return Fail("question_coverage"); }
    var checked := CheckQuestions(qs, sources, selected, fold);
    if checked.Fail? { return Fail(checked.category); }
    return Ok(byId);
  }
}
