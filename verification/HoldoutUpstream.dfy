/**
  The three aligned language files of the retrieval holdout, and their index.
 */
module HoldoutUpstream {
  import opened Wrappers
  import opened Unicode

  datatype Qa = Qa(id: Text, question: Text, answers: seq<Text>)

  datatype Paragraph = Paragraph(context: Text, qas: seq<Qa>)

  datatype Article = Article(title: Text, paragraphs: seq<Paragraph>)

  /** What one language file is reduced to. Each article's questions keep their order. */
  datatype Index = Index(titles: seq<Text>, contexts: map<Text, seq<Text>>, qas: map<Text, seq<Qa>>)

  datatype Upstream = Upstream(de: Index, en: Index, es: Index)

  // ---------------------------------------------------------------- indexing a language file

  function QasOf(paragraphs: seq<Paragraph>): seq<Qa> {
    if paragraphs == [] then [] else QasOf(paragraphs[..|paragraphs| - 1]) + paragraphs[|paragraphs| - 1].qas
  }

  function ContextsOf(paragraphs: seq<Paragraph>): seq<Text> {
    seq(|paragraphs|, i requires 0 <= i < |paragraphs| => paragraphs[i].context)
  }

  function Ids(qas: seq<Qa>): (ids: seq<Text>)
    ensures |ids| == |qas|
  {
    seq(|qas|, i requires 0 <= i < |qas| => qas[i].id)
  }

  predicate Answered(qa: Qa) {
    qa.answers != [] && forall i :: 0 <= i < |qa.answers| ==> qa.answers[i] != []
  }

  /** The questions of one article: distinct identifiers, and answers that are not empty. */
  predicate ProperQas(qas: seq<Qa>) {
    && (forall i :: 0 <= i < |qas| ==> Answered(qas[i]))
    && forall i, j :: 0 <= i < j < |qas| ==> qas[i].id != qas[j].id
  }

  ghost predicate DistinctTitles(titles: seq<Text>) {
    forall i, j :: 0 <= i < j < |titles| ==> titles[i] != titles[j]
  }

  function TitlesOf(data: seq<Article>): (titles: seq<Text>)
    ensures |titles| == |data|
  {
    seq(|data|, i requires 0 <= i < |data| => data[i].title)
  }

  /** The index holds each article under its title, and nothing else. */
  ghost predicate Indexes(index: Index, data: seq<Article>) {
    && index.titles == TitlesOf(data) && index.qas.Keys == index.contexts.Keys
    && (forall t :: t in index.qas ==> t in index.titles)
    && forall i :: 0 <= i < |data| ==> IndexesArticle(index, data[i])
  }

  ghost predicate IndexesArticle(index: Index, a: Article) {
    && a.title in index.qas && a.title in index.contexts
    && index.qas[a.title] == QasOf(a.paragraphs) && index.contexts[a.title] == ContextsOf(a.paragraphs)
  }

  ghost predicate WellFormed(data: seq<Article>) {
    DistinctTitles(TitlesOf(data)) && AllProper(data)
  }

  lemma {:induction false} PrefixOfProper(paragraphs: seq<Paragraph>, k: nat)
    requires k <= |paragraphs| && ProperQas(QasOf(paragraphs))
    ensures ProperQas(QasOf(paragraphs[..k]))
  {
    if k < |paragraphs| {
      var n := |paragraphs| - 1;
      var all, front := QasOf(paragraphs), QasOf(paragraphs[..n]);
      assert forall i :: 0 <= i < |front| ==> front[i] == all[i];
      PrefixOfProper(paragraphs[..n], k);
      assert paragraphs[..n][..k] == paragraphs[..k];
    } else {
      assert paragraphs[..k] == paragraphs;
    }
  }

  lemma ExtendProper(qas: seq<Qa>, more: seq<Qa>, k: nat)
    requires k < |more| && ProperQas(qas + more[..k])
    ensures ProperQas(qas + more[..k + 1]) <==> Answered(more[k]) && more[k].id !in Ids(qas + more[..k])
  {
    var before, after := qas + more[..k], qas + more[..k + 1];
    var n := |before|;
    assert after == before + [more[k]] && after[n] == more[k];
    assert forall i :: 0 <= i < n ==> after[i] == before[i];
    assert forall i :: 0 <= i < n ==> Ids(before)[i] == after[i].id;
    if Answered(more[k]) && more[k].id !in Ids(before) {
      forall i, j | 0 <= i < j < |after| ensures after[i].id != after[j].id {
        if j == n { assert Ids(before)[i] == after[i].id; }
      }
    }
  }

  lemma ProperFront(qas: seq<Qa>, more: seq<Qa>, k: nat)
    requires k <= |more| && ProperQas(qas + more)
    ensures ProperQas(qas + more[..k])
  {
    var front, all := qas + more[..k], qas + more;
    assert forall i :: 0 <= i < |front| ==> front[i] == all[i];
  }

  /** The questions of one paragraph, after those already seen in the article. */
  method IndexParagraph(seen: seq<Qa>, qas: seq<Qa>) returns (r: Result<seq<Qa>>)
    requires ProperQas(seen)
    ensures r.Ok? <==> ProperQas(seen + qas)
    ensures r.Ok? ==> r.value == seen + qas
  {
    assert seen + qas[..0] == seen;
    var all := seen;
    for k := 0 to |qas|
      invariant all == seen + qas[..k] && ProperQas(all)
    {
      ExtendProper(seen, qas, k);
      if qas[k].id in Ids(all) || qas[k].answers == [] {
        if ProperQas(seen + qas) { ProperFront(seen, qas, k + 1); }
        return Fail("upstream_duplicate");
      }
      if exists i :: 0 <= i < |qas[k].answers| && qas[k].answers[i] == [] {
        if ProperQas(seen + qas) { ProperFront(seen, qas, k + 1); }
        return Fail("upstream_schema");
      }
      all := all + [qas[k]];
      assert all == seen + qas[..k + 1];
    }
    assert qas[..|qas|] == qas;
    return Ok(all);
  }

  method IndexArticle(paragraphs: seq<Paragraph>) returns (r: Result<seq<Qa>>)
    ensures r.Ok? <==> ProperQas(QasOf(paragraphs))
    ensures r.Ok? ==> r.value == QasOf(paragraphs)
  {
    var all: seq<Qa> := [];
    for k := 0 to |paragraphs|
      invariant all == QasOf(paragraphs[..k]) && ProperQas(all)
    {
      assert paragraphs[..k + 1][..k] == paragraphs[..k];
      var next := IndexParagraph(all, paragraphs[k].qas);
      if next.Fail? {
        if ProperQas(QasOf(paragraphs)) { PrefixOfProper(paragraphs, k + 1); }
        return next;
      }
      all := next.value;
    }
    assert paragraphs[..|paragraphs|] == paragraphs;
    return Ok(all);
  }

  ghost predicate AllProper(data: seq<Article>) {
    forall i :: 0 <= i < |data| ==> ProperQas(QasOf(data[i].paragraphs))
  }

  method AddArticle(index: Index, ghost data: seq<Article>, a: Article) returns (r: Result<Index>)
    requires Indexes(index, data) && DistinctTitles(TitlesOf(data))
    ensures r.Ok? <==> a.title !in TitlesOf(data) && ProperQas(QasOf(a.paragraphs))
    ensures r.Ok? ==> Indexes(r.value, data + [a]) && DistinctTitles(TitlesOf(data + [a]))
  {
    if a.title in index.contexts { return Fail("upstream_duplicate"); }
    var article := IndexArticle(a.paragraphs);
    if article.Fail? { return Fail(article.category); }
    var next := Index(index.titles + [a.title], index.contexts[a.title := ContextsOf(a.paragraphs)],
                      index.qas[a.title := article.value]);
    IndexGrows(index, data, next, a);
    return Ok(next);
  }

  lemma WellFormedGrows(data: seq<Article>, k: nat)
    requires k < |data| && WellFormed(data[..k])
    ensures WellFormed(data[..k + 1]) <==> data[k].title !in TitlesOf(data[..k]) && ProperQas(QasOf(data[k].paragraphs))
    ensures WellFormed(data) ==> WellFormed(data[..k + 1])
  {
    var before, after := data[..k], data[..k + 1];
    assert after == before + [data[k]] && after[k] == data[k];
    var titles, longer := TitlesOf(before), TitlesOf(after);
    assert longer == titles + [data[k].title] && longer[k] == data[k].title;
    assert forall i :: 0 <= i < k ==> titles[i] == longer[i] && after[i] == before[i];
    assert forall i :: 0 <= i < |after| ==> TitlesOf(after)[i] == TitlesOf(data)[i];
    assert AllProper(after) <==> AllProper(before) && ProperQas(QasOf(data[k].paragraphs)) by {
      if AllProper(after) { assert ProperQas(QasOf(after[k].paragraphs)); }
    }
  }

  /** `_upstream_index`. */
  method UpstreamIndex(data: seq<Article>) returns (r: Result<Index>)
    ensures r.Ok? <==> WellFormed(data)
    ensures r.Ok? ==> Indexes(r.value, data)
  {
    var index := Index([], map[], map[]);
    for k := 0 to |data|
      invariant WellFormed(data[..k]) && Indexes(index, data[..k])
    {
      WellFormedGrows(data, k);
      var added := AddArticle(index, data[..k], data[k]);
      if added.Fail? { return added; }
      index := added.value;
      assert data[..k + 1] == data[..k] + [data[k]];
    }
    assert data[..|data|] == data;
    return Ok(index);
  }

  lemma IndexGrows(before: Index, data: seq<Article>, after: Index, a: Article)
    requires Indexes(before, data) && DistinctTitles(TitlesOf(data)) && a.title !in before.contexts
    requires after.titles == before.titles + [a.title]
    requires after.contexts == before.contexts[a.title := ContextsOf(a.paragraphs)]
    requires after.qas == before.qas[a.title := QasOf(a.paragraphs)]
    ensures Indexes(after, data + [a]) && DistinctTitles(TitlesOf(data + [a]))
  {
    var more := data + [a];
    forall i | 0 <= i < |data| ensures IndexesArticle(after, more[i]) && data[i].title != a.title {
      assert IndexesArticle(before, data[i]);
    }
    assert TitlesOf(more) == TitlesOf(data) + [a.title];
  }
}
