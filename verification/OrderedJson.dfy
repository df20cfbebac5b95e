/**
  Dicts with an insertion order at every depth, and the printer with `sort_keys=True` that sorts each of
  them when it gets there. What it prints depends on the unordered value only.
 */
module OrderedJson {
  import opened Wrappers
  import opened Unicode
  import opened CanonicalJson
  import Statistics

  datatype Ordered =
    | Leaf(value: Json)
    | List(items: seq<Ordered>)
    | Object(members: seq<(Text, Ordered)>)

  /** The keys of every dict are distinct, and leaves are not containers. */
  ghost predicate WellKeyed(o: Ordered) {
    match o
    case Leaf(v) => !v.JArr? && !v.JObj?
    case List(items) => forall i :: 0 <= i < |items| ==> WellKeyed(items[i])
    case Object(members) =>
      DistinctKeys(members) && forall i :: 0 <= i < |members| ==> WellKeyed(members[i].1)
  }

  /** The value without its orders. */
  function Plain(o: Ordered): Json {
    match o
    case Leaf(v) => v
    case List(items) => JArr(seq(|items|, i requires 0 <= i < |items| => Plain(items[i])))
    case Object(members) => JObj(Dict(PlainMembers(o, members)))
  }

  function PlainMembers(whole: Ordered, members: seq<(Text, Ordered)>): (r: seq<(Text, Json)>)
    requires forall i :: 0 <= i < |members| ==> members[i].1 < whole
    ensures |r| == |members|
    decreases whole, 0
  {
    seq(|members|, i requires 0 <= i < |members| => (members[i].0, Plain(members[i].1)))
  }

  // ---------------------------------------------------------------- printing

  /** `_safe_json`, over dicts in their insertion order. */
  predicate SafeOrdered(o: Ordered) {
    match o
    case Leaf(v) => Safe(v)
    case List(items) => forall i :: 0 <= i < |items| ==> SafeOrdered(items[i])
    case Object(members) =>
      forall i :: 0 <= i < |members| ==> NoSurrogates(members[i].0) && SafeOrdered(members[i].1)
  }

  type Part = (Text, Text)

  predicate ByName(a: Part, b: Part) {
    a.0 == b.0 || Less(a.0, b.0)
  }

  function JoinParts(parts: seq<Part>): Text {
    if parts == [] then []
    else
      var first := RenderString(parts[0].0) + [COLON] + parts[0].1;
      if |parts| == 1 then first else first + [COMMA] + JoinParts(parts[1..])
  }

  function JoinTexts(texts: seq<Text>): Text {
    if texts == [] then [] else if |texts| == 1 then texts[0] else texts[0] + [COMMA] + JoinTexts(texts[1..])
  }

  /** `json.dumps` with sorted keys and the compact separators. */
  function Print(o: Ordered): Text
    requires SafeOrdered(o)
  {
    match o
    case Leaf(v) => Render(v)
    case List(items) =>
      [OPEN_ARRAY] + JoinTexts(seq(|items|, i requires 0 <= i < |items| => Print(items[i]))) + [CLOSE_ARRAY]
    case Object(members) =>
      [OPEN_OBJECT] + JoinParts(Statistics.SortBy(Parts(o, members), ByName)) + [CLOSE_OBJECT]
  }

  /** The printed members, in insertion order. */
  function Parts(whole: Ordered, members: seq<(Text, Ordered)>): (r: seq<Part>)
    requires forall i :: 0 <= i < |members| ==> members[i].1 < whole && SafeOrdered(members[i].1)
    ensures |r| == |members|
    decreases whole, 0
  {
    seq(|members|, i requires 0 <= i < |members| => (members[i].0, Print(members[i].1)))
  }

  // ---------------------------------------------------------------- safety

  lemma {:induction false} SafeIffSafe(o: Ordered)
    requires WellKeyed(o)
    ensures SafeOrdered(o) <==> Safe(Plain(o))
  {
    match o
    case Leaf(_) =>
    case List(items) =>
      forall i | 0 <= i < |items| ensures SafeOrdered(items[i]) <==> Safe(Plain(items[i])) { SafeIffSafe(items[i]); }
      var plain := Plain(o).items;
      assert forall i :: 0 <= i < |items| ==> plain[i] == Plain(items[i]);
    case Object(members) =>
      forall i | 0 <= i < |members| ensures SafeOrdered(members[i].1) <==> Safe(Plain(members[i].1)) {
        SafeIffSafe(members[i].1);
      }
      SafeObject(o, members);
  }

  lemma SafeObject(o: Ordered, members: seq<(Text, Ordered)>)
    requires o == Object(members) && DistinctKeys(members)
    requires forall i :: 0 <= i < |members| ==> (SafeOrdered(members[i].1) <==> Safe(Plain(members[i].1)))
    ensures SafeOrdered(o) <==> Safe(Plain(o))
  {
    var pairs := PlainMembers(o, members);
    DictOfDistinct(pairs);
    var m := Plain(o).members;
    forall i | 0 <= i < |members| ensures members[i].0 in m && m[members[i].0] == Plain(members[i].1) {
      assert pairs[i] == (members[i].0, Plain(members[i].1));
    }
    if SafeOrdered(o) {
      forall k | k in m ensures NoSurrogates(k) && Safe(m[k]) {
        var i :| 0 <= i < |pairs| && pairs[i].0 == k;
      }
    }
  }

  // ---------------------------------------------------------------- the text depends on the value only

  lemma {:induction false} JoinedTexts(whole: Json, items: seq<Json>, texts: seq<Text>)
    requires |texts| == |items| && forall k :: 0 <= k < |items| ==> Safe(items[k]) && items[k] < whole
    requires forall k :: 0 <= k < |items| ==> texts[k] == Render(items[k])
    ensures JoinTexts(texts) == RenderItems(whole, items)
  {
    if |items| > 1 { JoinedTexts(whole, items[1..], texts[1..]); }
  }

  lemma {:induction false} JoinedParts(whole: Json, keys: seq<Text>, texts: map<Text, Text>)
    requires whole.JObj? && Safe(whole) && forall k :: k in keys ==> k in whole.members && k in texts
    requires forall k :: k in keys ==> texts[k] == Render(whole.members[k])
    ensures JoinParts(Pairs(texts, keys)) == RenderMembers(whole, keys)
  {
    if keys != [] {
      JoinedParts(whole, keys[1..], texts);
      assert Pairs(texts, keys)[0] == (keys[0], texts[keys[0]]);
      assert Pairs(texts, keys)[1..] == Pairs(texts, keys[1..]);
    }
  }

  lemma NamesAreTotallyOrdered()
    ensures Statistics.Preorder(ByName)
  {
    forall a: Part, b: Part ensures ByName(a, b) || ByName(b, a) { LessTotal(a.0, b.0); }
    forall a: Part, b: Part, c: Part | ByName(a, b) && ByName(b, c) ensures ByName(a, c) {
      if Less(a.0, b.0) && Less(b.0, c.0) { LessTransitive(a.0, b.0, c.0); }
    }
  }

  /** A stable sort of parts with distinct names is the list of the dict's items by increasing name. */
  lemma SortedPartsAreItems(parts: seq<Part>)
    requires DistinctKeys(parts)
    ensures Statistics.SortBy(parts, ByName) == Pairs(Dict(parts), SortedKeys(Dict(parts).Keys))
  {
    var sorted := Statistics.SortBy(parts, ByName);
    Statistics.SortByIsPermutation(parts, ByName);
    NamesAreTotallyOrdered();
    Statistics.SortByOrders(parts, ByName);
    DistinctAfterSorting(parts, sorted);
    assert KeysIncrease(sorted);
    SortedItemsIgnoreInsertionOrder(parts, sorted);
  }

  /** Distinct names stay distinct under permutation. */
  lemma DistinctAfterSorting(parts: seq<Part>, sorted: seq<Part>)
    requires DistinctKeys(parts) && multiset(sorted) == multiset(parts)
    ensures DistinctKeys(sorted)
  {
    forall i, j | 0 <= i < j < |sorted| ensures sorted[i].0 != sorted[j].0 {
      if sorted[i].0 == sorted[j].0 {
        assert sorted[i] in multiset(parts) && sorted[j] in multiset(parts);
        assert sorted[i] == sorted[j];
        AtMostOnce(parts, sorted[i]);
        TwiceMeansTwo(sorted, i, j);
      }
    }
  }

  lemma TwiceMeansTwo(s: seq<Part>, i: nat, j: nat)
    requires i < j < |s| && s[i] == s[j]
    ensures multiset(s)[s[i]] >= 2
  {
    assert s == s[..j] + [s[j]] + s[j + 1..];
    assert s[..j][i] == s[i];
    assert s[i] in multiset(s[..j]);
  }

  /** The printer yields the canonical text of the unordered value, at every depth. */
  lemma {:induction false} PrintIsCanonical(o: Ordered)
    requires WellKeyed(o) && SafeOrdered(o)
    ensures Safe(Plain(o)) && Print(o) == Render(Plain(o))
    decreases o
  {
    SafeIffSafe(o);
    match o
    case Leaf(_) =>
    case List(items) =>
      forall i | 0 <= i < |items| ensures Safe(Plain(items[i])) && Print(items[i]) == Render(Plain(items[i])) {
        PrintIsCanonical(items[i]);
      }
      ListPrintsCanonically(o, items);
    case Object(members) =>
      forall i | 0 <= i < |members|
        ensures Safe(Plain(members[i].1)) && Print(members[i].1) == Render(Plain(members[i].1))
      {
        PrintIsCanonical(members[i].1);
      }
      ObjectPrintsCanonically(o, members);
  }

  lemma ListPrintsCanonically(o: Ordered, items: seq<Ordered>)
    requires o == List(items) && SafeOrdered(o) && Safe(Plain(o))
    requires forall i :: 0 <= i < |items| ==> Safe(Plain(items[i])) && Print(items[i]) == Render(Plain(items[i]))
    ensures Print(o) == Render(Plain(o))
  {
    var texts := seq(|items|, i requires 0 <= i < |items| => Print(items[i]));
    var plain := Plain(o);
    assert forall i :: 0 <= i < |items| ==> plain.items[i] == Plain(items[i]);
    JoinedTexts(plain, plain.items, texts);
  }

  lemma ObjectPrintsCanonically(o: Ordered, members: seq<(Text, Ordered)>)
    requires o == Object(members) && DistinctKeys(members) && SafeOrdered(o) && Safe(Plain(o))
    requires forall i :: 0 <= i < |members| ==>
      Safe(Plain(members[i].1)) && Print(members[i].1) == Render(Plain(members[i].1))
    ensures Print(o) == Render(Plain(o))
  {
    var parts, plain := Parts(o, members), Plain(o);
    SortedPartsAreItems(parts);
    TextsOfMembers(o, members, Dict(parts));
    JoinedParts(plain, SortedKeys(plain.members.Keys), Dict(parts));
  }

  /** Dicts filled under the same keys in the same order hold the same keys. */
  lemma SameKeys<V, W>(a: seq<(Text, V)>, b: seq<(Text, W)>)
    requires |a| == |b| && DistinctKeys(a) && DistinctKeys(b)
    requires forall i :: 0 <= i < |a| ==> a[i].0 == b[i].0
    ensures Dict(a).Keys == Dict(b).Keys
    ensures forall i :: 0 <= i < |a| ==> a[i].0 in Dict(a) && Dict(a)[a[i].0] == a[i].1
    ensures forall i :: 0 <= i < |b| ==> b[i].0 in Dict(b) && Dict(b)[b[i].0] == b[i].1
    ensures forall k :: k in Dict(a) ==> exists i :: 0 <= i < |a| && a[i].0 == k
  {
    DictOfDistinct(a);
    DictOfDistinct(b);
    forall k ensures k in Dict(a) <==> k in Dict(b) {
      if i :| 0 <= i < |a| && a[i].0 == k { assert b[i].0 == k; }
      if i :| 0 <= i < |b| && b[i].0 == k { assert a[i].0 == k; }
    }
  }

  /** The dict of printed members has the keys of the value, each with its rendered member. */
  lemma TextsOfMembers(o: Ordered, members: seq<(Text, Ordered)>, texts: map<Text, Text>)
    requires o == Object(members) && DistinctKeys(members) && SafeOrdered(o) && Safe(Plain(o))
    requires forall i :: 0 <= i < |members| ==>
      Safe(Plain(members[i].1)) && Print(members[i].1) == Render(Plain(members[i].1))
    requires texts == Dict(Parts(o, members))
    ensures texts.Keys == Plain(o).members.Keys
    ensures forall k :: k in texts ==> texts[k] == Render(Plain(o).members[k])
  {
    var parts, pairs := Parts(o, members), PlainMembers(o, members);
    SameKeys(parts, pairs);
    forall k | k in texts ensures texts[k] == Render(Dict(pairs)[k]) {
      var i :| 0 <= i < |parts| && parts[i].0 == k;
      PartAt(o, members, i);
    }
  }

  lemma PartAt(o: Ordered, members: seq<(Text, Ordered)>, i: nat)
    requires o == Object(members) && SafeOrdered(o) && i < |members|
    ensures Parts(o, members)[i] == (members[i].0, Print(members[i].1))
    ensures PlainMembers(o, members)[i] == (members[i].0, Plain(members[i].1))
  {
  }

  /** Two orderings of one value print the same canonical bytes. */
  lemma PrintIgnoresInsertionOrder(a: Ordered, b: Ordered)
    requires WellKeyed(a) && WellKeyed(b) && Plain(a) == Plain(b) && SafeOrdered(a)
    ensures SafeOrdered(b) && Print(a) == Print(b)
    ensures CanonicalBytes(Plain(a)).Ok? && NoSurrogates(Print(a))
    ensures CanonicalBytes(Plain(a)).value == Encode(Print(a))
  {
    SafeIffSafe(a);
    SafeIffSafe(b);
    PrintIsCanonical(a);
    PrintIsCanonical(b);
    CanonicalBytesTotal(Plain(a));
    RenderNoSurrogates(Plain(a));
  }
}
