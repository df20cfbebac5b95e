/**
  Python's stable `sorted`, and the order statistics that the benchmarks report: nearest ranks,
  integer medians and the bootstrap summary of a timing group.
 */
module Statistics {

  // ---------------------------------------------------------------- sorting

  function Insert<T>(x: T, s: seq<T>, leq: (T, T) -> bool): seq<T> {
    if s == [] || leq(x, s[0]) then [x] + s else [s[0]] + Insert(x, s[1..], leq)
  }

  /** `sorted`: stable, by the given order. */
  function SortBy<T>(s: seq<T>, leq: (T, T) -> bool): (r: seq<T>) {
    if s == [] then [] else Insert(s[0], SortBy(s[1..], leq), leq)
  }

  ghost predicate Ordered<T>(s: seq<T>, leq: (T, T) -> bool) {
    forall i, j :: 0 <= i < j < |s| ==> leq(s[i], s[j])
  }

  /** A total preorder. */
  ghost predicate Preorder<T(!new)>(leq: (T, T) -> bool) {
    && (forall a, b :: leq(a, b) || leq(b, a))
    && (forall a, b, c :: leq(a, b) && leq(b, c) ==> leq(a, c))
  }

  lemma {:induction false} InsertIsPermutation<T>(x: T, s: seq<T>, leq: (T, T) -> bool)
    ensures multiset(Insert(x, s, leq)) == multiset{x} + multiset(s)
  {
    if s != [] && !leq(x, s[0]) {
      InsertIsPermutation(x, s[1..], leq);
      assert s == [s[0]] + s[1..];
    }
  }

  lemma {:induction false} InsertKeepsOrder<T(!new)>(x: T, s: seq<T>, leq: (T, T) -> bool)
    requires Preorder(leq) && Ordered(s, leq)
    ensures Ordered(Insert(x, s, leq), leq)
  {
    if s != [] && !leq(x, s[0]) {
      InsertKeepsOrder(x, s[1..], leq);
      InsertIsPermutation(x, s[1..], leq);
      var r := Insert(x, s[1..], leq);
      forall j | 0 <= j < |r| ensures leq(s[0], r[j]) {
        assert r[j] in multiset(r);
        assert r[j] == x || r[j] in s[1..];
      }
    }
  }

  lemma {:induction false} SortByIsPermutation<T>(s: seq<T>, leq: (T, T) -> bool)
    ensures multiset(SortBy(s, leq)) == multiset(s)
    ensures |SortBy(s, leq)| == |s|
  {
    if s != [] {
      SortByIsPermutation(s[1..], leq);
      InsertIsPermutation(s[0], SortBy(s[1..], leq), leq);
      assert s == [s[0]] + s[1..];
    }
    assert |multiset(SortBy(s, leq))| == |multiset(s)|;
  }

  lemma {:induction false} SortByOrders<T(!new)>(s: seq<T>, leq: (T, T) -> bool)
    requires Preorder(leq)
    ensures Ordered(SortBy(s, leq), leq)
  {
    if s != [] {
      SortByOrders(s[1..], leq);
      InsertKeepsOrder(s[0], SortBy(s[1..], leq), leq);
    }
  }

  /** No two different elements tie. */
  ghost predicate NoTies<T>(s: seq<T>, leq: (T, T) -> bool) {
    forall a, b :: a in s && b in s && leq(a, b) && leq(b, a) ==> a == b
  }

  lemma {:induction false} OrderedUnique<T(!new)>(a: seq<T>, b: seq<T>, leq: (T, T) -> bool)
    requires Ordered(a, leq) && Ordered(b, leq) && NoTies(a, leq) && Preorder(leq)
    requires multiset(a) == multiset(b)
    ensures a == b
  {
    assert |multiset(a)| == |a| && |multiset(b)| == |b|;
    if a != [] {
      OrderedHeadsAgree(a, b, leq);
      assert a == [a[0]] + a[1..] && b == [b[0]] + b[1..];
      assert multiset(a[1..]) == multiset(a) - multiset{a[0]};
      assert multiset(b[1..]) == multiset(b) - multiset{b[0]};
      OrderedUnique(a[1..], b[1..], leq);
    }
  }

  lemma OrderedHeadsAgree<T(!new)>(a: seq<T>, b: seq<T>, leq: (T, T) -> bool)
    requires Ordered(a, leq) && Ordered(b, leq) && NoTies(a, leq) && Preorder(leq)
    requires multiset(a) == multiset(b) && a != [] && b != []
    ensures a[0] == b[0]
  {
    var x, y := a[0], b[0];
    assert x in multiset(b) && y in multiset(a);
    var i :| 0 <= i < |b| && b[i] == x;
    var j :| 0 <= j < |a| && a[j] == y;
    assert leq(x, x) && leq(y, y);
  }

  /** Sorting lists with the same elements and no ties gives the same list. */
  lemma SortIgnoresOrder<T(!new)>(a: seq<T>, b: seq<T>, leq: (T, T) -> bool)
    requires Preorder(leq) && NoTies(a, leq) && multiset(a) == multiset(b)
    ensures SortBy(a, leq) == SortBy(b, leq)
  {
    SortByIsPermutation(a, leq);
    SortByIsPermutation(b, leq);
    SortByOrders(a, leq);
    SortByOrders(b, leq);
    var s := SortBy(a, leq);
    forall x | x in s ensures x in a {
      assert x in multiset(s) && x in multiset(a);
    }
    OrderedUnique(s, SortBy(b, leq), leq);
  }

  /** What is already in order stays as it is. */
  lemma {:induction false} SortOfOrdered<T(!new)>(s: seq<T>, leq: (T, T) -> bool)
    requires Preorder(leq) && Ordered(s, leq)
    ensures SortBy(s, leq) == s
  {
    if s != [] {
      SortOfOrdered(s[1..], leq);
      assert s == [s[0]] + s[1..];
    }
  }

  predicate AtMost(a: int, b: int) {
    a <= b
  }

  function Sorted(values: seq<int>): (r: seq<int>) {
    SortBy(values, AtMost)
  }

  lemma SortedFacts(values: seq<int>)
    ensures |Sorted(values)| == |values|
    ensures multiset(Sorted(values)) == multiset(values)
    ensures forall i, j :: 0 <= i < j < |values| ==> Sorted(values)[i] <= Sorted(values)[j]
    ensures forall x :: x in Sorted(values) <==> x in values
  {
    assert Preorder(AtMost);
    SortByIsPermutation(values, AtMost);
    SortByOrders(values, AtMost);
    assert forall x :: x in Sorted(values) <==> x in multiset(Sorted(values));
    assert forall x :: x in values <==> x in multiset(values);
  }

  lemma SortedIgnoresOrder(a: seq<int>, b: seq<int>)
    requires multiset(a) == multiset(b)
    ensures Sorted(a) == Sorted(b)
  {
    assert Preorder(AtMost);
    SortIgnoresOrder(a, b, AtMost);
  }

  // ---------------------------------------------------------------- nearest rank

  function CeilDiv(a: nat, b: nat): (r: nat)
    requires b > 0
    ensures r * b >= a && (r - 1) * b < a
  {
    (a + b - 1) / b
  }

  /** `max(0, ceil(n * num / den) - 1)`. */
  function RankIndex(n: nat, num: nat, den: nat): (index: nat)
    requires den > 0
  {
    var c := CeilDiv(n * num, den);
    if c == 0 then 0 else c - 1
  }

  lemma RankIndexInRange(n: nat, num: nat, den: nat)
    requires 0 < n && num <= den && den > 0
    ensures RankIndex(n, num, den) < n
  {
    var c := CeilDiv(n * num, den);
    if c > n {
      assert (c - 1) * den >= n * den by { Scale(n, c - 1, den); }
      assert n * num <= n * den by { Scale(num, den, n); }
    }
  }

  lemma Scale(a: int, b: int, k: nat)
    requires a <= b
    ensures a * k <= b * k && k * a <= k * b
  {
  }

  /** The nearest-rank percentile num/den of a list that is not empty. */
  function NearestRank(values: seq<int>, num: nat, den: nat): int
    requires values != [] && num <= den && den > 0
  {
    RankIndexInRange(|values|, num, den);
    SortedFacts(values);
    Sorted(values)[RankIndex(|values|, num, den)]
  }

  function CountAtMost(values: seq<int>, v: int): (c: nat)
    ensures c <= |values|
  {
    if values == [] then 0 else (if values[0] <= v then 1 else 0) + CountAtMost(values[1..], v)
  }

  function CountBelow(values: seq<int>, v: int): (c: nat)
    ensures c <= |values|
  {
    CountAtMost(values, v - 1)
  }

  lemma {:induction false} CountOfInsert(x: int, s: seq<int>, v: int)
    ensures CountAtMost(Insert(x, s, AtMost), v) == (if x <= v then 1 else 0) + CountAtMost(s, v)
  {
    if s != [] && s[0] < x { CountOfInsert(x, s[1..], v); }
  }

  lemma {:induction false} CountOfSorted(values: seq<int>, v: int)
    ensures CountAtMost(Sorted(values), v) == CountAtMost(values, v)
  {
    if values != [] {
      CountOfSorted(values[1..], v);
      CountOfInsert(values[0], Sorted(values[1..]), v);
    }
  }

  lemma {:induction false} CountOfConcat(a: seq<int>, b: seq<int>, v: int)
    ensures CountAtMost(a + b, v) == CountAtMost(a, v) + CountAtMost(b, v)
  {
    if a == [] {
      assert a + b == b;
    } else {
      CountOfConcat(a[1..], b, v);
      assert (a + b)[1..] == a[1..] + b;
    }
  }

  lemma {:induction false} CountAll(s: seq<int>, v: int)
    ensures (forall i :: 0 <= i < |s| ==> s[i] <= v) ==> CountAtMost(s, v) == |s|
    ensures (forall i :: 0 <= i < |s| ==> s[i] > v) ==> CountAtMost(s, v) == 0
  {
    if s != [] { CountAll(s[1..], v); }
  }

  lemma RankIndexBounds(n: nat, num: nat, den: nat)
    requires 0 < n && 0 < num && den > 0
    ensures RankIndex(n, num, den) * den < num * n <= (RankIndex(n, num, den) + 1) * den
  {
    Positive(n, num);
  }

  lemma RankFractions(atMost: nat, below: nat, k: nat, goal: int, den: nat)
    requires below <= k < atMost && k * den < goal <= (k + 1) * den
    ensures below * den < goal <= atMost * den
  {
    Scale(k + 1, atMost, den);
    Scale(below, k, den);
  }

  ghost predicate NonDecreasing(s: seq<int>) {
    forall i, j :: 0 <= i < j < |s| ==> s[i] <= s[j]
  }

  lemma AtLeastSoMany(s: seq<int>, k: nat)
    requires k < |s| && NonDecreasing(s)
    ensures CountAtMost(s, s[k]) >= k + 1
  {
    var front := s[..k + 1];
    assert s == front + s[k + 1..];
    CountOfConcat(front, s[k + 1..], s[k]);
    CountAll(front, s[k]);
  }

  lemma NoMoreBelow(s: seq<int>, k: nat)
    requires k < |s| && NonDecreasing(s)
    ensures CountAtMost(s, s[k] - 1) <= k
  {
    var back := s[k..];
    assert s == s[..k] + back;
    CountOfConcat(s[..k], back, s[k] - 1);
    CountAll(back, s[k] - 1);
  }

  lemma OrderStatisticAt(values: seq<int>, k: nat)
    requires k < |values| && |Sorted(values)| == |values|
    ensures var v := Sorted(values)[k];
            v in values && CountBelow(values, v) <= k < CountAtMost(values, v)
  {
    SortedFacts(values);
    var v := Sorted(values)[k];
    CountOfSorted(values, v);
    CountOfSorted(values, v - 1);
    AtLeastSoMany(Sorted(values), k);
    NoMoreBelow(Sorted(values), k);
  }

  /**
    A nearest rank is a true order statistic: at least the fraction num/den of the values lie at or
    below it, and less than that fraction lie strictly below it.
   */
  lemma NearestRankIsOrderStatistic(values: seq<int>, num: nat, den: nat)
    requires values != [] && 0 < num <= den
    ensures NearestRank(values, num, den) in values
    ensures CountBelow(values, NearestRank(values, num, den)) * den < num * |values|
         <= CountAtMost(values, NearestRank(values, num, den)) * den
  {
    var n := |values|;
    RankIndexInRange(n, num, den);
    RankIndexBounds(n, num, den);
    SortedFacts(values);
    OrderStatisticAt(values, RankIndex(n, num, den));
    var v := NearestRank(values, num, den);
    RankFractions(CountAtMost(values, v), CountBelow(values, v), RankIndex(n, num, den), num * n, den);
  }

  lemma Positive(a: int, b: int)
    requires a > 0 && b > 0
    ensures a * b > 0
  {
  }

  /** A higher percentile of the same values is never lower. */
  lemma NearestRankIsMonotone(values: seq<int>, num: nat, more: nat, den: nat)
    requires values != [] && num <= more <= den && den > 0
    ensures NearestRank(values, num, den) <= NearestRank(values, more, den)
  {
    var n := |values|;
    SortedFacts(values);
    RankIndexInRange(n, num, den);
    RankIndexInRange(n, more, den);
    var c, d := CeilDiv(n * num, den), CeilDiv(n * more, den);
    Scale(num, more, n);
    if d < c {
      Scale(d, c - 1, den);
    }
  }

  lemma NearestRankIgnoresOrder(a: seq<int>, b: seq<int>, num: nat, den: nat)
    requires a != [] && b != [] && num <= den && den > 0 && multiset(a) == multiset(b)
    ensures NearestRank(a, num, den) == NearestRank(b, num, den)
  {
    SortedIgnoresOrder(a, b);
    assert |multiset(a)| == |a| && |multiset(b)| == |b|;
  }
}
