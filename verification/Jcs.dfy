/**
  The values that `canonical_sha256` tells apart: JSON under RFC 8785, where a float equal to an integer
  within the safe range prints as that integer, and integers beyond the range are refused.
 */
module Jcs {
  import opened Wrappers
  import opened Unicode
  import opened CanonicalJson
  import opened PythonValues

  /** The value has canonical bytes: safe integers, and no lone surrogates in strings or names. */
  predicate Hashable(v: Json) {
    match v
    case JInt(i) => -MAX_SAFE_INTEGER <= i <= MAX_SAFE_INTEGER
    case JStr(s) => NoSurrogates(s)
    case JArr(items) => forall k :: 0 <= k < |items| ==> Hashable(items[k])
    case JObj(m) => forall k :: k in m ==> NoSurrogates(k) && Hashable(m[k])
    case _ => true
  }

  /** The float prints as an integer that is itself accepted. */
  predicate PrintsAsInteger(x: real) {
    x.Floor as real == x && -MAX_SAFE_INTEGER <= x.Floor <= MAX_SAFE_INTEGER
  }

  /** The value up to its canonical bytes. */
  function Canonical(v: Json): Json {
    match v
    case JFloat(x) => if PrintsAsInteger(x) then JInt(x.Floor) else v
    case JArr(items) => JArr(seq(|items|, i requires 0 <= i < |items| => Canonical(items[i])))
    case JObj(m) => JObj(map k | k in m :: Canonical(m[k]))
    case _ => v
  }

  /** Being canonical changes nothing for Python's `==`. */
  lemma {:induction false} CanonicalIsComparable(v: Json)
    ensures Comparable(Canonical(v)) == Comparable(v)
  {
    match v
    case JArr(items) =>
      var c := Canonical(v);
      forall i | 0 <= i < |items| ensures Comparable(c).items[i] == Comparable(v).items[i] {
        CanonicalIsComparable(items[i]);
      }
      assert Comparable(c).items == Comparable(v).items;
    case JObj(m) =>
      var c := Canonical(v);
      assert Comparable(c).members.Keys == m.Keys && Comparable(v).members.Keys == m.Keys;
      forall k | k in m ensures Comparable(c).members[k] == Comparable(v).members[k] {
        CanonicalIsComparable(m[k]);
      }
      assert Comparable(c).members == Comparable(v).members;
    case _ =>
  }

  /** What has the same canonical bytes is equal in Python. */
  lemma SameBytesMeansEqual(v: Json, w: Json)
    requires Canonical(v) == Canonical(w)
    ensures Equals(v, w)
  {
    CanonicalIsComparable(v);
    CanonicalIsComparable(w);
  }

  /** Equal scalars have the same canonical bytes unless one is a Boolean and the other a number. */
  lemma EqualScalarsHashAlike(v: Json, w: Json)
    requires Scalar(v) && Hashable(v) && Hashable(w) && Equals(v, w)
    ensures Canonical(v) == Canonical(w) <==> v.JBool? == w.JBool?
  {
    match v
    case JInt(i) => EqualsIntCases(w, i);
    case JBool(b) => EqualsIntCases(w, if b then 1 else 0);
    case JFloat(x) =>
      if w.JInt? { EqualsIntCases(v, w.i); }
    case _ =>
  }

  // ---------------------------------------------------------------- reading a canonical value

  lemma CanonicalString(v: Json, s: Text)
    ensures Canonical(v) == JStr(s) <==> v == JStr(s)
  {
  }

  lemma CanonicalNumberReads(parse: Text -> Option<int>, x: real)
    requires PrintsAsInteger(x)
    ensures IntOf(parse, JFloat(x)) == Some(x.Floor) && (x != 0.0 <==> x.Floor != 0)
  {
    if x < 0.0 { assert (-x).Floor == -x.Floor; }
  }

  /** Truth and `int()` depend on the canonical value only. */
  lemma CanonicalReadsAlike(parse: Text -> Option<int>, v: Json)
    ensures Truthy(Canonical(v)) == Truthy(v) && IntOf(parse, Canonical(v)) == IntOf(parse, v)
  {
    match v
    case JFloat(x) => if PrintsAsInteger(x) { CanonicalNumberReads(parse, x); }
    case JObj(m) => assert Canonical(v).members.Keys == m.Keys;
    case _ =>
  }

  /** So does a list of strings. */
  lemma CanonicalStrings(v: Json, w: Json)
    requires v.JArr? && w.JArr? && Canonical(v) == Canonical(w)
    requires forall i :: 0 <= i < |v.items| ==> v.items[i].JStr?
    ensures v == w
  {
    assert |v.items| == |Canonical(v).items| == |w.items|;
    forall i | 0 <= i < |v.items| ensures v.items[i] == w.items[i] {
      assert Canonical(v).items[i] == Canonical(v.items[i]) && Canonical(w).items[i] == Canonical(w.items[i]);
      CanonicalString(w.items[i], v.items[i].s);
    }
    assert v.items == w.items;
  }
}
