/**
  What Python sees of a JSON value: `==` across Booleans and numbers, truth, and `int()`.

  A float is its exact value here. The doubles that arise from a token by rounding are values too.
 */
module PythonValues {
  import opened Wrappers
  import opened Unicode
  import opened CanonicalJson

  /**
    `==` in a normal form: `True == 1`, `False == 0` and `2.0 == 2`, so Booleans and integral floats
    become integers at every depth.
   */
  function Comparable(v: Json): Json {
    match v
    case JBool(b) => JInt(if b then 1 else 0)
    case JFloat(x) => if x.Floor as real == x then JInt(x.Floor) else v
    case JArr(items) => JArr(seq(|items|, i requires 0 <= i < |items| => Comparable(items[i])))
    case JObj(m) => JObj(map k | k in m :: Comparable(m[k]))
    case _ => v
  }

  predicate Equals(a: Json, b: Json) {
    Comparable(a) == Comparable(b)
  }

  /** `v == n` for an integer n. */
  predicate EqualsInt(v: Json, n: int) {
    Comparable(v) == JInt(n)
  }

  /** Equality with an integer, case by case. */
  lemma EqualsIntCases(v: Json, n: int)
    ensures EqualsInt(v, n) <==>
      v == JInt(n) || (v.JBool? && n == if v.b then 1 else 0) || (v.JFloat? && v.value == n as real)
  {
    if v.JFloat? && v.value == n as real { assert v.value.Floor == n; }
  }

  /** `bool(v)`. */
  predicate Truthy(v: Json) {
    match v
    case JNull => false
    case JBool(b) => b
    case JInt(i) => i != 0
    case JFloat(x) => x != 0.0
    case JStr(s) => s != []
    case JArr(items) => items != []
    case JObj(m) => m != map[]
  }

  /** Towards zero. */
  function Truncate(x: real): int {
    if x >= 0.0 then x.Floor else -((-x).Floor)
  }

  /** `int(v)`; the reading of a string is a parameter, and None is an exception. */
  function IntOf(parse: Text -> Option<int>, v: Json): Option<int> {
    match v
    case JBool(b) => Some(if b then 1 else 0)
    case JInt(i) => Some(i)
    case JFloat(x) => Some(Truncate(x))
    case JStr(s) => parse(s)
    case _ => None
  }

  /** Values that Python calls equal have the same truth, and the same `int()` when they are numbers. */
  lemma EqualNumbersReadAlike(parse: Text -> Option<int>, v: Json, n: int)
    requires EqualsInt(v, n)
    ensures IntOf(parse, v) == Some(n) && (Truthy(v) <==> n != 0)
  {
    EqualsIntCases(v, n);
    if v.JFloat? { assert v.value == n as real && (n as real).Floor == n && (-(n as real)).Floor == -n; }
  }

  /** Values of one type that compare equal are equal, unless they are containers. */
  predicate SameType(a: Json, b: Json) {
    match a
    case JNull => b.JNull?
    case JBool(_) => b.JBool?
    case JInt(_) => b.JInt?
    case JFloat(_) => b.JFloat?
    case JStr(_) => b.JStr?
    case JArr(_) => b.JArr?
    case JObj(_) => b.JObj?
  }

  predicate Scalar(v: Json) {
    !v.JArr? && !v.JObj?
  }

  lemma SameTypeEqual(a: Json, b: Json)
    requires Equals(a, b) && Scalar(a)
    ensures a == b <==> SameType(a, b)
  {
    if a.JFloat? && b.JFloat? && a.value.Floor as real == a.value {
      assert a.value == b.value;
    }
  }
}
