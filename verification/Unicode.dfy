/**
  Python strings as code points (lone surrogates included, as `str` allows them),
  bytes, the strict UTF-8 codec, and the two orders in which object keys can be sorted.
 */
module Unicode {
  import opened Wrappers

  type CodePoint = c: int | 0 <= c <= 0x10FFFF
  type Text = seq<CodePoint>
  type Byte = b: int | 0 <= b <= 0xFF
  type Bytes = seq<Byte>

  /** A string literal of the program text. `Back` makes it injective. */
  function T(s: string): (t: Text)
    ensures |t| == |s|
    ensures Back(t) == s
  {
    seq(|s|, i requires 0 <= i < |s| => s[i] as int)
  }

  function Back(t: Text): string {
    seq(|t|, i requires 0 <= i < |t| => if IsSurrogate(t[i]) then '?' else t[i] as char)
  }

  predicate IsSurrogate(c: CodePoint) {
    0xD800 <= c <= 0xDFFF
  }

  predicate NoSurrogates(t: Text) {
    forall i :: 0 <= i < |t| ==> !IsSurrogate(t[i])
  }

  // ---------------------------------------------------------------- UTF-8

  function EncodePoint(c: CodePoint): (b: Bytes)
    requires !IsSurrogate(c)
    ensures 1 <= |b| <= 4
  {
    if c < 0x80 then [c]
    else if c < 0x800 then [0xC0 + c / 64, 0x80 + c % 64]
    else if c < 0x1_0000 then [0xE0 + c / 64 / 64, 0x80 + c / 64 % 64, 0x80 + c % 64]
    else [0xF0 + c / 64 / 64 / 64, 0x80 + c / 64 / 64 % 64, 0x80 + c / 64 % 64, 0x80 + c % 64]
  }

  function Encode(t: Text): (b: Bytes)
    requires NoSurrogates(t)
    ensures |t| <= |b|
  {
    if t == [] then [] else EncodePoint(t[0]) + Encode(t[1..])
  }

  predicate IsTail(b: Byte) {
    0x80 <= b <= 0xBF
  }

  /** Append the six payload bits of a continuation byte. */
  function Low(high: int, tail: Byte): (c: int)
    ensures IsTail(tail) ==> c / 64 == high && c % 64 == tail - 0x80
  {
    high * 64 + (tail - 0x80)
  }

  /** The first code point of a byte string and its width; None where strict decoding raises. */
  function DecodePoint(b: Bytes): (r: Option<(CodePoint, nat)>)
    requires b != []
    ensures r.Some? ==> 1 <= r.value.1 <= |b|
  {
    var b0: int := b[0];
    if b0 < 0x80 then Some((b0, 1))
    else if 0xC2 <= b0 <= 0xDF && |b| >= 2 && IsTail(b[1]) then
      Some((Low(b0 - 0xC0, b[1]), 2))
    else if 0xE0 <= b0 <= 0xEF && |b| >= 3 && IsTail(b[1]) && IsTail(b[2])
            && (b0 == 0xE0 ==> b[1] >= 0xA0) && (b0 == 0xED ==> b[1] <= 0x9F) then
      Some((Low(Low(b0 - 0xE0, b[1]), b[2]), 3))
    else if 0xF0 <= b0 <= 0xF4 && |b| >= 4 && IsTail(b[1]) && IsTail(b[2]) && IsTail(b[3])
            && (b0 == 0xF0 ==> b[1] >= 0x90) && (b0 == 0xF4 ==> b[1] <= 0x8F) then
      Some((Low(Low(Low(b0 - 0xF0, b[1]), b[2]), b[3]), 4))
    else None
  }

  function Decode(b: Bytes): (r: Option<Text>) {
    if b == [] then Some([])
    else
      match DecodePoint(b)
      case None => None
      case Some((c, width)) =>
        match Decode(b[width..])
        case None => None
        case Some(t) => Some([c] + t)
  }

  lemma DecodePointOfEncode(c: CodePoint, rest: Bytes)
    requires !IsSurrogate(c)
    ensures DecodePoint(EncodePoint(c) + rest) == Some((c, |EncodePoint(c)|))
  {
    var b := EncodePoint(c);
    assert forall i :: 0 <= i < |b| ==> (b + rest)[i] == b[i];
    if 0x800 <= c {
      assert Low(c / 64, 0x80 + c % 64) == c;
      assert Low(c / 64 / 64, 0x80 + c / 64 % 64) == c / 64;
    }
  }

  lemma EncodePointOfDecode(b: Bytes)
    requires b != []
    requires DecodePoint(b).Some?
    ensures var (c, width) := DecodePoint(b).value;
            !IsSurrogate(c) && EncodePoint(c) == b[..width]
  {
    var (c, width) := DecodePoint(b).value;
    assert |EncodePoint(c)| == width;
    assert forall i :: 0 <= i < width ==> EncodePoint(c)[i] == b[i];
  }

  /** Strict decoding undoes encoding on every surrogate-free string. */
  lemma {:induction false} DecodeOfEncode(t: Text)
    requires NoSurrogates(t)
    ensures Decode(Encode(t)) == Some(t)
  {
    if t != [] {
      var head, tail := EncodePoint(t[0]), Encode(t[1..]);
      DecodePointOfEncode(t[0], tail);
      DecodeOfEncode(t[1..]);
      assert Encode(t) == head + tail && (head + tail)[|head|..] == tail;
      assert [t[0]] + t[1..] == t;
    }
  }

  /** What decoding reads first, and what it reads of the rest. */
  lemma DecodeFirst(b: Bytes) returns (c: CodePoint, width: nat, rest: Text)
    requires b != [] && Decode(b).Some?
    ensures 1 <= width <= |b| && !IsSurrogate(c) && EncodePoint(c) == b[..width]
    ensures Decode(b[width..]) == Some(rest) && Decode(b) == Some([c] + rest)
  {
    EncodePointOfDecode(b);
    c, width := DecodePoint(b).value.0, DecodePoint(b).value.1;
    rest := Decode(b[width..]).value;
  }

  lemma EncodeMore(c: CodePoint, rest: Text, head: Bytes, tail: Bytes)
    requires !IsSurrogate(c) && NoSurrogates(rest) && EncodePoint(c) == head && Encode(rest) == tail
    ensures NoSurrogates([c] + rest) && Encode([c] + rest) == head + tail
  {
    assert ([c] + rest)[1..] == rest;
  }

  lemma Rejoined(b: Bytes, width: nat)
    requires width <= |b|
    ensures b[..width] + b[width..] == b
  {
  }

  /** Every byte string that strict decoding accepts is the encoding of its own text. */
  lemma {:induction false} EncodeOfDecode(b: Bytes)
    requires Decode(b).Some?
    ensures NoSurrogates(Decode(b).value)
    ensures Encode(Decode(b).value) == b
  {
    if b != [] {
      var c, width, rest := DecodeFirst(b);
      EncodeOfDecode(b[width..]);
      EncodeMore(c, rest, b[..width], b[width..]);
      Rejoined(b, width);
    }
  }

  // ---------------------------------------------------------------- key orders

  /** Python's `<` on strings: lexicographic by code point. */
  predicate Less(a: Text, b: Text) {
    b != [] && (a == [] || a[0] < b[0] || (a[0] == b[0] && Less(a[1..], b[1..])))
  }

  lemma {:induction false} LessTransitive(a: Text, b: Text, c: Text)
    requires Less(a, b) && Less(b, c)
    ensures Less(a, c)
  {
    if a != [] && a[0] == b[0] == c[0] {
      LessTransitive(a[1..], b[1..], c[1..]);
    }
  }

  lemma {:induction false} LessTotal(a: Text, b: Text)
    ensures Less(a, b) || Less(b, a) || a == b
    ensures !(Less(a, b) && Less(b, a))
    ensures !Less(a, a)
  {
    if a != [] && b != [] && a[0] == b[0] {
      LessTotal(a[1..], b[1..]);
      assert a == [a[0]] + a[1..] && b == [b[0]] + b[1..];
    }
    if a != [] {
      LessTotal(a[1..], a[1..]);
    }
  }

  /** The UTF-16 code units of a string. */
  function Utf16(t: Text): (u: seq<int>)
    ensures |t| <= |u|
  {
    if t == [] then []
    else if t[0] < 0x1_0000 then [t[0]] + Utf16(t[1..])
    else [0xD800 + (t[0] - 0x1_0000) / 1024, 0xDC00 + (t[0] - 0x1_0000) % 1024] + Utf16(t[1..])
  }

  predicate UnitLess(a: seq<int>, b: seq<int>) {
    b != [] && (a == [] || a[0] < b[0] || (a[0] == b[0] && UnitLess(a[1..], b[1..])))
  }

  /** One code point lies in U+E000..U+FFFF and the other above the Basic Multilingual Plane. */
  predicate Astride(c: CodePoint, d: CodePoint) {
    (0xE000 <= c <= 0xFFFF && d >= 0x1_0000) || (0xE000 <= d <= 0xFFFF && c >= 0x1_0000)
  }

  /** The first code points at which the texts differ are astride. */
  predicate Straddles(a: Text, b: Text) {
    a != [] && b != [] && if a[0] == b[0] then Straddles(a[1..], b[1..]) else Astride(a[0], b[0])
  }

  /** The code units of one code point. */
  function Units(c: CodePoint): (u: seq<int>)
    ensures |u| == if c < 0x1_0000 then 1 else 2
  {
    if c < 0x1_0000 then [c] else [0xD800 + (c - 0x1_0000) / 1024, 0xDC00 + (c - 0x1_0000) % 1024]
  }

  lemma UnitsFirst(t: Text)
    requires t != []
    ensures Utf16(t) == Units(t[0]) + Utf16(t[1..])
  {
  }

  lemma SharedUnits(head: seq<int>, a: seq<int>, b: seq<int>)
    requires 1 <= |head| <= 2
    ensures UnitLess(head + a, head + b) <==> UnitLess(a, b)
  {
    assert (head + a)[1..] == head[1..] + a && (head + b)[1..] == head[1..] + b;
    if |head| == 2 {
      assert (head[1..] + a)[1..] == a && (head[1..] + b)[1..] == b;
    } else {
      assert head[1..] + a == a && head[1..] + b == b;
    }
  }

  /** Where two code points differ, their units decide, and they decide otherwise exactly when astride. */
  lemma DifferentUnits(c: CodePoint, d: CodePoint, a: seq<int>, b: seq<int>)
    requires c != d && !IsSurrogate(c) && !IsSurrogate(d)
    ensures UnitLess(Units(c) + a, Units(d) + b) <==> if Astride(c, d) then d < c else c < d
  {
    var u, v := Units(c) + a, Units(d) + b;
    assert u[0] == Units(c)[0] && v[0] == Units(d)[0];
    if u[0] == v[0] {
      assert u[1..][0] == Units(c)[1] && v[1..][0] == Units(d)[1];
    }
  }

  /**
    Sorting by code point and by UTF-16 code unit agree on two texts exactly when their first different
    code points are not astride.
   */
  lemma {:induction false} OrdersAgreeUnlessStraddling(a: Text, b: Text)
    requires NoSurrogates(a) && NoSurrogates(b)
    ensures (Less(a, b) <==> UnitLess(Utf16(a), Utf16(b))) <==> !Straddles(a, b)
  {
    if a != [] && b != [] {
      UnitsFirst(a);
      UnitsFirst(b);
      if a[0] == b[0] {
        SharedUnits(Units(a[0]), Utf16(a[1..]), Utf16(b[1..]));
        OrdersAgreeUnlessStraddling(a[1..], b[1..]);
      } else {
        DifferentUnits(a[0], b[0], Utf16(a[1..]), Utf16(b[1..]));
      }
    }
  }

  ghost predicate StrictlyIncreasing(keys: seq<Text>) {
    forall i, j :: 0 <= i < j < |keys| ==> Less(keys[i], keys[j])
  }

  predicate IsLeast(k: Text, keys: set<Text>) {
    k in keys && forall o :: o in keys && o != k ==> Less(k, o)
  }

  lemma {:induction false} LeastExists(keys: set<Text>) returns (least: Text)
    requires keys != {}
    ensures IsLeast(least, keys)
  {
    var k :| k in keys;
    var rest := keys - {k};
    if rest == {} {
      least := k;
      assert forall o :: o in keys && o != k ==> o in rest;
    } else {
      var other := LeastExists(rest);
      LessTotal(other, k);
      if Less(k, other) {
        least := k;
        forall o | o in keys && o != k ensures Less(k, o) {
          assert o in rest;
          if o != other { LessTransitive(k, other, o); }
        }
      } else {
        least := other;
        assert forall o :: o in keys && o != other ==> o == k || o in rest;
      }
    }
  }

  lemma LeastUnique(keys: set<Text>)
    requires keys != {}
    ensures exists k :: IsLeast(k, keys)
    ensures forall j, k :: IsLeast(j, keys) && IsLeast(k, keys) ==> j == k
  {
    var least := LeastExists(keys);
    forall j, k | IsLeast(j, keys) && IsLeast(k, keys) ensures j == k {
      LessTotal(j, k);
    }
  }

  function Least(keys: set<Text>): (k: Text)
    requires keys != {}
    ensures IsLeast(k, keys)
  {
    LeastUnique(keys);
    var k :| k in keys && IsLeast(k, keys);
    k
  }

  /** `sorted(keys)`: the keys in strictly increasing code-point order. */
  function SortedKeys(keys: set<Text>): (r: seq<Text>)
    ensures forall k :: k in r <==> k in keys
    ensures StrictlyIncreasing(r)
    ensures |r| == |keys|
  {
    if keys == {} then [] else
      var k := Least(keys);
      [k] + SortedKeys(keys - {k})
  }
}
