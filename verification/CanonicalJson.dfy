/**
  Canonical JSON: the checks of `_safe_json`, the printer of `canonical_bytes`, and the
  duplicate-rejecting loader of `_load_json_bytes` with the grammar of Python's `json`
  scanner written out.

  A Python dict compares without regard to insertion order, so an object is a map. Booleans
  and integers are different values here, and a float is the exact value of its decimal token.
 */
module CanonicalJson {
  import opened Wrappers
  import opened Unicode

  datatype Json =
    | JNull
    | JBool(b: bool)
    | JInt(i: int)
    | JFloat(value: real)
    | JStr(s: Text)
    | JArr(items: seq<Json>)
    | JObj(members: map<Text, Json>)

  const MAX_SAFE_INTEGER: int := 9_007_199_254_740_991

  /** `_safe_json` returns (rather than raising `unsupported_json`). */
  predicate Safe(v: Json) {
    match v
    case JNull => true
    case JBool(_) => true
    case JInt(i) => -MAX_SAFE_INTEGER <= i <= MAX_SAFE_INTEGER
    case JFloat(_) => false
    case JStr(s) => NoSurrogates(s)
    case JArr(items) => forall k :: 0 <= k < |items| ==> Safe(items[k])
    case JObj(m) => forall k :: k in m ==> NoSurrogates(k) && Safe(m[k])
  }

  // ---------------------------------------------------------------- printer

  const QUOTE: CodePoint := 0x22
  const BACKSLASH: CodePoint := 0x5C
  const COMMA: CodePoint := 0x2C
  const COLON: CodePoint := 0x3A
  const MINUS: CodePoint := 0x2D
  const DOT: CodePoint := 0x2E
  const OPEN_ARRAY: CodePoint := 0x5B
  const CLOSE_ARRAY: CodePoint := 0x5D
  const OPEN_OBJECT: CodePoint := 0x7B
  const CLOSE_OBJECT: CodePoint := 0x7D

  function Digits(n: nat): (t: Text)
    ensures t != [] && forall k :: 0 <= k < |t| ==> IsDigit(t[k])
    ensures t[0] == 0x30 ==> n == 0 && t == [0x30]
  {
    if n < 10 then [0x30 + n] else Digits(n / 10) + [0x30 + n % 10]
  }

  function RenderInt(i: int): Text {
    if i < 0 then [MINUS] + Digits(-i) else Digits(i)
  }

  function HexDigit(d: int): CodePoint
    requires 0 <= d < 16
  {
    if d < 10 then 0x30 + d else 0x61 + d - 10
  }

  /** The escape table of `json.dumps(ensure_ascii=False)`. */
  function EscapeChar(c: CodePoint): Text {
    if c == QUOTE then [BACKSLASH, QUOTE]
    else if c == BACKSLASH then [BACKSLASH, BACKSLASH]
    else if c == 0x08 then [BACKSLASH, 0x62]
    else if c == 0x0C then [BACKSLASH, 0x66]
    else if c == 0x0A then [BACKSLASH, 0x6E]
    else if c == 0x0D then [BACKSLASH, 0x72]
    else if c == 0x09 then [BACKSLASH, 0x74]
    else if c < 0x20 then [BACKSLASH, 0x75, 0x30, 0x30, HexDigit(c / 16), HexDigit(c % 16)]
    else [c]
  }

  function Escape(s: Text): Text {
    if s == [] then [] else EscapeChar(s[0]) + Escape(s[1..])
  }

  function RenderString(s: Text): Text {
    [QUOTE] + Escape(s) + [QUOTE]
  }

  function Render(v: Json): Text
    requires Safe(v)
    decreases v, 1
  {
    match v
    case JNull => T("null")
    case JBool(b) => if b then T("true") else T("false")
    case JInt(i) => RenderInt(i)
    case JStr(s) => RenderString(s)
    case JArr(items) => [OPEN_ARRAY] + RenderItems(v, items) + [CLOSE_ARRAY]
    case JObj(m) => [OPEN_OBJECT] + RenderMembers(v, SortedKeys(m.Keys)) + [CLOSE_OBJECT]
  }

  function RenderItems(whole: Json, items: seq<Json>): Text
    requires forall k :: 0 <= k < |items| ==> Safe(items[k]) && items[k] < whole
    decreases whole, 0, |items|
  {
    if items == [] then []
    else if |items| == 1 then Render(items[0])
    else Render(items[0]) + [COMMA] + RenderItems(whole, items[1..])
  }

  /** The members of an object under the given keys, as `"key":value` joined by commas. */
  function RenderMembers(whole: Json, keys: seq<Text>): Text
    requires whole.JObj? && Safe(whole)
    requires forall k :: k in keys ==> k in whole.members
    decreases whole, 0, |keys|
  {
    if keys == [] then []
    else
      var first := RenderString(keys[0]) + [COLON] + Render(whole.members[keys[0]]);
      if |keys| == 1 then first else first + [COMMA] + RenderMembers(whole, keys[1..])
  }

  function CanonicalBytes(v: Json): (r: Result<Bytes>) {
    if !Safe(v) then Fail("unsupported_json")
    else if NoSurrogates(Render(v)) then Ok(Encode(Render(v)))
    else Fail("unsupported_json")
  }

  // ---------------------------------------------------------------- scanner

  predicate IsDigit(c: CodePoint) {
    0x30 <= c <= 0x39
  }

  predicate IsSpace(c: CodePoint) {
    c == 0x20 || c == 0x09 || c == 0x0A || c == 0x0D
  }

  function SkipSpace(s: Text): (r: Text)
    ensures |r| <= |s|
  {
    if s != [] && IsSpace(s[0]) then SkipSpace(s[1..]) else s
  }

  /** The longest run of digits, and what follows it. */
  function SpanDigits(s: Text): (r: (Text, Text))
    ensures r.0 + r.1 == s
  {
    if s != [] && IsDigit(s[0]) then
      var (d, rest) := SpanDigits(s[1..]);
      ([s[0]] + d, rest)
    else ([], s)
  }

  function Value(digits: Text): nat
    requires forall k :: 0 <= k < |digits| ==> IsDigit(digits[k])
  {
    if digits == [] then 0
    else
      assert IsDigit(digits[|digits| - 1]);
      10 * Value(digits[..|digits| - 1]) + (digits[|digits| - 1] as int - 0x30)
  }

  lemma {:induction false} SpanIsDigits(s: Text)
    ensures forall k :: 0 <= k < |SpanDigits(s).0| ==> IsDigit(SpanDigits(s).0[k])
  {
    if s != [] && IsDigit(s[0]) { SpanIsDigits(s[1..]); }
  }

  /** The optional fraction `\.\d+`; empty when it does not match. */
  function SpanFraction(s: Text): (r: (Text, Text))
    ensures r.0 + r.1 == s
  {
    if s != [] && s[0] == DOT && SpanDigits(s[1..]).0 != [] then
      var (d, rest) := SpanDigits(s[1..]);
      ([DOT] + d, rest)
    else ([], s)
  }

  /** The optional exponent `[eE][-+]?\d+`; empty when it does not match. */
  function SpanExponent(s: Text): (r: (Text, Text))
    ensures r.0 + r.1 == s
  {
    if s == [] || (s[0] != 0x65 && s[0] != 0x45) then ([], s)
    else
      var signed := |s| > 1 && (s[1] == MINUS || s[1] == 0x2B);
      var head := if signed then 2 else 1;
      var (d, rest) := SpanDigits(s[head..]);
      if d == [] then ([], s) else (s[..head] + d, rest)
  }

  /** The integer part `0|[1-9]\d*`. */
  function SpanInteger(s: Text): (r: (Text, Text))
    requires s != [] && IsDigit(s[0])
    ensures r.0 + r.1 == s && |r.1| < |s|
    ensures forall k :: 0 <= k < |r.0| ==> IsDigit(r.0[k])
  {
    SpanIsDigits(s);
    if s[0] == 0x30 then (s[..1], s[1..]) else SpanDigits(s)
  }

  /** The value of a run of digits; a run that is none counts as zero. */
  function NumberOf(digits: Text): nat {
    if forall k :: 0 <= k < |digits| ==> IsDigit(digits[k]) then Value(digits) else 0
  }

  /** x times ten to the e. */
  function Shift(x: real, e: int): real
    decreases if e < 0 then -e else e
  {
    if e == 0 then x else if e > 0 then Shift(x * 10.0, e - 1) else Shift(x / 10.0, e + 1)
  }

  /** The power that an exponent such as `e-7` stands for; zero when there is none. */
  function ExponentOf(exponent: Text): int {
    if |exponent| < 2 then 0
    else if exponent[1] == MINUS then 0 - NumberOf(exponent[2..])
    else if exponent[1] == 0x2B then NumberOf(exponent[2..])
    else NumberOf(exponent[1..])
  }

  /** The exact value of a decimal token. */
  function FloatOf(negative: bool, digits: Text, fraction: Text, exponent: Text): real {
    var places := if fraction == [] then [] else fraction[1..];
    var size := Shift(NumberOf(digits + places) as real, ExponentOf(exponent) - |places|);
    if negative then -size else size
  }

  /** A number token: an integer, or a float. */
  function ParseNumber(s: Text): (r: Result<(Json, Text)>)
    ensures r.Ok? ==> |r.value.1| < |s|
  {
    var negative := s != [] && s[0] == MINUS;
    var body := if negative then s[1..] else s;
    if body == [] || !IsDigit(body[0]) then Fail("json")
    else
      var (digits, rest) := SpanInteger(body);
      var (fraction, rest1) := SpanFraction(rest);
      var (exponent, rest2) := SpanExponent(rest1);
      assert |rest2| <= |rest1| <= |rest| by {
        assert fraction + rest1 == rest && exponent + rest2 == rest1;
      }
      if fraction == [] && exponent == [] then
        var n: int := Value(digits);
        Ok((JInt(if negative then -n else n), rest2))
      else
        Ok((JFloat(FloatOf(negative, digits, fraction, exponent)), rest2))
  }

  function HexValue(c: CodePoint): (r: Option<int>)
    ensures r.Some? ==> 0 <= r.value < 16
  {
    if IsDigit(c) then Some(c - 0x30)
    else if 0x61 <= c <= 0x66 then Some(c - 0x61 + 10)
    else if 0x41 <= c <= 0x46 then Some(c - 0x41 + 10)
    else None
  }

  function Hex4(s: Text): (r: Option<CodePoint>)
    ensures r.Some? ==> |s| >= 4 && r.value <= 0xFFFF
  {
    if |s| < 4 then None
    else
      match (HexValue(s[0]), HexValue(s[1]), HexValue(s[2]), HexValue(s[3]))
      case (Some(a), Some(b), Some(c), Some(d)) => Some(((a * 16 + b) * 16 + c) * 16 + d)
      case _ => None
  }

  /** What follows a backslash. A high and a low `\u` escape in a row join into one code point. */
  function ParseEscape(s: Text): (r: Result<(CodePoint, Text)>)
    ensures r.Ok? ==> |r.value.1| < |s|
  {
    if s == [] then Fail("json")
    else if s[0] == 0x75 then
      match Hex4(s[1..])
      case None => Fail("json")
      case Some(high) =>
        if 0xD800 <= high <= 0xDBFF && |s| >= 7 && s[5] == BACKSLASH && s[6] == 0x75 then
          match Hex4(s[7..])
          case None => Fail("json")
          case Some(low) =>
            if 0xDC00 <= low <= 0xDFFF then
              Ok((0x1_0000 + (high - 0xD800) * 1024 + (low - 0xDC00), s[11..]))
            else Ok((high, s[5..]))
        else Ok((high, s[5..]))
    else if s[0] == QUOTE || s[0] == BACKSLASH || s[0] == 0x2F then Ok((s[0], s[1..]))
    else if s[0] == 0x62 then Ok((0x08, s[1..]))
    else if s[0] == 0x66 then Ok((0x0C, s[1..]))
    else if s[0] == 0x6E then Ok((0x0A, s[1..]))
    else if s[0] == 0x72 then Ok((0x0D, s[1..]))
    else if s[0] == 0x74 then Ok((0x09, s[1..]))
    else Fail("json")
  }

  /** The rest of a string literal, after its opening quote. */
  function ParseString(s: Text): (r: Result<(Text, Text)>)
    ensures r.Ok? ==> |r.value.1| < |s|
  {
    if s == [] then Fail("json")
    else if s[0] == QUOTE then Ok(([], s[1..]))
    else if s[0] == BACKSLASH then
      var (c, rest) :- ParseEscape(s[1..]);
      var (t, rest2) :- ParseString(rest);
      Ok(([c] + t, rest2))
    else if s[0] < 0x20 then Fail("json")
    else
      var (t, rest) :- ParseString(s[1..]);
      Ok(([s[0]] + t, rest))
  }

  /** `closed_object`: the dict of a pair list, or the duplicate-key failure. */
  function ClosedObject(pairs: seq<(Text, Json)>): (r: Result<map<Text, Json>>) {
    if pairs == [] then Ok(map[])
    else
      var last := |pairs| - 1;
      var m :- ClosedObject(pairs[..last]);
      if pairs[last].0 in m then Fail("duplicate_json_key") else Ok(m[pairs[last].0 := pairs[last].1])
  }

  function ParseValue(s: Text): (r: Result<(Json, Text)>)
    ensures r.Ok? ==> |r.value.1| < |s|
    decreases |s|, 0
  {
    if s == [] then Fail("json")
    else if s[0] == QUOTE then
      var (t, rest) :- ParseString(s[1..]);
      Ok((JStr(t), rest))
    else if s[0] == OPEN_OBJECT then ParseObject(SkipSpace(s[1..]))
    else if s[0] == OPEN_ARRAY then ParseArray(SkipSpace(s[1..]))
    else if T("null") <= s then Ok((JNull, s[4..]))
    else if T("true") <= s then Ok((JBool(true), s[4..]))
    else if T("false") <= s then Ok((JBool(false), s[5..]))
    else ParseNumber(s)  // NaN and the infinities fail with the same category
  }

  /** The rest of an object, after its brace and any white space. */
  function ParseObject(t: Text): (r: Result<(Json, Text)>)
    ensures r.Ok? ==> |r.value.1| < |t|
    decreases |t|, 2
  {
    if t != [] && t[0] == CLOSE_OBJECT then Ok((JObj(map[]), t[1..]))
    else
      var (pairs, rest) :- ParseMembers(t);
      var m :- ClosedObject(pairs);
      Ok((JObj(m), rest))
  }

  /** The rest of an array, after its bracket and any white space. */
  function ParseArray(t: Text): (r: Result<(Json, Text)>)
    ensures r.Ok? ==> |r.value.1| < |t|
    decreases |t|, 2
  {
    if t != [] && t[0] == CLOSE_ARRAY then Ok((JArr([]), t[1..]))
    else
      var (items, rest) :- ParseElements(t);
      Ok((JArr(items), rest))
  }

  /** One or more values separated by commas, up to and including the closing bracket. */
  function ParseElements(s: Text): (r: Result<(seq<Json>, Text)>)
    ensures r.Ok? ==> |r.value.1| < |s|
    decreases |s|, 1
  {
    var (v, rest) :- ParseValue(s);
    var t := SkipSpace(rest);
    if t != [] && t[0] == CLOSE_ARRAY then Ok(([v], t[1..]))
    else if t != [] && t[0] == COMMA then
      var (more, rest2) :- ParseElements(SkipSpace(t[1..]));
      Ok(([v] + more, rest2))
    else Fail("json")
  }

  /** One or more members separated by commas, up to and including the closing brace. */
  function ParseMembers(s: Text): (r: Result<(seq<(Text, Json)>, Text)>)
    ensures r.Ok? ==> |r.value.1| < |s|
    decreases |s|, 1
  {
    var (member, u) :- ParseMember(s);
    if u != [] && u[0] == CLOSE_OBJECT then Ok(([member], u[1..]))
    else if u != [] && u[0] == COMMA then
      var (more, rest) :- ParseMembers(SkipSpace(u[1..]));
      Ok(([member] + more, rest))
    else Fail("json")
  }

  /** One member, with the white space after it skipped. */
  function ParseMember(s: Text): (r: Result<((Text, Json), Text)>)
    ensures r.Ok? ==> |r.value.1| < |s|
    decreases |s|, 0
  {
    if s == [] || s[0] != QUOTE then Fail("json")
    else
      var (key, rest) :- ParseString(s[1..]);
      var t := SkipSpace(rest);
      if t == [] || t[0] != COLON then Fail("json")
      else
        var (v, rest2) :- ParseValue(SkipSpace(t[1..]));
        Ok(((key, v), SkipSpace(rest2)))
  }

  /** `_load_json_bytes`: strict UTF-8, no byte order mark, one value, nothing after it. */
  function LoadJson(payload: Bytes): (r: Result<Json>) {
    match Decode(payload)
    case None => Fail("json")
    case Some(text) =>
      if text != [] && text[0] == 0xFEFF then Fail("json")
      else
        var (v, rest) :- ParseValue(SkipSpace(text));
        if SkipSpace(rest) == [] then Ok(v) else Fail("json")
  }

  // ---------------------------------------------------------------- printed text

  lemma {:induction false} EscapeNoSurrogates(s: Text)
    requires NoSurrogates(s)
    ensures NoSurrogates(Escape(s))
  {
    if s != [] { EscapeNoSurrogates(s[1..]); }
  }

  lemma RenderStringNoSurrogates(s: Text)
    requires NoSurrogates(s)
    ensures NoSurrogates(RenderString(s))
  {
    EscapeNoSurrogates(s);
  }

  lemma {:induction false} RenderNoSurrogates(v: Json)
    requires Safe(v)
    ensures NoSurrogates(Render(v))
    decreases v, 1
  {
    match v
    case JStr(s) => RenderStringNoSurrogates(s);
    case JArr(items) => RenderItemsNoSurrogates(v, items);
    case JObj(m) => RenderMembersNoSurrogates(v, SortedKeys(m.Keys));
    case _ =>
  }

  lemma {:induction false} RenderItemsNoSurrogates(whole: Json, items: seq<Json>)
    requires forall k :: 0 <= k < |items| ==> Safe(items[k]) && items[k] < whole
    ensures NoSurrogates(RenderItems(whole, items))
    decreases whole, 0, |items|
  {
    if items != [] {
      RenderNoSurrogates(items[0]);
      RenderItemsNoSurrogates(whole, items[1..]);
    }
  }

  lemma {:induction false} RenderMembersNoSurrogates(whole: Json, keys: seq<Text>)
    requires whole.JObj? && Safe(whole)
    requires forall k :: k in keys ==> k in whole.members
    ensures NoSurrogates(RenderMembers(whole, keys))
    decreases whole, 0, |keys|
  {
    if keys != [] {
      RenderStringNoSurrogates(keys[0]);
      RenderNoSurrogates(whole.members[keys[0]]);
      RenderMembersNoSurrogates(whole, keys[1..]);
    }
  }

  /** Printing never fails on a value that `_safe_json` accepts, and only there succeeds. */
  lemma CanonicalBytesTotal(v: Json)
    ensures CanonicalBytes(v).Ok? <==> Safe(v)
    ensures Safe(v) ==> CanonicalBytes(v) == Ok(Encode(Render(v)))
  {
    if Safe(v) { RenderNoSurrogates(v); }
  }

  // ---------------------------------------------------------------- reading back

  lemma {:induction false} ParseEscaped(s: Text, rest: Text)
    ensures ParseString(Escape(s) + [QUOTE] + rest) == Ok((s, rest))
  {
    if s == [] {
      assert Escape(s) + [QUOTE] + rest == [QUOTE] + rest;
    } else {
      var head, tail := EscapeChar(s[0]), Escape(s[1..]) + [QUOTE] + rest;
      assert Escape(s) + [QUOTE] + rest == head + tail;
      ParseEscaped(s[1..], rest);
      ParseEscapedChar(s[0], tail);
      assert [s[0]] + s[1..] == s;
    }
  }

  lemma ParseEscapeOfEscape(c: CodePoint, tail: Text)
    requires EscapeChar(c) != [c]
    ensures ParseEscape(EscapeChar(c)[1..] + tail) == Ok((c, tail))
  {
    var s := EscapeChar(c)[1..] + tail;
    if |EscapeChar(c)| == 2 {
      assert s[1..] == tail;
    } else {
      assert EscapeChar(c) == [BACKSLASH, 0x75, 0x30, 0x30, HexDigit(c / 16), HexDigit(c % 16)];
      assert s[1..] == [0x30, 0x30, HexDigit(c / 16), HexDigit(c % 16)] + tail;
      assert HexValue(HexDigit(c / 16)) == Some(c / 16) && HexValue(HexDigit(c % 16)) == Some(c % 16);
      assert Hex4(s[1..]) == Some(c);
      assert s[5..] == tail;
    }
  }

  lemma ParseEscapedChar(c: CodePoint, tail: Text)
    requires ParseString(tail).Ok?
    ensures ParseString(EscapeChar(c) + tail)
         == Ok(([c] + ParseString(tail).value.0, ParseString(tail).value.1))
  {
    var s := EscapeChar(c) + tail;
    if EscapeChar(c) == [c] {
      assert s[1..] == tail;
    } else {
      ParseEscapeOfEscape(c, tail);
      assert s[1..] == EscapeChar(c)[1..] + tail;
    }
  }

  /** Text after which a number token has ended. */
  predicate Ends(rest: Text) {
    rest == [] || !(IsDigit(rest[0]) || rest[0] == DOT || rest[0] == 0x65 || rest[0] == 0x45)
  }

  lemma {:induction false} SpanOfDigits(d: Text, rest: Text)
    requires forall k :: 0 <= k < |d| ==> IsDigit(d[k])
    requires Ends(rest)
    ensures SpanDigits(d + rest) == (d, rest)
  {
    if d == [] {
      assert d + rest == rest;
    } else {
      SpanOfDigits(d[1..], rest);
      assert (d + rest)[1..] == d[1..] + rest;
      assert [d[0]] + d[1..] == d;
    }
  }

  lemma {:induction false} ValueOfDigits(n: nat)
    ensures Value(Digits(n)) == n
  {
    var d := Digits(n);
    if n < 10 {
      assert d[..0] == [];
    } else {
      ValueOfDigits(n / 10);
      assert d[..|d| - 1] == Digits(n / 10);
    }
  }

  lemma NoFloatPart(rest: Text)
    requires Ends(rest)
    ensures SpanFraction(rest) == ([], rest) && SpanExponent(rest) == ([], rest)
  {
  }

  lemma SpanRenderedInteger(n: nat, rest: Text)
    requires Ends(rest)
    ensures SpanInteger(Digits(n) + rest) == (Digits(n), rest)
  {
    var d := Digits(n);
    assert (d + rest)[0] == d[0];
    if d[0] == 0x30 {
      assert (d + rest)[..1] == d && (d + rest)[1..] == rest;
    } else {
      SpanOfDigits(d, rest);
    }
  }

  lemma ParseNumberBody(s: Text, n: nat, rest: Text)
    requires Ends(rest)
    requires s == Digits(n) + rest || s == [MINUS] + (Digits(n) + rest)
    ensures ParseNumber(s) == Ok((JInt(if s[0] == MINUS then -(n as int) else n), rest))
  {
    SpanRenderedInteger(n, rest);
    NoFloatPart(rest);
    ValueOfDigits(n);
    var body := Digits(n) + rest;
    assert body[0] == Digits(n)[0];
    if s[0] == MINUS { assert s[1..] == body; }
  }

  lemma ParseRenderedInt(i: int, rest: Text)
    requires Ends(rest)
    ensures ParseNumber(RenderInt(i) + rest) == Ok((JInt(i), rest))
  {
    var s := RenderInt(i) + rest;
    if i < 0 {
      assert s == [MINUS] + (Digits(-i) + rest);
      ParseNumberBody(s, -i, rest);
    } else {
      assert s[0] == Digits(i)[0];
      ParseNumberBody(s, i, rest);
    }
  }

  /** The first character of printed text: enough to pick the parser's branch. */
  lemma RenderHead(v: Json)
    requires Safe(v)
    ensures Render(v) != []
    ensures var c := Render(v)[0];
            !IsSpace(c) && c != CLOSE_ARRAY && c != CLOSE_OBJECT && c != COMMA
  {
    match v
    case JInt(i) => assert IsDigit(Digits(if i < 0 then -i else i)[0]);
    case _ =>
  }

  lemma SkipNothing(s: Text)
    requires s != [] ==> !IsSpace(s[0])
    ensures SkipSpace(s) == s
  {
  }

  lemma ParseRenderedLiteral(v: Json, rest: Text)
    requires v.JNull? || v.JBool?
    ensures ParseValue(Render(v) + rest) == Ok((v, rest))
  {
    var s := Render(v) + rest;
    assert T("null")[0] == 0x6E && T("true")[0] == 0x74 && T("false")[0] == 0x66;
    assert Render(v) <= s && s[0] == Render(v)[0];
    assert s[|Render(v)|..] == rest;
  }

  lemma ParseValueOfNumber(s: Text)
    requires s != [] && (s[0] == MINUS || IsDigit(s[0]))
    ensures ParseValue(s) == ParseNumber(s)
  {
    LiteralsNeedALetter(s);
    assert s[0] != QUOTE && s[0] != OPEN_OBJECT && s[0] != OPEN_ARRAY;
  }

  lemma LiteralsNeedALetter(s: Text)
    requires s != [] && s[0] != 0x6E && s[0] != 0x74 && s[0] != 0x66
    ensures !(T("null") <= s) && !(T("true") <= s) && !(T("false") <= s)
  {
    assert T("null")[0] == 0x6E && T("true")[0] == 0x74 && T("false")[0] == 0x66;
  }

  lemma {:induction false} ParseRendered(v: Json, rest: Text)
    requires Safe(v) && Ends(rest)
    ensures ParseValue(Render(v) + rest) == Ok((v, rest))
    decreases v, 1
  {
    match v
    case JInt(i) =>
      assert IsDigit(Digits(if i < 0 then -i else i)[0]);
      ParseValueOfNumber(RenderInt(i) + rest);
      ParseRenderedInt(i, rest);
    case JStr(t) =>
      ParseEscaped(t, rest);
      assert (RenderString(t) + rest)[1..] == Escape(t) + [QUOTE] + rest;
    case JArr(items) => ParseRenderedArray(v, rest);
    case JObj(m) => ParseRenderedObject(v, rest);
    case _ => ParseRenderedLiteral(v, rest);
  }

  lemma {:induction false} ParseRenderedArray(v: Json, rest: Text)
    requires v.JArr? && Safe(v)
    ensures ParseValue(Render(v) + rest) == Ok((v, rest))
    decreases v, 0
  {
    var s := Render(v) + rest;
    var inner := RenderItems(v, v.items) + [CLOSE_ARRAY] + rest;
    assert s[1..] == inner;
    if v.items == [] {
      assert inner == [CLOSE_ARRAY] + rest;
      SkipNothing(inner);
    } else {
      RenderHead(v.items[0]);
      assert inner[0] == Render(v.items[0])[0];
      SkipNothing(inner);
      ParseRenderedItems(v, v.items, rest, inner);
    }
  }

  lemma Regroup(a: Text, b: Text, c: Text, d: Text, e: Text)
    ensures (a + b + c) + d + e == a + (b + (c + d + e))
  {
  }

  lemma ParseLastElement(text: Text, v: Json, rest: Text)
    requires ParseValue(text) == Ok((v, [CLOSE_ARRAY] + rest))
    ensures ParseElements(text) == Ok(([v], rest))
  {
    SkipNothing([CLOSE_ARRAY] + rest);
    assert ([CLOSE_ARRAY] + rest)[1..] == rest;
  }

  lemma ParseFirstElement(text: Text, v: Json, more: Text, items: seq<Json>, rest: Text)
    requires ParseValue(text) == Ok((v, [COMMA] + more))
    requires more != [] && !IsSpace(more[0])
    requires ParseElements(more) == Ok((items, rest))
    ensures ParseElements(text) == Ok(([v] + items, rest))
  {
    SkipNothing([COMMA] + more);
    SkipNothing(more);
    assert ([COMMA] + more)[1..] == more;
  }

  /** `s` is the text of the items, the bracket after them and the rest. */
  lemma {:induction false} ParseRenderedItems(whole: Json, items: seq<Json>, rest: Text, s: Text)
    requires items != []
    requires forall k :: 0 <= k < |items| ==> Safe(items[k]) && items[k] < whole
    requires s == RenderItems(whole, items) + [CLOSE_ARRAY] + rest
    ensures ParseElements(s) == Ok((items, rest))
    decreases whole, 0, |items|
  {
    var first := items[0];
    if |items| == 1 {
      Associates(Render(first), [CLOSE_ARRAY], rest);
      ParseRendered(first, [CLOSE_ARRAY] + rest);
      ParseLastElement(s, first, rest);
      assert items == [first];
    } else {
      var tail := RenderItems(whole, items[1..]) + [CLOSE_ARRAY] + rest;
      Regroup(Render(first), [COMMA], RenderItems(whole, items[1..]), [CLOSE_ARRAY], rest);
      ParseRendered(first, [COMMA] + tail);
      ParseRenderedItems(whole, items[1..], rest, tail);
      ItemsHead(whole, items[1..], rest);
      ParseFirstElement(s, first, tail, items[1..], rest);
      assert items == [first] + items[1..];
    }
  }

  lemma Associates(a: Text, b: Text, c: Text)
    ensures (a + b) + c == a + (b + c)
  {
  }

  /** What follows a comma starts with neither a space nor nothing. */
  lemma ItemsHead(whole: Json, items: seq<Json>, rest: Text)
    requires items != [] && forall k :: 0 <= k < |items| ==> Safe(items[k]) && items[k] < whole
    ensures var tail := RenderItems(whole, items) + [CLOSE_ARRAY] + rest;
            tail != [] && !IsSpace(tail[0])
  {
    RenderHead(items[0]);
    assert RenderItems(whole, items)[0] == Render(items[0])[0];
  }

  /** The pair list that the parser collects for the given keys. */
  function Pairs<V>(m: map<Text, V>, keys: seq<Text>): (r: seq<(Text, V)>)
    requires forall k :: k in keys ==> k in m
    ensures |r| == |keys|
  {
    if keys == [] then [] else [(keys[0], m[keys[0]])] + Pairs(m, keys[1..])
  }

  /** The text of one member, before what separates it from the next. */
  function RenderMember(key: Text, v: Json): Text
    requires Safe(v)
  {
    RenderString(key) + [COLON] + Render(v)
  }

  lemma ParseMemberBy(s: Text, key: Text, valueOn: Text, v: Json, tail: Text)
    requires s != [] && s[0] == QUOTE && ParseString(s[1..]) == Ok((key, [COLON] + valueOn))
    requires valueOn != [] && !IsSpace(valueOn[0]) && ParseValue(valueOn) == Ok((v, tail))
    requires tail != [] && !IsSpace(tail[0])
    ensures ParseMember(s) == Ok(((key, v), tail))
  {
    var colonOn := [COLON] + valueOn;
    SkipNothing(colonOn);
    assert colonOn[1..] == valueOn;
    SkipNothing(valueOn);
    SkipNothing(tail);
  }

  lemma QuotedMember(escaped: Text, value: Text, tail: Text)
    ensures var s := ([QUOTE] + escaped + [QUOTE]) + [COLON] + value + tail;
            s[0] == QUOTE && s[1..] == escaped + [QUOTE] + ([COLON] + (value + tail))
    ensures value != [] ==> (value + tail)[0] == value[0]
  {
  }

  lemma ParseOneMember(key: Text, v: Json, tail: Text)
    requires Safe(v) && ParseValue(Render(v) + tail) == Ok((v, tail))
    requires tail != [] && !IsSpace(tail[0])
    ensures ParseMember(RenderMember(key, v) + tail) == Ok(((key, v), tail))
  {
    var s, valueOn := RenderMember(key, v) + tail, Render(v) + tail;
    QuotedMember(Escape(key), Render(v), tail);
    ParseEscaped(key, [COLON] + valueOn);
    RenderHead(v);
    ParseMemberBy(s, key, valueOn, v, tail);
  }

  lemma ParseLastMember(text: Text, member: (Text, Json), rest: Text)
    requires ParseMember(text) == Ok((member, [CLOSE_OBJECT] + rest))
    ensures ParseMembers(text) == Ok(([member], rest))
  {
    assert ([CLOSE_OBJECT] + rest)[1..] == rest;
  }

  lemma ParseFirstMember(text: Text, member: (Text, Json), more: Text, pairs: seq<(Text, Json)>, rest: Text)
    requires ParseMember(text) == Ok((member, [COMMA] + more))
    requires more != [] && !IsSpace(more[0])
    requires ParseMembers(more) == Ok((pairs, rest))
    ensures ParseMembers(text) == Ok(([member] + pairs, rest))
  {
    SkipNothing(more);
    assert ([COMMA] + more)[1..] == more;
  }

  /** The text of the members starts with the quote of the first key. */
  lemma MembersHead(whole: Json, keys: seq<Text>, rest: Text)
    requires whole.JObj? && Safe(whole) && keys != []
    requires forall k :: k in keys ==> k in whole.members
    ensures var tail := RenderMembers(whole, keys) + [CLOSE_OBJECT] + rest;
            tail != [] && tail[0] == QUOTE
  {
  }

  /** `s` is the text of the members, the brace after them and the rest. */
  lemma {:induction false} ParseRenderedMembers(whole: Json, keys: seq<Text>, rest: Text, s: Text)
    requires whole.JObj? && Safe(whole) && keys != []
    requires forall k :: k in keys ==> k in whole.members
    requires s == RenderMembers(whole, keys) + [CLOSE_OBJECT] + rest
    ensures ParseMembers(s) == Ok((Pairs(whole.members, keys), rest))
    decreases whole, 0, |keys|
  {
    var key, v := keys[0], whole.members[keys[0]];
    if |keys| == 1 {
      Associates(RenderMember(key, v), [CLOSE_OBJECT], rest);
      ParseRendered(v, [CLOSE_OBJECT] + rest);
      ParseOneMember(key, v, [CLOSE_OBJECT] + rest);
      ParseLastMember(s, (key, v), rest);
      assert Pairs(whole.members, keys) == [(key, v)];
    } else {
      var tail := RenderMembers(whole, keys[1..]) + [CLOSE_OBJECT] + rest;
      Regroup(RenderMember(key, v), [COMMA], RenderMembers(whole, keys[1..]), [CLOSE_OBJECT], rest);
      ParseRendered(v, [COMMA] + tail);
      ParseOneMember(key, v, [COMMA] + tail);
      ParseRenderedMembers(whole, keys[1..], rest, tail);
      MembersHead(whole, keys[1..], rest);
      ParseFirstMember(s, (key, v), tail, Pairs(whole.members, keys[1..]), rest);
    }
  }

  lemma ParseObjectOfMembers(inner: Text, pairs: seq<(Text, Json)>, m: map<Text, Json>, rest: Text)
    requires inner != [] && inner[0] == QUOTE
    requires ParseMembers(inner) == Ok((pairs, rest))
    requires ClosedObject(pairs) == Ok(m)
    ensures ParseValue([OPEN_OBJECT] + inner) == Ok((JObj(m), rest))
  {
    SkipNothing(inner);
    assert ([OPEN_OBJECT] + inner)[1..] == inner;
  }

  lemma ParseEmptyObject(rest: Text)
    ensures ParseValue([OPEN_OBJECT] + ([CLOSE_OBJECT] + rest)) == Ok((JObj(map[]), rest))
  {
    var inner := [CLOSE_OBJECT] + rest;
    SkipNothing(inner);
    assert ([OPEN_OBJECT] + inner)[1..] == inner && inner[1..] == rest;
  }

  lemma {:induction false} ParseRenderedObject(v: Json, rest: Text)
    requires v.JObj? && Safe(v)
    ensures ParseValue(Render(v) + rest) == Ok((v, rest))
    decreases v, 0
  {
    var keys := SortedKeys(v.members.Keys);
    var inner := RenderMembers(v, keys) + [CLOSE_OBJECT] + rest;
    assert Render(v) + rest == [OPEN_OBJECT] + inner;
    if keys == [] {
      assert inner == [CLOSE_OBJECT] + rest;
      ParseEmptyObject(rest);
      assert v.members == map[];
    } else {
      assert inner[0] == QUOTE;
      ParseRenderedMembers(v, keys, rest, inner);
      ClosedObjectOfSorted(v.members);
      ParseObjectOfMembers(inner, Pairs(v.members, keys), v.members, rest);
    }
  }

  lemma {:induction false} PairsAt<V>(m: map<Text, V>, keys: seq<Text>, i: nat)
    requires forall k :: k in keys ==> k in m
    requires i < |keys|
    ensures Pairs(m, keys)[i] == (keys[i], m[keys[i]])
  {
    if i > 0 { PairsAt(m, keys[1..], i - 1); }
  }

  lemma {:induction false} ClosedPairs(pairs: seq<(Text, Json)>)
    requires forall i, j :: 0 <= i < j < |pairs| ==> pairs[i].0 != pairs[j].0
    ensures ClosedObject(pairs).Ok?
    ensures forall k :: k in ClosedObject(pairs).value <==> exists i :: 0 <= i < |pairs| && pairs[i].0 == k
    ensures forall i :: 0 <= i < |pairs| ==> ClosedObject(pairs).value[pairs[i].0] == pairs[i].1
  {
    if pairs != [] {
      ClosedPairs(pairs[..|pairs| - 1]);
    }
  }

  lemma ClosedObjectOf(pairs: seq<(Text, Json)>, m: map<Text, Json>)
    requires forall i, j :: 0 <= i < j < |pairs| ==> pairs[i].0 != pairs[j].0
    requires forall i :: 0 <= i < |pairs| ==> pairs[i].0 in m && pairs[i].1 == m[pairs[i].0]
    requires forall k :: k in m ==> exists i :: 0 <= i < |pairs| && pairs[i].0 == k
    ensures ClosedObject(pairs) == Ok(m)
  {
    ClosedPairs(pairs);
    assert ClosedObject(pairs).value == m;
  }

  lemma ClosedObjectOfSorted(m: map<Text, Json>)
    ensures ClosedObject(Pairs(m, SortedKeys(m.Keys))) == Ok(m)
  {
    var keys := SortedKeys(m.Keys);
    var pairs := Pairs(m, keys);
    forall i | 0 <= i < |pairs| ensures pairs[i] == (keys[i], m[keys[i]]) {
      PairsAt(m, keys, i);
    }
    forall i, j | 0 <= i < j < |pairs| ensures pairs[i].0 != pairs[j].0 {
      LessTotal(keys[i], keys[j]);
    }
    forall k | k in m ensures exists i :: 0 <= i < |pairs| && pairs[i].0 == k {
      assert k in keys;
      var i :| 0 <= i < |keys| && keys[i] == k;
      assert pairs[i].0 == k;
    }
    ClosedObjectOf(pairs, m);
  }

  // ---------------------------------------------------------------- main results

  /** Loading the canonical bytes of an accepted value returns that value. */
  lemma LoadOfCanonical(v: Json)
    requires Safe(v)
    ensures CanonicalBytes(v).Ok?
    ensures LoadJson(CanonicalBytes(v).value) == Ok(v)
  {
    CanonicalBytesTotal(v);
    RenderNoSurrogates(v);
    DecodeOfEncode(Render(v));
    RenderHead(v);
    SkipNothing(Render(v));
    ParseRendered(v, []);
    assert Render(v) + [] == Render(v);
    RenderNoBom(v);
  }

  lemma RenderNoBom(v: Json)
    requires Safe(v)
    ensures Render(v) != [] && Render(v)[0] != 0xFEFF
  {
    match v
    case JInt(i) => assert IsDigit(Digits(if i < 0 then -i else i)[0]);
    case _ =>
  }

  /** Two accepted values have the same canonical bytes exactly when they are the same value. */
  lemma CanonicalInjective(v: Json, w: Json)
    requires Safe(v) && Safe(w)
    ensures CanonicalBytes(v) == CanonicalBytes(w) <==> v == w
  {
    LoadOfCanonical(v);
    LoadOfCanonical(w);
  }

  // ---------------------------------------------------------------- member order

  /** The dict that results from inserting the pairs in order. */
  function Dict<V>(pairs: seq<(Text, V)>): map<Text, V> {
    if pairs == [] then map[]
    else Dict(pairs[..|pairs| - 1])[pairs[|pairs| - 1].0 := pairs[|pairs| - 1].1]
  }

  ghost predicate DistinctKeys<V>(pairs: seq<(Text, V)>) {
    forall i, j :: 0 <= i < j < |pairs| ==> pairs[i].0 != pairs[j].0
  }

  ghost predicate KeysIncrease<V>(pairs: seq<(Text, V)>) {
    forall i, j :: 0 <= i < j < |pairs| ==> Less(pairs[i].0, pairs[j].0)
  }

  lemma {:induction false} DictOfDistinct<V>(pairs: seq<(Text, V)>)
    requires DistinctKeys(pairs)
    ensures forall k :: k in Dict(pairs) <==> exists i :: 0 <= i < |pairs| && pairs[i].0 == k
    ensures forall i :: 0 <= i < |pairs| ==> Dict(pairs)[pairs[i].0] == pairs[i].1
  {
    if pairs != [] { DictOfDistinct(pairs[..|pairs| - 1]); }
  }

  lemma IncreasingHeadsAgree<V(!new)>(a: seq<(Text, V)>, b: seq<(Text, V)>)
    requires KeysIncrease(a) && KeysIncrease(b) && a != [] && b != []
    requires multiset(a) == multiset(b)
    ensures a[0] == b[0]
  {
    var x, y := a[0], b[0];
    assert x in multiset(b) && y in multiset(a);
    var i :| 0 <= i < |b| && b[i] == x;
    var j :| 0 <= j < |a| && a[j] == y;
    LessTotal(x.0, y.0);
  }

  lemma {:induction false} IncreasingPairsUnique<V(!new)>(a: seq<(Text, V)>, b: seq<(Text, V)>)
    requires KeysIncrease(a) && KeysIncrease(b)
    requires multiset(a) == multiset(b)
    ensures a == b
  {
    if a == [] {
      assert |multiset(b)| == 0;
    } else {
      assert |multiset(a)| == |a| && |multiset(b)| == |b|;
      IncreasingHeadsAgree(a, b);
      assert a == [a[0]] + a[1..] && b == [b[0]] + b[1..];
      assert multiset(a[1..]) == multiset(a) - multiset{a[0]};
      assert multiset(b[1..]) == multiset(b) - multiset{b[0]};
      IncreasingPairsUnique(a[1..], b[1..]);
    }
  }

  lemma PairsOfSorted<V(!new)>(m: map<Text, V>)
    ensures KeysIncrease(Pairs(m, SortedKeys(m.Keys)))
    ensures DistinctKeys(Pairs(m, SortedKeys(m.Keys)))
    ensures forall k, v :: (k, v) in Pairs(m, SortedKeys(m.Keys)) <==> k in m && m[k] == v
  {
    var keys := SortedKeys(m.Keys);
    var pairs := Pairs(m, keys);
    forall i | 0 <= i < |pairs| ensures pairs[i] == (keys[i], m[keys[i]]) { PairsAt(m, keys, i); }
    forall i, j | 0 <= i < j < |pairs| ensures Less(pairs[i].0, pairs[j].0) && pairs[i].0 != pairs[j].0 {
      LessTotal(keys[i], keys[j]);
    }
    forall k, v ensures (k, v) in pairs <==> k in m && m[k] == v {
      if k in m && m[k] == v {
        assert k in keys;
        var i :| 0 <= i < |keys| && keys[i] == k;
        assert pairs[i] == (k, v);
      }
      if (k, v) in pairs {
        var i :| 0 <= i < |pairs| && pairs[i] == (k, v);
        assert keys[i] in keys;
      }
    }
  }

  /**
    `sort_keys=True`: whatever order the members were inserted in, sorting the items of the dict
    by key yields the one list that `Render` prints, and so the printed text is the same.
   */
  lemma SortedItemsIgnoreInsertionOrder<V(!new)>(inserted: seq<(Text, V)>, sorted: seq<(Text, V)>)
    requires DistinctKeys(inserted)
    requires multiset(sorted) == multiset(inserted) && KeysIncrease(sorted)
    ensures sorted == Pairs(Dict(inserted), SortedKeys(Dict(inserted).Keys))
  {
    var m := Dict(inserted);
    var pairs := Pairs(m, SortedKeys(m.Keys));
    DictOfDistinct(inserted);
    PairsOfSorted(m);
    forall p ensures multiset(inserted)[p] == multiset(pairs)[p] {
      assert p in inserted <==> p in pairs by {
        if p in inserted { var i :| 0 <= i < |inserted|
            && inserted[i] == p; assert m[p.0] == p.1; assert (p.0, p.1) in pairs; }
        if p in pairs { assert (p.0, p.1) in pairs; var i :| 0 <= i < |inserted| && inserted[i].0 == p.0; }
      }
      AtMostOnce(inserted, p);
      AtMostOnce(pairs, p);
      assert p in multiset(inserted) <==> p in inserted;
      assert p in multiset(pairs) <==> p in pairs;
    }
    assert multiset(inserted) == multiset(pairs);
    IncreasingPairsUnique(sorted, pairs);
  }

  lemma {:induction false} AtMostOnce<V>(pairs: seq<(Text, V)>, p: (Text, V))
    requires DistinctKeys(pairs)
    ensures multiset(pairs)[p] <= 1
  {
    if pairs != [] {
      AtMostOnce(pairs[1..], p);
      assert pairs == [pairs[0]] + pairs[1..];
    }
  }

  /** The keys are in strictly increasing UTF-16 code-unit order. */
  ghost predicate UnitsIncrease(pairs: seq<(Text, Json)>) {
    forall i, j :: 0 <= i < j < |pairs| ==> UnitLess(Utf16(pairs[i].0), Utf16(pairs[j].0))
  }

  /** Two keys of the object are first told apart by code points that are astride. */
  ghost predicate HasStraddle(m: map<Text, Json>) {
    exists k, l :: k in m && l in m && Straddles(k, l)
  }

  /**
    Scanning the canonical text of an object meets its members in strictly increasing code-point
    order of their keys. That is the UTF-16 code-unit order of section 3.2.3 of RFC 8785 exactly when
    no two keys straddle the end of the Basic Multilingual Plane. Nested objects are printed the same
    way.
   */
  lemma KeysEmittedInOrder(v: Json)
    requires Safe(v) && v.JObj? && v.members != map[]
    ensures var scanned := ParseMembers(Render(v)[1..]);
            && scanned.Ok? && scanned.value.1 == []
            && KeysIncrease(scanned.value.0)
            && (forall k, x :: (k, x) in scanned.value.0 <==> k in v.members && v.members[k] == x)
            && (UnitsIncrease(scanned.value.0) <==> !HasStraddle(v.members))
  {
    ScanRendered(v);
    PairsOfSorted(v.members);
    UnitOrderIffNoStraddle(v.members, Pairs(v.members, SortedKeys(v.members.Keys)));
  }

  lemma UnitOrderIffNoStraddle(m: map<Text, Json>, pairs: seq<(Text, Json)>)
    requires KeysIncrease(pairs) && forall k :: k in m ==> NoSurrogates(k)
    requires forall k, x :: (k, x) in pairs <==> k in m && m[k] == x
    ensures UnitsIncrease(pairs) <==> !HasStraddle(m)
  {
    forall i, j | 0 <= i < j < |pairs|
      ensures UnitLess(Utf16(pairs[i].0), Utf16(pairs[j].0)) <==> !Straddles(pairs[i].0, pairs[j].0)
      ensures pairs[i].0 in m && pairs[j].0 in m
    {
      PairIsMember(m, pairs, i);
      PairIsMember(m, pairs, j);
      OrdersAgreeUnlessStraddling(pairs[i].0, pairs[j].0);
    }
    if HasStraddle(m) {
      var k, l :| k in m && l in m && Straddles(k, l);
      assert (k, m[k]) in pairs && (l, m[l]) in pairs;
      var i :| 0 <= i < |pairs| && pairs[i] == (k, m[k]);
      var j :| 0 <= j < |pairs| && pairs[j] == (l, m[l]);
      StraddlingIsSymmetric(k, l);
      assert i != j;
    }
  }

  lemma PairIsMember(m: map<Text, Json>, pairs: seq<(Text, Json)>, i: nat)
    requires i < |pairs| && forall k, x :: (k, x) in pairs ==> k in m
    ensures pairs[i].0 in m
  {
    assert (pairs[i].0, pairs[i].1) == pairs[i];
  }

  lemma {:induction false} StraddlingIsSymmetric(a: Text, b: Text)
    ensures Straddles(a, b) <==> Straddles(b, a)
    ensures Straddles(a, b) ==> a != b
  {
    if a != [] && b != [] && a[0] == b[0] { StraddlingIsSymmetric(a[1..], b[1..]); }
  }

  /** An object of two keys whose canonical bytes are not in the order of section 3.2.3 of RFC 8785. */
  lemma MisorderedObject(v: Json)
    requires v == JObj(map[[0xFF61] := JNull, [0x1_F600] := JNull])
    ensures Safe(v) && CanonicalBytes(v).Ok?
    ensures var scanned := ParseMembers(Render(v)[1..]); scanned.Ok? && !UnitsIncrease(scanned.value.0)
  {
    TwoKeys(v);
    CanonicalBytesTotal(v);
    KeysEmittedInOrder(v);
  }

  lemma TwoKeys(v: Json)
    requires v == JObj(map[[0xFF61] := JNull, [0x1_F600] := JNull])
    ensures Safe(v) && v.members != map[] && HasStraddle(v.members)
  {
    var m := v.members;
    assert [0xFF61] in m && [0x1_F600] in m && Straddles([0xFF61], [0x1_F600]);
  }

  lemma ScanRendered(v: Json)
    requires Safe(v) && v.JObj? && v.members != map[]
    ensures ParseMembers(Render(v)[1..]) == Ok((Pairs(v.members, SortedKeys(v.members.Keys)), []))
  {
    var keys := SortedKeys(v.members.Keys);
    assert |keys| != 0;
    ParseRenderedMembers(v, keys, [], RenderMembers(v, keys) + [CLOSE_OBJECT] + []);
    WithoutBrace(RenderMembers(v, keys));
  }

  lemma WithoutBrace(inner: Text)
    ensures ([OPEN_OBJECT] + inner + [CLOSE_OBJECT])[1..] == inner + [CLOSE_OBJECT] + []
  {
  }
}
