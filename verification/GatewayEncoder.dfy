/** The byte-level encoder and the two integer and object hooks, as the gateway runs them. */
module GatewayEncoder {
  import opened Arithmetic
  import opened Strings
  import opened Wrappers
  import opened Json
  import opened CanonicalJson
  import opened JsonReader
  import opened ObjectGraph
  import opened GatewayPreflight
  import Utf8

  type Bytes = Utf8.Bytes

  // ---------------------------------------------------------------- integers

  function Reverse(s: Bytes): Bytes {
    if s == [] then [] else Reverse(s[1..]) + [s[0]]
  }

  lemma {:induction false} ReverseAppend(s: Bytes, x: Utf8.Byte)
    ensures Reverse(s + [x]) == [x] + Reverse(s)
  {
    if s != [] {
      ReverseAppend(s[1..], x);
      assert (s + [x])[1..] == s[1..] + [x];
    }
  }

  /** The digits still to be divided out. */
  function Pending(m: nat): Text {
    if m > 0 then DigitText(Digits(m)) else []
  }

  lemma PendingStep(m: nat, done: Text)
    requires m > 0
    ensures Pending(m) + done == Pending(m / 10) + ([ZERO + m % 10] + done)
  {
    assert Pending(m) == Pending(m / 10) + [ZERO + m % 10];
  }

  /** Divides out decimal digits from the low end, then reverses them. */
  method EncodeInteger(value: int) returns (encoded: Bytes)
    ensures encoded == PrintInteger(value)
  {
    if value == 0 { return [0x30]; }
    var magnitude: nat := if value < 0 then -value else value;
    ghost var all := Pending(magnitude);
    var reversed: Bytes := [];
    while magnitude > 0
      invariant all == Pending(magnitude) + Reverse(reversed)
    {
      var digit := magnitude % 10;
      PendingStep(magnitude, Reverse(reversed));
      ReverseAppend(reversed, 0x30 + digit);
      reversed := reversed + [0x30 + digit];
      magnitude := magnitude / 10;
    }
    assert all == Reverse(reversed);
    encoded := (if value < 0 then [0x2D] else []) + Reverse(reversed);
  }

  /** The integer hook on a token: early exit as soon as a prefix is too wide. */
  method ParseInteger(token: Text) returns (r: Result<int, Fault>)
    requires var body := if token != [] && token[0] == MINUS then token[1..] else token;
      forall i :: 0 <= i < |body| ==> IsDigit(body[i])
    ensures var negative := token != [] && token[0] == MINUS;
      r == IntegerHook(negative, DigitsOf(if negative then token[1..] else token))
  {
    var negative := token != [] && token[0] == MINUS;
    var digits := if negative then token[1..] else token;
    ghost var ds := DigitsOf(digits);
    if |digits| > MAX_INTEGER_DECIMAL_DIGITS { return Err(ResourceLimit); }
    var magnitude: nat := 0;
    var i := 0;
    while i < |digits|
      invariant i <= |digits| && magnitude == Numeral(ds[..i])
      invariant BitLength(magnitude) <= MAX_INTEGER_BITS
    {
      magnitude := 10 * magnitude + (digits[i] - ZERO);
      assert ds[..i + 1][..i] == ds[..i];
      i := i + 1;
      if BitLength(magnitude) > MAX_INTEGER_BITS {
        ValueOfPrefix(ds, i);
        BitLengthBound(magnitude, MAX_INTEGER_BITS);
        BitLengthBound(Numeral(ds), MAX_INTEGER_BITS);
        return Err(ResourceLimit);
      }
    }
    assert ds[..i] == ds;
    r := Ok(if negative then -(magnitude as int) else magnitude as int);
  }

  function DigitOf(c: CodePoint): Digit
    requires IsDigit(c)
  {
    c - ZERO
  }

  function DigitsOf(t: Text): (ds: seq<Digit>)
    requires forall i :: 0 <= i < |t| ==> IsDigit(t[i])
    ensures |ds| == |t|
  {
    seq(|t|, i requires 0 <= i < |t| => DigitOf(t[i]))
  }

  /** The object hook: fills a dict and stops at a repeated key. */
  method ObjectFromPairs(pairs: seq<Pair>) returns (r: Result<map<Text, Json>, Fault>)
    ensures r == ObjectHook(pairs)
  {
    var value: map<Text, Json> := map[];
    var i := 0;
    while i < |pairs|
      invariant i <= |pairs| && ObjectHook(pairs[..i]) == Ok(value)
    {
      assert pairs[..i + 1][..i] == pairs[..i];
      if pairs[i].key in value {
        ObjectHookStops(pairs, i + 1);
        return Err(DuplicateKey);
      }
      value := value[pairs[i].key := pairs[i].child];
      i := i + 1;
    }
    assert pairs[..i] == pairs;
    r := Ok(value);
  }

  lemma {:induction false} ObjectHookStops(pairs: seq<Pair>, i: nat)
    requires i <= |pairs| && ObjectHook(pairs[..i]).Err?
    ensures ObjectHook(pairs) == ObjectHook(pairs[..i])
  {
    if i == |pairs| {
      assert pairs[..i] == pairs;
    } else {
      var front := pairs[..|pairs| - 1];
      assert front[..i] == pairs[..i];
      ObjectHookStops(front, i);
    }
  }

  function KeysOfPairs(pairs: seq<Pair>): seq<Text> {
    seq(|pairs|, i requires 0 <= i < |pairs| => pairs[i].key)
  }

  /** The object hook accepts exactly the duplicate-free pair lists, and loses nothing of them. */
  lemma {:induction false} ObjectHookExact(pairs: seq<Pair>)
    ensures ObjectHook(pairs).Ok? <==> Distinct(KeysOfPairs(pairs))
    ensures ObjectHook(pairs).Err? ==> ObjectHook(pairs).error == DuplicateKey
    ensures ObjectHook(pairs).Ok? ==> var m := ObjectHook(pairs).value;
      m.Keys == Elements(KeysOfPairs(pairs)) &&
      forall i :: 0 <= i < |pairs| ==> pairs[i].key in m && m[pairs[i].key] == pairs[i].child
  {
    hide ObjectHook;
    ObjectHookEmpty();
    if pairs != [] {
      var n := |pairs| - 1;
      var front, ks := pairs[..n], KeysOfPairs(pairs);
      ObjectHookExact(front);
      ObjectHookUnfold(front, pairs[n]);
      assert pairs == front + [pairs[n]];
      assert KeysOfPairs(front) == ks[..n];
      assert ks == ks[..n] + [ks[n]];
      if ObjectHook(front).Ok? && ks[n] in ObjectHook(front).value {
        var i :| 0 <= i < n && ks[..n][i] == ks[n];
        assert ks[i] == ks[n];
      }
    }
  }

  // ----------------------------------------------------------------- strings

  lemma {:induction false} EscapeAllAppend(s: Text, c: CodePoint)
    ensures EscapeAll(s + [c]) == EscapeAll(s) + Escape(c)
  {
    if s == [] {
      assert s + [c] == [c];
      assert EscapeAll([c]) == Escape(c) + EscapeAll([]);
    } else {
      EscapeAllAppend(s[1..], c);
      assert (s + [c])[0] == s[0] && (s + [c])[1..] == s[1..] + [c];
    }
  }

  lemma EscapeEncodable(c: CodePoint)
    requires !IsSurrogate(c)
    ensures Encodable(Escape(c))
  {
  }

  lemma {:induction false} EscapeAllEncodable(s: Text)
    requires Encodable(s)
    ensures Encodable(EscapeAll(s))
  {
    if s != [] {
      EscapeEncodable(s[0]);
      EscapeAllEncodable(s[1..]);
    }
  }

  /** The bytes of one character inside a literal. */
  method EncodeCharacter(c: CodePoint) returns (out: Bytes)
    requires !IsSurrogate(c)
    ensures Encodable(Escape(c)) && out == Utf8.Encode(Escape(c))
  {
    EscapeEncodable(c);
    if c == 0x22 { out := [0x5C, 0x22]; }
    else if c == 0x5C { out := [0x5C, 0x5C]; }
    else if c == 0x08 { out := [0x5C, 0x62]; }
    else if c == 0x09 { out := [0x5C, 0x74]; }
    else if c == 0x0A { out := [0x5C, 0x6E]; }
    else if c == 0x0C { out := [0x5C, 0x66]; }
    else if c == 0x0D { out := [0x5C, 0x72]; }
    else if c <= 0x1F { out := [0x5C, 0x75, 0x30, 0x30, HexDigit(c / 16), HexDigit(c % 16)]; }
    else { out := Utf8.EncodeCodePoint(c); }
    if |Escape(c)| > 1 {
      Utf8.EncodeAscii(Escape(c));
    } else {
      assert Utf8.Encode([c]) == Utf8.EncodeCodePoint(c) + Utf8.Encode([]);
    }
  }

  /** The output after the first i characters of a literal. */
  ghost predicate EncodedPrefix(value: Text, i: nat, output: Bytes) {
    && i <= |value| && Encodable(value[..i]) && Encodable(EscapeAll(value[..i]))
    && output == [0x22] + Utf8.Encode(EscapeAll(value[..i]))
  }

  lemma EncodedStart(value: Text)
    ensures EncodedPrefix(value, 0, [0x22])
  {
    assert EscapeAll(value[..0]) == [] && Utf8.Encode([]) == [];
  }

  lemma EncodedStep(value: Text, i: nat, output: Bytes, bytes: Bytes)
    requires EncodedPrefix(value, i, output) && i < |value| && !IsSurrogate(value[i])
    requires Encodable(Escape(value[i])) && bytes == Utf8.Encode(Escape(value[i]))
    ensures EncodedPrefix(value, i + 1, output + bytes)
  {
    hide EscapeAll, Escape, Utf8.Encode;
    EscapeAllAppend(value[..i], value[i]);
    assert value[..i + 1] == value[..i] + [value[i]];
    Utf8.EncodeConcat(EscapeAll(value[..i]), Escape(value[i]));
  }

  lemma EncodedEnd(value: Text, output: Bytes)
    requires EncodedPrefix(value, |value|, output)
    ensures Encodable(value) && Encodable(PrintString(value)) && output + [0x22] == Utf8.Encode(PrintString(value))
  {
    assert value[..|value|] == value;
    QuotedBytes(EscapeAll(value));
  }

  lemma QuotedBytes(body: Text)
    requires Encodable(body)
    ensures Encodable([QUOTE] + body + [QUOTE])
    ensures Utf8.Encode([QUOTE] + body + [QUOTE]) == [0x22] + Utf8.Encode(body) + [0x22]
  {
    Utf8.EncodeAscii([QUOTE]);
    Utf8.EncodeConcat([QUOTE], body);
    Utf8.EncodeConcat([QUOTE] + body, [QUOTE]);
  }

  method EncodeString(value: Text) returns (r: Result<Bytes, Fault>)
    ensures r.Ok? <==> Encodable(value)
    ensures r.Ok? ==> Encodable(PrintString(value)) && r.value == Utf8.Encode(PrintString(value))
  {
    hide EncodedPrefix, PrintString;
    var output: Bytes := [0x22];
    var i := 0;
    EncodedStart(value);
    while i < |value|
      invariant i <= |value| && EncodedPrefix(value, i, output)
    {
      if IsSurrogate(value[i]) { return Err(InvalidUnicode); }
      var bytes := EncodeCharacter(value[i]);
      EncodedStep(value, i, output, bytes);
      output := output + bytes;
      i := i + 1;
    }
    EncodedEnd(value, output);
    r := Ok(output + [0x22]);
  }
}
