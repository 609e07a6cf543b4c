/** The strict UTF-8 codec of RFC 3629, section 3. */
module Utf8 {
  import opened Strings
  import opened Wrappers

  type Byte = b: int | 0 <= b < 256

  type Bytes = seq<Byte>

  function EncodeCodePoint(c: CodePoint): (b: Bytes)
    requires !IsSurrogate(c)
    ensures 1 <= |b| <= 4
  {
    if c < 0x80 then [c]
    else if c < 0x800 then [0xC0 + c / 64, 0x80 + c % 64]
    else if c < 0x10000 then [0xE0 + c / 4096, 0x80 + c / 64 % 64, 0x80 + c % 64]
    else [0xF0 + c / 262144, 0x80 + c / 4096 % 64, 0x80 + c / 64 % 64, 0x80 + c % 64]
  }

  function Encode(t: Text): (b: Bytes)
    requires Encodable(t)
  {
    if t == [] then [] else EncodeCodePoint(t[0]) + Encode(t[1..])
  }

  predicate Continues(b: Bytes, from: nat, count: nat) {
    |b| >= from + count && forall i :: from <= i < from + count ==> 0x80 <= b[i] < 0xC0
  }

  /** Append the six payload bits of a continuation byte. */
  function Join(high: int, next: int): int {
    64 * high + (next - 0x80)
  }

  /** One code point and its length in bytes; None for an ill-formed start. */
  function DecodeCodePoint(b: Bytes): (r: Option<(CodePoint, nat)>)
    requires b != []
    ensures r.Some? ==> 1 <= r.value.1 <= |b|
  {
    if b[0] < 0x80 then Some((b[0], 1))
    else if 0xC0 <= b[0] < 0xE0 && Continues(b, 1, 1) then
      var c := Join(b[0] - 0xC0, b[1]);
      if c < 0x80 then None else Some((c, 2))
    else if 0xE0 <= b[0] < 0xF0 && Continues(b, 1, 2) then
      var c := Join(Join(b[0] - 0xE0, b[1]), b[2]);
      if c < 0x800 || IsSurrogate(c) then None else Some((c, 3))
    else if 0xF0 <= b[0] < 0xF8 && Continues(b, 1, 3) then
      var c := Join(Join(Join(b[0] - 0xF0, b[1]), b[2]), b[3]);
      if c < 0x10000 || c > 0x10FFFF then None else Some((c, 4))
    else None
  }

  function Decode(b: Bytes): Option<Text> {
    if b == [] then Some([])
    else match DecodeCodePoint(b)
      case None => None
      case Some((c, n)) =>
        match Decode(b[n..])
        case None => None
        case Some(rest) => Some([c] + rest)
  }

  /** The base-64 digits of a code point, as continuation bytes carry them. */
  lemma Sextets(c: int)
    requires c >= 0
    ensures c == 64 * (c / 64) + c % 64
    ensures c / 64 == 64 * (c / 4096) + c / 64 % 64
    ensures c / 4096 == 64 * (c / 262144) + c / 4096 % 64
  {
    DivisionUnique(c, 4096, c / 64 / 64, 64 * (c / 64 % 64) + c % 64);
    DivisionUnique(c, 262144, c / 4096 / 64, 4096 * (c / 4096 % 64) + c % 4096);
  }

  lemma DivisionUnique(c: int, m: int, q: int, r: int)
    requires m > 0 && c == m * q + r && 0 <= r < m
    ensures c / m == q && c % m == r
  {
    var d := c / m - q;
    assert m * d == r - c % m by {
      assert c == m * (c / m) + c % m;
      assert m * d == m * (c / m) - m * q;
    }
    assert -m < m * d < m;
    assert -1 < d < 1;
  }

  lemma DecodeCodePointInverts(c: CodePoint, rest: Bytes)
    requires !IsSurrogate(c)
    ensures DecodeCodePoint(EncodeCodePoint(c) + rest) == Some((c, |EncodeCodePoint(c)|))
  {
    var e := EncodeCodePoint(c);
    var b := e + rest;
    assert forall i :: 0 <= i < |e| ==> b[i] == e[i];
    Sextets(c);
  }

  lemma {:induction false} DecodeInvertsEncode(t: Text)
    requires Encodable(t)
    ensures Decode(Encode(t)) == Some(t)
  {
    hide DecodeCodePoint, EncodeCodePoint;
    if t != [] {
      var e := EncodeCodePoint(t[0]);
      var rest := Encode(t[1..]);
      DecodeCodePointInverts(t[0], rest);
      DecodeInvertsEncode(t[1..]);
      assert (e + rest)[|e|..] == rest;
      assert Encode(t) == e + rest;
      assert t == [t[0]] + t[1..];
    }
  }

  lemma EncodeInvertsDecodeCodePoint(b: Bytes)
    requires b != [] && DecodeCodePoint(b).Some?
    ensures var (c, n) := DecodeCodePoint(b).value; !IsSurrogate(c) && EncodeCodePoint(c) == b[..n]
  {
    var (c, n) := DecodeCodePoint(b).value;
    Sextets(c);
    if n >= 2 { JoinSplits(if n == 2 then b[0] - 0xC0 else if n == 3 then Join(b[0] - 0xE0, b[1])
                           else Join(Join(b[0] - 0xF0, b[1]), b[2]), b[n - 1]); }
    if n >= 3 { JoinSplits(if n == 3 then b[0] - 0xE0 else Join(b[0] - 0xF0, b[1]), b[n - 2]); }
    if n == 4 { JoinSplits(b[0] - 0xF0, b[1]); }
  }

  lemma JoinSplits(high: int, next: int)
    requires 0x80 <= next < 0xC0
    ensures Join(high, next) / 64 == high && Join(high, next) % 64 == next - 0x80
  {
    DivisionUnique(Join(high, next), 64, high, next - 0x80);
  }

  /** The codec is strict: the only bytes it decodes are encodings. */
  lemma {:induction false} EncodeInvertsDecode(b: Bytes)
    requires Decode(b).Some?
    ensures Encodable(Decode(b).value) && Encode(Decode(b).value) == b
  {
    hide DecodeCodePoint, EncodeCodePoint;
    if b == [] {
    } else {
      var (c, n) := DecodeCodePoint(b).value;
      EncodeInvertsDecodeCodePoint(b);
      EncodeInvertsDecode(b[n..]);
      var rest := Decode(b[n..]).value;
      assert Decode(b) == Some([c] + rest);
      PrependEncodes(c, rest);
      assert b == b[..n] + b[n..];
    }
  }

  lemma PrependEncodes(c: CodePoint, rest: Text)
    requires !IsSurrogate(c) && Encodable(rest)
    ensures Encodable([c] + rest) && Encode([c] + rest) == EncodeCodePoint(c) + Encode(rest)
  {
    hide EncodeCodePoint;
    assert ([c] + rest)[1..] == rest;
  }

  lemma {:induction false} EncodeConcat(a: Text, b: Text)
    requires Encodable(a) && Encodable(b)
    ensures Encodable(a + b) && Encode(a + b) == Encode(a) + Encode(b)
  {
    if a == [] {
      assert a + b == b;
    } else {
      EncodeConcat(a[1..], b);
      assert (a + b)[0] == a[0] && (a + b)[1..] == a[1..] + b;
    }
  }

  lemma {:induction false} EncodeAscii(t: Text)
    requires forall i :: 0 <= i < |t| ==> t[i] < 0x80
    ensures Encodable(t) && Encode(t) == t
  {
    if t != [] {
      EncodeAscii(t[1..]);
      assert t == [t[0]] + t[1..];
    }
  }

  lemma {:induction false} EncodeLength(t: Text)
    requires Encodable(t)
    ensures |t| <= |Encode(t)| <= 4 * |t|
  {
    if t != [] { EncodeLength(t[1..]); }
  }
}
