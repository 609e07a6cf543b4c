/** Unpadded base64url (section 5 of RFC 4648) signature material. */
module SignatureMaterial {
  import opened Wrappers
  import opened Trimming
  import opened ReceiptContract
  import opened Identifiers
  import Utf8

  type Bytes = Utf8.Bytes

  type Sextet = n: int | 0 <= n < 64

  const PREFIX := "b64u:"

  // ------------------------------------------------------------- the alphabet

  function CharOf(n: Sextet): char {
    if n < 26 then 'A' + n as char
    else if n < 52 then 'a' + (n - 26) as char
    else if n < 62 then '0' + (n - 52) as char
    else if n == 62 then '-'
    else '_'
  }

  function SextetOf(c: char): Option<Sextet> {
    if 'A' <= c <= 'Z' then Some(c as int - 65)
    else if 'a' <= c <= 'z' then Some(c as int - 97 + 26)
    else if '0' <= c <= '9' then Some(c as int - 48 + 52)
    else if c == '-' then Some(62)
    else if c == '_' then Some(63)
    else None
  }

  lemma AlphabetInverts(n: Sextet)
    ensures SextetOf(CharOf(n)) == Some(n)
  {
  }

  lemma AlphabetExact(c: char)
    requires SextetOf(c).Some?
    ensures CharOf(SextetOf(c).value) == c
  {
  }

  function Spell(ns: seq<Sextet>): string {
    seq(|ns|, i requires 0 <= i < |ns| => CharOf(ns[i]))
  }

  predicate InAlphabet(s: string) {
    forall i :: 0 <= i < |s| ==> SextetOf(s[i]).Some?
  }

  function Read(s: string): seq<Sextet>
    requires InAlphabet(s)
  {
    seq(|s|, i requires 0 <= i < |s| => SextetOf(s[i]).value)
  }

  // ------------------------------------------------------------------- groups

  /** Three bytes become four sextets; a rest of one or two bytes becomes two or three, unpadded. */
  function Encode(raw: Bytes): seq<Sextet> {
    if raw == [] then []
    else if |raw| == 1 then [High(raw[0], 4), Low(raw[0], 4, 16)]
    else if |raw| == 2 then [High(raw[0], 4), Mix(raw[0], 4, 16, raw[1], 16), Low(raw[1], 16, 4)]
    else
      [High(raw[0], 4), Mix(raw[0], 4, 16, raw[1], 16), Mix(raw[1], 16, 4, raw[2], 64), raw[2] % 64] + Encode(raw[3..])
  }

  function High(b: int, d: int): (r: Sextet)
    requires 0 <= b < 256 && d == 4
  {
    b / d
  }

  /** The low bits of a byte, moved up. */
  function Low(b: int, m: int, up: int): (r: Sextet)
    requires 0 <= b < 256 && ((m == 4 && up == 16) || (m == 16 && up == 4))
  {
    b % m * up
  }

  /** The low bits of one byte, moved up, and the high bits of the next. */
  function Mix(a: int, m: int, up: int, b: int, d: int): (r: Sextet)
    requires 0 <= a < 256 && 0 <= b < 256
    requires (m == 4 && up == 16 && d == 16) || (m == 16 && up == 4 && d == 64)
  {
    a % m * up + b / d
  }

  /** What a lenient decoder makes of it: unused low bits of the last sextet are dropped, one sextet alone is an error. */
  function Decode(ns: seq<Sextet>): Option<Bytes> {
    if ns == [] then Some([])
    else if |ns| == 1 then None
    else if |ns| == 2 then Some([First(ns[0], ns[1])])
    else if |ns| == 3 then Some([First(ns[0], ns[1]), Second(ns[1], ns[2])])
    else
      match Decode(ns[4..])
      case None => None
      case Some(rest) => Some([First(ns[0], ns[1]), Second(ns[1], ns[2]), Third(ns[2], ns[3])] + rest)
  }

  function First(a: int, b: int): (r: Utf8.Byte)
    requires 0 <= a < 64 && 0 <= b < 64
  {
    a * 4 + b / 16
  }

  function Second(b: int, c: int): (r: Utf8.Byte)
    requires 0 <= b < 64 && 0 <= c < 64
  {
    b % 16 * 16 + c / 4
  }

  function Third(c: int, d: int): (r: Utf8.Byte)
    requires 0 <= c < 64 && 0 <= d < 64
  {
    c % 4 * 64 + d
  }

  lemma GroupInverts(x: Utf8.Byte, y: Utf8.Byte, z: Utf8.Byte)
    ensures First(High(x, 4), Mix(x, 4, 16, y, 16)) == x
    ensures Second(Mix(x, 4, 16, y, 16), Mix(y, 16, 4, z, 64)) == y
    ensures Third(Mix(y, 16, 4, z, 64), z % 64) == z
    ensures First(High(x, 4), Low(x, 4, 16)) == x
    ensures Second(Mix(x, 4, 16, y, 16), Low(y, 16, 4)) == y
  {
  }

  lemma {:induction false} DecodeInvertsEncode(raw: Bytes)
    ensures Decode(Encode(raw)) == Some(raw)
  {
    hide High, Low, Mix, First, Second, Third;
    if |raw| == 1 {
      GroupInverts(raw[0], 0, 0);
      assert raw == [raw[0]];
    } else if |raw| == 2 {
      GroupInverts(raw[0], raw[1], 0);
      assert raw == [raw[0], raw[1]];
    } else if |raw| >= 3 {
      DecodeInvertsEncode(raw[3..]);
      GroupInverts(raw[0], raw[1], raw[2]);
      var ns := Encode(raw);
      assert ns[4..] == Encode(raw[3..]);
      assert raw == [raw[0], raw[1], raw[2]] + raw[3..];
    }
  }

  /** The length is four thirds, rounded up: two sextets for one byte left over, three for two. */
  lemma {:induction false} EncodedLength(raw: Bytes)
    ensures |Encode(raw)| == (4 * |raw| + 2) / 3
  {
    if |raw| >= 3 { EncodedLength(raw[3..]); }
  }

  lemma {:induction false} DecodedLength(ns: seq<Sextet>)
    ensures Decode(ns).Some? <==> |ns| % 4 != 1
    ensures Decode(ns).Some? ==> |Decode(ns).value| == 3 * |ns| / 4
  {
    hide First, Second, Third;
    if |ns| < 4 {
      assert |ns| == 0 || |ns| == 1 || |ns| == 2 || |ns| == 3;
    } else {
      DecodedLength(ns[4..]);
      assert |ns[4..]| == |ns| - 4 && |ns| % 4 == |ns[4..]| % 4;
      assert 3 * |ns| / 4 == 3 + 3 * |ns[4..]| / 4;
    }
  }

  /** The unused low bits of the last sextet are zero, as an encoder leaves them. */
  predicate TrailingBitsZero(ns: seq<Sextet>) {
    match |ns| % 4
    case 2 => ns[|ns| - 1] % 16 == 0
    case 3 => ns[|ns| - 1] % 4 == 0
    case _ => true
  }

  lemma GroupRestores(a: Sextet, b: Sextet, c: Sextet, d: Sextet)
    ensures High(First(a, b), 4) == a && Mix(First(a, b), 4, 16, Second(b, c), 16) == b
    ensures Mix(Second(b, c), 16, 4, Third(c, d), 64) == c && Third(c, d) % 64 == d
    ensures Low(First(a, b), 4, 16) == b <==> b % 16 == 0
    ensures Low(Second(b, c), 16, 4) == c <==> c % 4 == 0
  {
  }

  lemma EncodeFullGroup(a: Sextet, b: Sextet, c: Sextet, d: Sextet, rest: Bytes)
    ensures Encode([First(a, b), Second(b, c), Third(c, d)] + rest) == [a, b, c, d] + Encode(rest)
  {
    hide High, Low, Mix, First, Second, Third;
    GroupRestores(a, b, c, d);
    var raw := [First(a, b), Second(b, c), Third(c, d)] + rest;
    assert raw[3..] == rest;
  }

  /** Re-encoding gives the body back exactly when its unused bits are zero; otherwise several bodies decode alike. */
  lemma {:induction false} EncodeInvertsDecode(ns: seq<Sextet>)
    requires Decode(ns).Some?
    ensures Encode(Decode(ns).value) == ns <==> TrailingBitsZero(ns)
  {
    hide High, Low, Mix, First, Second, Third;
    if |ns| == 2 {
      GroupRestores(ns[0], ns[1], 0, 0);
      assert ns == [ns[0], ns[1]];
    } else if |ns| == 3 {
      GroupRestores(ns[0], ns[1], ns[2], 0);
      assert ns == [ns[0], ns[1], ns[2]];
    } else if |ns| >= 4 {
      EncodeInvertsDecode(ns[4..]);
      TrailingStays(ns);
      var head, rest := [ns[0], ns[1], ns[2], ns[3]], Decode(ns[4..]).value;
      EncodeFullGroup(ns[0], ns[1], ns[2], ns[3], rest);
      HeadStays(head, Encode(rest), ns);
    }
  }

  lemma TrailingStays(ns: seq<Sextet>)
    requires |ns| >= 4
    ensures TrailingBitsZero(ns) <==> TrailingBitsZero(ns[4..])
  {
    if |ns| > 4 { assert ns[4..][|ns| - 5] == ns[|ns| - 1]; }
  }

  lemma HeadStays(head: seq<Sextet>, tail: seq<Sextet>, ns: seq<Sextet>)
    requires |ns| >= 4 && head == [ns[0], ns[1], ns[2], ns[3]]
    ensures head + tail == ns <==> tail == ns[4..]
  {
    assert ns[..4] == head && ns == ns[..4] + ns[4..];
    assert (head + tail)[4..] == tail;
  }

  // ----------------------------------------------------------------- material

  const MAX_RAW_BYTES: nat := (MAX_TEXT_FIELD_BYTES - |PREFIX|) * 3 / 4

  /** encode_binary_signature_material */
  function EncodeMaterial(raw: Bytes): Option<string> {
    if raw == [] || |raw| > MAX_RAW_BYTES then None
    else
      var rendered := PREFIX + Spell(Encode(raw));
      if BoundedText(WText(rendered)) then Some(rendered) else None
  }

  /** decode_binary_signature_material */
  function DecodeMaterial(v: Wire): Option<Bytes> {
    if !BoundedText(v) || Strip(v.s) != v.s then None
    else if !(|v.s| >= 5 && v.s[..5] == PREFIX) || v.s[5..] == "" then None
    else if !InAlphabet(v.s[5..]) then None
    else Decode(Read(v.s[5..]))
  }

  lemma LimitIs()
    ensures MAX_RAW_BYTES == 6140
  {
  }

  lemma SpellInverts(ns: seq<Sextet>)
    ensures InAlphabet(Spell(ns)) && Read(Spell(ns)) == ns
  {
    forall i | 0 <= i < |ns| ensures SextetOf(Spell(ns)[i]) == Some(ns[i]) { AlphabetInverts(ns[i]); }
  }

  lemma {:induction false} AsciiSize(s: string)
    requires forall i :: 0 <= i < |s| ==> s[i] < 128 as char
    ensures Utf8Size(s) == |s|
  {
    if s != "" { AsciiSize(s[1..]); }
  }

  lemma RenderedIsAscii(ns: seq<Sextet>)
    ensures var s := PREFIX + Spell(ns); forall i :: 0 <= i < |s| ==> s[i] < 128 as char && !IsSpace(s[i])
  {
  }

  /** Everything up to 6140 bytes is rendered, in at most 8192 characters: the final text check never refuses. */
  lemma EncodeMaterialExact(raw: Bytes)
    ensures EncodeMaterial(raw).Some? <==> 0 < |raw| <= 6140
    ensures EncodeMaterial(raw).Some? ==> |EncodeMaterial(raw).value| == 5 + (4 * |raw| + 2) / 3
  {
    hide Spell, Encode;
    LimitIs();
    EncodedLength(raw);
    var s := PREFIX + Spell(Encode(raw));
    SpelledLength(Encode(raw));
    RenderedIsAscii(Encode(raw));
    AsciiSize(s);
  }

  lemma SpelledLength(ns: seq<Sextet>)
    ensures |Spell(ns)| == |ns|
  {
  }

  /** The limit is tight: one byte more would no longer fit the text budget. */
  lemma LimitIsTight(raw: Bytes)
    ensures raw != [] ==> (|PREFIX + Spell(Encode(raw))| <= MAX_TEXT_FIELD_BYTES <==> |raw| <= MAX_RAW_BYTES)
  {
    hide Spell, Encode;
    LimitIs();
    EncodedLength(raw);
    SpelledLength(Encode(raw));
  }

  /** Decoding undoes encoding. */
  lemma MaterialRoundTrip(raw: Bytes)
    requires 0 < |raw| <= 6140
    ensures EncodeMaterial(raw).Some? && DecodeMaterial(WText(EncodeMaterial(raw).value)) == Some(raw)
  {
    hide Spell, Encode, Decode, InAlphabet, Read;
    EncodeMaterialExact(raw);
    EncodedLength(raw);
    SpelledLength(Encode(raw));
    var s := EncodeMaterial(raw).value;
    RenderedIsAscii(Encode(raw));
    StripFixes(s);
    assert s[5..] == Spell(Encode(raw)) && s[..5] == PREFIX;
    SpellInverts(Encode(raw));
    DecodeInvertsEncode(raw);
  }

  lemma SpelledAgain(body: string)
    requires InAlphabet(body)
    ensures Spell(Read(body)) == body
  {
    forall i | 0 <= i < |body| ensures Spell(Read(body))[i] == body[i] { AlphabetExact(body[i]); }
  }

  /** The decoder takes exactly the prefix followed by 1 to 8187 letters of the alphabet, without padding or whitespace. */
  lemma DecodesExactly(v: Wire, raw: Bytes)
    ensures DecodeMaterial(v) == Some(raw) <==>
      exists ns :: v == WText("b64u:" + Spell(ns)) && 0 < |ns| <= 8187 && Decode(ns) == Some(raw)
  {
    hide Spell, Decode, InAlphabet, Read, BoundedText, Strip;
    if DecodeMaterial(v) == Some(raw) {
      BoundedLength(v);
      var body := v.s[5..];
      var ns := Read(body);
      SpelledAgain(body);
      SpelledLength(ns);
      assert v.s == v.s[..5] + body;
    }
    if ns :| v == WText("b64u:" + Spell(ns)) && 0 < |ns| <= 8187 && Decode(ns) == Some(raw) {
      var s := "b64u:" + Spell(ns);
      SpelledLength(ns);
      SpellInverts(ns);
      RenderedIsAscii(ns);
      AsciiSize(s);
      StripFixes(s);
      AsciiBounded(s);
      assert s[5..] == Spell(ns) && s[..5] == "b64u:";
    }
  }

  lemma BoundedLength(v: Wire)
    requires BoundedText(v)
    ensures v.WText? && 0 < |v.s| <= 8192
  {
  }

  lemma AsciiBounded(s: string)
    requires Utf8Size(s) == |s| && 0 < |s| <= 8192
    ensures BoundedText(WText(s))
  {
  }

  /** Whatever decodes at all decodes to something. */
  lemma DecodedNonEmpty(v: Wire)
    requires DecodeMaterial(v).Some?
    ensures DecodeMaterial(v).value != []
  {
    DecodedLength(Read(v.s[5..]));
  }

  /** Two texts with the same bytes are equal once their unused bits are zero. */
  lemma CanonicalMaterialInjective(v: Wire, w: Wire)
    requires DecodeMaterial(v).Some? && DecodeMaterial(v) == DecodeMaterial(w)
    requires TrailingBitsZero(Read(v.s[5..])) && TrailingBitsZero(Read(w.s[5..]))
    ensures v == w
  {
    EncodeInvertsDecode(Read(v.s[5..]));
    EncodeInvertsDecode(Read(w.s[5..]));
    ReadInjective(v.s[5..], w.s[5..]);
    assert v.s == v.s[..5] + v.s[5..] && w.s == w.s[..5] + w.s[5..];
  }

  lemma ReadInjective(s: string, t: string)
    requires InAlphabet(s) && InAlphabet(t) && Read(s) == Read(t)
    ensures s == t
  {
    assert |s| == |Read(s)| == |Read(t)| == |t|;
    forall i | 0 <= i < |s| ensures s[i] == t[i] {
      assert Read(s)[i] == Read(t)[i];
      AlphabetExact(s[i]);
      AlphabetExact(t[i]);
    }
  }
}
