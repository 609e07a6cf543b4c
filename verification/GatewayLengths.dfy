/** How the streaming text counter relates to the length of the final encoding. */
module GatewayLengths {
  import opened Arithmetic
  import opened Strings
  import opened Json
  import opened CanonicalJson
  import opened ObjectGraph
  import opened GatewayPreflight
  import opened GatewayEncoder
  import opened GatewayCodec
  import Utf8

  /** Encoded length of a text. */
  function Len(p: Text): nat {
    TextBytes(p)
  }

  lemma LenConcat(p: Text, q: Text)
    requires Encodable(p) && Encodable(q)
    ensures Encodable(p + q) && Len(p + q) == Len(p) + Len(q)
  {
    Utf8.EncodeConcat(p, q);
  }

  lemma LenAscii(p: Text)
    requires forall i :: 0 <= i < |p| ==> p[i] < 0x80
    ensures Encodable(p) && Len(p) == |p|
  {
    Utf8.EncodeAscii(p);
  }

  lemma EscapeLength(c: CodePoint)
    requires !IsSurrogate(c)
    ensures Encodable([c]) && Encodable(Escape(c)) && Len([c]) <= Len(Escape(c)) <= 6 * Len([c])
  {
    assert Utf8.Encode([c]) == Utf8.EncodeCodePoint(c) + Utf8.Encode([]);
    if |Escape(c)| > 1 { LenAscii(Escape(c)); }
  }

  lemma {:induction false} EscapeAllLength(s: Text)
    requires Encodable(s)
    ensures Encodable(EscapeAll(s)) && Len(s) <= Len(EscapeAll(s)) <= 6 * Len(s)
  {
    if s != [] {
      EscapeLength(s[0]);
      EscapeAllLength(s[1..]);
      LenConcat([s[0]], s[1..]);
      LenConcat(Escape(s[0]), EscapeAll(s[1..]));
      assert s == [s[0]] + s[1..];
    }
  }

  lemma EnclosedLength(open: CodePoint, p: Text, close: CodePoint)
    requires Encodable(p) && open < 0x80 && close < 0x80
    ensures Encodable([open] + p + [close]) && Len([open] + p + [close]) == Len(p) + 2
  {
    LenAscii([open]);
    LenAscii([close]);
    LenConcat([open], p);
    LenConcat([open] + p, [close]);
  }

  lemma StringLength(s: Text)
    requires Encodable(s)
    ensures Encodable(PrintString(s)) && Len(s) + 2 <= Len(PrintString(s)) <= 6 * Len(s) + 2
  {
    EscapeAllLength(s);
    EnclosedLength(QUOTE, EscapeAll(s), QUOTE);
  }

  lemma JoinLength(p: Text, q: Text)
    requires Encodable(p) && Encodable(q)
    ensures Encodable(p + [COMMA] + q) && Len(p + [COMMA] + q) == Len(p) + 1 + Len(q)
  {
    LenAscii([COMMA]);
    LenConcat(p, [COMMA]);
    LenConcat(p + [COMMA], q);
  }

  /**
   The counter is a lower bound of the encoding; six bytes per counted byte and
   nine per node bound it from above (with four to spare for a comma or a key).
   */
  lemma {:induction false} PrintLength(t: Json)
    requires AllEncodable(t)
    ensures Encodable(Print(t))
    ensures Total(t, TEXT) <= Len(Print(t)) && Len(Print(t)) + 4 <= 6 * Total(t, TEXT) + 9 * Nodes(t)
    decreases t, 2
  {
    match t
    case Null => LenAscii(NULL_TEXT);
    case Bool(b) => LenAscii(Print(t));
    case Int(n) => LenAscii(PrintInteger(n));
    case Str(s) => StringLength(s);
    case Arr(items) => ArrayLength(t);
    case Obj(m) => ObjectLength(t);
  }

  lemma {:induction false} ArrayLength(t: Json)
    requires t.Arr? && AllEncodable(t)
    ensures Encodable(Print(t))
    ensures Total(t, TEXT) <= Len(Print(t)) && Len(Print(t)) + 4 <= 6 * Total(t, TEXT) + 9 * Nodes(t)
    decreases t, 1
  {
    ItemsLength(t, t.items);
    EnclosedLength(LBRACKET, PrintItems(t, t.items), RBRACKET);
  }

  lemma {:induction false} ItemsLength(t: Json, items: seq<Json>)
    requires t.Arr? && AllEncodable(t) && forall x :: x in items ==> x in t.items
    ensures Encodable(PrintItems(t, items))
    ensures Sum(items, ItemCost(t, TEXT)) <= Len(PrintItems(t, items))
    ensures Len(PrintItems(t, items)) <= 6 * Sum(items, ItemCost(t, TEXT)) + 9 * Sum(items, ItemCost(t, NODES))
    decreases t, 0, |items|
  {
    if items == [] {
      LenAscii([]);
    } else {
      var x := items[0];
      assert x in t.items;
      PrintLength(x);
      ItemsLength(t, items[1..]);
      if |items| > 1 {
        JoinLength(Print(x), PrintItems(t, items[1..]));
      } else {
        assert items[1..] == [];
      }
    }
  }

  lemma {:induction false} ObjectLength(t: Json)
    requires t.Obj? && AllEncodable(t)
    ensures Encodable(Print(t))
    ensures Total(t, TEXT) <= Len(Print(t)) && Len(Print(t)) + 4 <= 6 * Total(t, TEXT) + 9 * Nodes(t)
    decreases t, 1
  {
    var ks := SortedKeys(t.members.Keys);
    MembersLength(t, ks);
    EnclosedLength(LBRACE, PrintMembers(t, ks), RBRACE);
  }

  lemma {:induction false} MembersLength(t: Json, ks: seq<Text>)
    requires t.Obj? && AllEncodable(t) && forall k :: k in ks ==> k in t.members
    ensures Encodable(PrintMembers(t, ks))
    ensures Sum(ks, MemberCost(t, TEXT)) <= Len(PrintMembers(t, ks))
    ensures Len(PrintMembers(t, ks)) <= 6 * Sum(ks, MemberCost(t, TEXT)) + 9 * Sum(ks, MemberCost(t, NODES))
    decreases t, 0, |ks|
  {
    if ks == [] {
      LenAscii([]);
    } else {
      var k := ks[0];
      StringLength(k);
      PrintLength(t.members[k]);
      MemberLength(t, k);
      MembersLength(t, ks[1..]);
      if |ks| > 1 {
        JoinLength(PrintMember(t, k), PrintMembers(t, ks[1..]));
      } else {
        assert ks[1..] == [];
      }
    }
  }

  lemma MemberLength(t: Json, k: Text)
    requires t.Obj? && k in t.members && Encodable(PrintString(k)) && Encodable(Print(t.members[k]))
    ensures Encodable(PrintMember(t, k))
    ensures Len(PrintMember(t, k)) == Len(PrintString(k)) + 1 + Len(Print(t.members[k]))
  {
    LenAscii([COLON]);
    LenConcat(PrintString(k), [COLON]);
    LenConcat(PrintString(k) + [COLON], Print(t.members[k]));
  }

  /** The text budget never rejects a value whose encoding fits: it is implied by the final byte check. */
  lemma TextBudgetIsImplied(t: Json)
    requires AllEncodable(t) && Encodable(Print(t)) && |Utf8.Encode(Print(t))| <= MAX_CANONICAL_BYTES
    ensures Total(t, TEXT) <= MAX_CANONICAL_BYTES
  {
    PrintLength(t);
  }

  /** So the profile is decided by shape, node count and encoded length alone. */
  lemma CanonicalizableWithoutTextBudget(t: Json)
    ensures Canonicalizable(t) <==>
      LevelsAtMost(t, LEVELS) && Conforms(t, GATEWAY) && Nodes(t) <= MAX_SNAPSHOT_NODES
      && Encodable(Print(t)) && |Utf8.Encode(Print(t))| <= MAX_CANONICAL_BYTES
  {
    if Conforms(t, GATEWAY) {
      ConformsFits(t);
      PrintEncodable(t);
      if |Utf8.Encode(Print(t))| <= MAX_CANONICAL_BYTES { TextBudgetIsImplied(t); }
    }
  }

  /** What preflight guarantees about the size of the encoding it lets through. */
  lemma EncodingWithinPreflight(t: Json)
    requires WithinProfile(t)
    ensures Encodable(Print(t))
    ensures |Utf8.Encode(Print(t))| + 4 <= 6 * Total(t, TEXT) + 9 * Nodes(t)
    ensures |Utf8.Encode(Print(t))| < 6 * MAX_CANONICAL_BYTES + 9 * MAX_SNAPSHOT_NODES
  {
    ConformsFits(t);
    PrintLength(t);
  }
}
