/** Exact bounds on the canonical bytes of small flat events. */
module EventBytes {
  import opened Arithmetic
  import opened Strings
  import opened AuditNames
  import opened Json
  import opened CanonicalJson
  import opened JsonReader
  import opened JsonRoundTrip
  import opened GatewayPreflight
  import opened GatewayLengths
  import Utf8

  // --------------------------------------------------------------- small text

  /** Text that prints as itself. */
  predicate Unescaped(t: Text) {
    forall i :: 0 <= i < |t| ==> t[i] >= 0x20 && t[i] != QUOTE && t[i] != BACKSLASH
  }

  predicate SmallText(t: Text, bytes: nat) {
    Encodable(t) && Unescaped(t) && Len(t) <= bytes
  }

  lemma PlainIsSmall(s: string, bytes: nat)
    requires Plain(s) && |s| <= bytes
    ensures SmallText(Of(s), bytes)
  {
    LenAscii(Of(s));
  }

  lemma {:induction false} UnescapedPrints(t: Text)
    requires Unescaped(t)
    ensures EscapeAll(t) == t
  {
    if t != [] {
      UnescapedPrints(t[1..]);
      assert t == [t[0]] + t[1..];
    }
  }

  lemma SmallTextPrints(t: Text, bytes: nat)
    requires SmallText(t, bytes)
    ensures Encodable(PrintString(t)) && Len(PrintString(t)) <= bytes + 2
  {
    UnescapedPrints(t);
    EnclosedLength(QUOTE, t, QUOTE);
  }

  // ------------------------------------------------------------- small values

  const MAX_VALUE_TEXT_BYTES: nat := 64

  /** What an audit field may hold. */
  predicate SmallValue(v: Json) {
    match v
    case Bool(_) => true
    case Int(n) => 0 < n <= 0x7FFF_FFFF_FFFF_FFFF
    case Str(s) => SmallText(s, MAX_VALUE_TEXT_BYTES)
    case _ => false
  }

  predicate SmallEvent(v: Json) {
    v.Obj? && forall k :: k in v.members ==> SmallText(k, MAX_NAME_BYTES) && SmallValue(v.members[k])
  }

  lemma SmallIntegerDigits(n: nat)
    requires n <= 0x7FFF_FFFF_FFFF_FFFF
    ensures |Digits(n)| <= 19
  {
    ValueOfDigits(n);
    if |Digits(n)| > 19 {
      ValueAtLeast(Digits(n));
      PowExponentMonotone(10, 19, |Digits(n)| - 1);
      TenToTheNineteenth();
    }
  }

  lemma TenToTheNineteenth()
    ensures Pow(10, 19) == 10000000000000000000
  {
    PowAdd(10, 10, 9);
    assert Pow(10, 5) == 100000;
    PowAdd(10, 5, 5);
    PowAdd(10, 5, 4);
    assert Pow(10, 4) == 10000;
  }

  lemma SmallValuePrints(v: Json)
    requires SmallValue(v)
    ensures Encodable(Print(v)) && Len(Print(v)) <= 66 && IntegersFit(v)
  {
    match v
    case Bool(_) => LenAscii(Print(v));
    case Int(n) =>
      SmallIntegerDigits(n);
      LenAscii(PrintInteger(n));
      BitLengthBound(n, 4096);
      PowExponentMonotone(2, 64, 4096);
      SixtyFourBits();
    case Str(s) => SmallTextPrints(s, MAX_VALUE_TEXT_BYTES);
  }

  lemma SixtyFourBits()
    ensures Pow(2, 64) == 0x1_0000_0000_0000_0000
  {
    PowAdd(2, 32, 32);
    PowAdd(2, 16, 16);
    PowAdd(2, 8, 8);
    assert Pow(2, 8) == 256;
  }

  // ------------------------------------------------------------ small events

  lemma {:induction false} SmallMembersPrint(v: Json, ks: seq<Text>)
    requires SmallEvent(v) && forall k :: k in ks ==> k in v.members
    ensures Encodable(PrintMembers(v, ks)) && Len(PrintMembers(v, ks)) <= 102 * |ks|
  {
    if ks == [] {
      LenAscii([]);
    } else {
      SmallMemberPrints(v, ks[0]);
      if |ks| > 1 {
        SmallMembersPrint(v, ks[1..]);
        JoinLength(PrintMember(v, ks[0]), PrintMembers(v, ks[1..]));
      }
    }
  }

  lemma SmallMemberPrints(v: Json, k: Text)
    requires SmallEvent(v) && k in v.members
    ensures Encodable(PrintMember(v, k)) && Len(PrintMember(v, k)) <= 101
  {
    SmallTextPrints(k, MAX_NAME_BYTES);
    SmallValuePrints(v.members[k]);
    LenAscii([COLON]);
    LenConcat(PrintString(k), [COLON]);
    LenConcat(PrintString(k) + [COLON], Print(v.members[k]));
  }

  /** An event of n small fields takes at most 102 bytes a field and its two braces. */
  lemma SmallEventPrints(v: Json)
    requires SmallEvent(v)
    ensures Encodable(Print(v)) && Len(Print(v)) <= 102 * |v.members| + 2 && IntegersFit(v)
  {
    var ks := SortedKeys(v.members.Keys);
    SmallMembersPrint(v, ks);
    SortedKeysListing(v.members.Keys);
    DistinctSize(ks);
    EnclosedLength(LBRACE, PrintMembers(v, ks), RBRACE);
    forall k | k in v.members ensures IntegersFit(v.members[k]) { SmallValuePrints(v.members[k]); }
  }

  // ------------------------------------------------------------------ batches

  const MAX_EVENT_FIELDS: nat := 18

  /** 18 fields of at most 34 + 1 + 66 + 1 bytes, and two braces. */
  const EVENT_BYTES: nat := 1838

  predicate SmallEvents(events: seq<Json>) {
    forall i :: 0 <= i < |events| ==> SmallEvent(events[i]) && |events[i].members| <= MAX_EVENT_FIELDS
  }

  ghost predicate Bounded(v: Json) {
    Encodable(Print(v)) && Len(Print(v)) <= EVENT_BYTES && IntegersFit(v)
  }

  lemma {:induction false} ItemsPrint(v: Json, items: seq<Json>)
    requires v.Arr? && (forall x :: x in items ==> x in v.items) && forall x :: x in items ==> Bounded(x)
    ensures Encodable(PrintItems(v, items)) && Len(PrintItems(v, items)) <= (EVENT_BYTES + 1) * |items|
  {
    hide Print, Len, IntegersFit, Encodable;
    if items == [] {
      LenAscii([]);
    } else {
      assert items[0] in items;
      if |items| > 1 {
        ItemsPrint(v, items[1..]);
        JoinLength(Print(items[0]), PrintItems(v, items[1..]));
      }
    }
  }

  const RECORDS: Text := [0x72, 0x65, 0x63, 0x6F, 0x72, 0x64, 0x73]

  function Batch(events: seq<Json>): Json {
    Obj(map[RECORDS := Arr(events)])
  }

  lemma ArrayPrints(events: seq<Json>)
    requires SmallEvents(events)
    ensures Encodable(Print(Arr(events))) && Len(Print(Arr(events))) <= (EVENT_BYTES + 1) * |events| + 2
    ensures IntegersFit(Arr(events))
  {
    hide SmallEvent, Len, Encodable;
    forall x | x in events ensures Bounded(x) {
      SmallEventPrints(x);
    }
    ItemsPrint(Arr(events), events);
    EnclosedLength(LBRACKET, PrintItems(Arr(events), events), RBRACKET);
  }

  lemma BatchPrints(events: seq<Json>)
    requires SmallEvents(events)
    ensures Encodable(Print(Batch(events))) && Len(Print(Batch(events))) <= (EVENT_BYTES + 1) * |events| + 14
    ensures IntegersFit(Batch(events))
  {
    hide SmallEvents, Print, Len, Encodable, PrintString;
    ArrayPrints(events);
    BatchText(events);
    RecordsName();
    var head := PrintString(RECORDS) + [COLON];
    LenConcat(head, Print(Arr(events)));
    EnclosedLength(LBRACE, head + Print(Arr(events)), RBRACE);
  }

  lemma RecordsName()
    ensures Encodable(PrintString(RECORDS) + [COLON]) && Len(PrintString(RECORDS) + [COLON]) == 10
  {
    hide Len, EscapeAll, Encodable;
    UnescapedPrints(RECORDS);
    LenAscii(RECORDS);
    LenAscii([COLON]);
    EnclosedLength(QUOTE, RECORDS, QUOTE);
    LenConcat(PrintString(RECORDS), [COLON]);
  }

  lemma BatchText(events: seq<Json>)
    ensures Print(Batch(events)) == [LBRACE] + (PrintString(RECORDS) + [COLON] + Print(Arr(events))) + [RBRACE]
  {
    var v, ks := Batch(events), [RECORDS];
    hide PrintString, PrintItems;
    SortedListing(v);
    assert Print(v) == [LBRACE] + PrintMembers(v, ks) + [RBRACE];
    assert PrintMembers(v, ks) == PrintMember(v, RECORDS);
  }

  lemma SortedListing(v: Json)
    requires v.Obj? && v.members.Keys == {RECORDS}
    ensures SortedKeys(v.members.Keys) == [RECORDS]
  {
    var ks := SortedKeys(v.members.Keys);
    SortedKeysListing(v.members.Keys);
    DistinctSize(ks);
    assert |ks| == 1 && ks[0] in ks;
  }
}
