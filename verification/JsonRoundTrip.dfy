/** The canonical print is a text of the grammar, so the reader inverts the printer, in any delimited context. */
module JsonRoundTrip {
  import opened Arithmetic
  import opened Strings
  import opened Wrappers
  import opened Json
  import opened CanonicalJson
  import opened JsonReader
  import opened JsonGrammar
  import opened JsonReading

  /** Integers within the bit ceiling, everywhere in the value. */
  ghost predicate IntegersFit(v: Json) {
    match v
    case Int(n) => BitLength(Abs(n)) <= MAX_INTEGER_BITS
    case Arr(items) => forall x :: x in items ==> IntegersFit(x)
    case Obj(m) => forall k :: k in m ==> IntegersFit(m[k])
    case _ => true
  }

  // ---------------------------------------------------------- the printer's trees

  /** How the printer writes a character. */
  function PartOf(c: CodePoint): Part {
    if c == QUOTE || c == BACKSLASH then Short(c)
    else if c == 0x08 then Short(0x62)
    else if c == 0x09 then Short(0x74)
    else if c == 0x0A then Short(0x6E)
    else if c == 0x0C then Short(0x66)
    else if c == 0x0D then Short(0x72)
    else if c <= 0x1F then Unit(Quad(Nibble(0, false), Nibble(0, false), Nibble(c / 16, false), Nibble(c % 16, false)))
    else Plain(c)
  }

  function PartsOf(s: Text): (ps: seq<Part>)
    ensures |ps| == |s|
  {
    seq(|s|, i requires 0 <= i < |s| => PartOf(s[i]))
  }

  ghost function TreeOf(v: Json): Tree
    decreases v, 1, 0
  {
    match v
    case Null => Literal(NullWord)
    case Bool(b) => Literal(if b then TrueWord else FalseWord)
    case Int(n) => Number(n < 0, Digits(Abs(n)), [], NoExponent)
    case Str(s) => Quoted(PartsOf(s))
    case Arr(items) => if items == [] then EmptyList([]) else List([], ItemsOf(v, items))
    case Obj(m) =>
      var ks := SortedKeys(m.Keys);
      if ks == [] then EmptyDict([]) else Dict([], MembersOf(v, ks))
  }

  ghost function ItemsOf(v: Json, items: seq<Json>): Items
    requires v.Arr? && items != [] && forall x :: x in items ==> x in v.items
    decreases v, 0, |items|
  {
    assert items[0] in v.items;
    if |items| == 1 then LastItem(TreeOf(items[0]), []) else Item(TreeOf(items[0]), [], [], ItemsOf(v, items[1..]))
  }

  ghost function MembersOf(v: Json, ks: seq<Text>): Members
    requires v.Obj? && ks != [] && forall k :: k in ks ==> k in v.members
    decreases v, 0, |ks|
  {
    var key, tree := PartsOf(ks[0]), TreeOf(v.members[ks[0]]);
    if |ks| == 1 then LastMember(key, [], [], tree, []) else Member(key, [], [], tree, [], [], MembersOf(v, ks[1..]))
  }

  // ------------------------------------------------------------------ strings

  lemma PartPrinted(c: CodePoint)
    ensures PartHolds(PartOf(c)) && PartValue(PartOf(c)) == c && PartText(PartOf(c)) == Escape(c)
    ensures PartOf(c).Unit? ==> QuadValue(PartOf(c).q) <= 0x1F
  {
  }

  lemma {:induction false} PartsPrinted(s: Text, rest: Text)
    ensures PartsHold(PartsOf(s)) && PartsValue(PartsOf(s)) == s
    ensures PartsText(PartsOf(s), rest) == EscapeAll(s) + ([QUOTE] + rest)
  {
    hide PartOf, PartHolds, PartValue, PartText, Escape, QuadValue;
    if s != [] {
      PartsPrinted(s[1..], rest);
      PartPrinted(s[0]);
      if |s| > 1 { PartPrinted(s[1]); }
      assert PartsOf(s)[1..] == PartsOf(s[1..]);
      assert Escape(s[0]) + (EscapeAll(s[1..]) + ([QUOTE] + rest)) == EscapeAll(s) + ([QUOTE] + rest);
      assert s == [s[0]] + s[1..];
    }
  }

  lemma ReadStringInverts(t: Text, rest: Text)
    ensures ReadString(EscapeAll(t) + ([QUOTE] + rest)) == Got(t, rest)
  {
    PartsPrinted(t, rest);
    PartsRead(PartsOf(t), rest);
  }

  lemma StringPrinted(s: Text, rest: Text)
    ensures Spell(Quoted(PartsOf(s)), rest) == PrintString(s) + rest
  {
    PartsPrinted(s, rest);
    assert [QUOTE] + (EscapeAll(s) + ([QUOTE] + rest)) == PrintString(s) + rest;
  }

  // ----------------------------------------------------------------- integers

  lemma IntegerPrinted(n: int, rest: Text)
    requires BitLength(Abs(n)) <= MAX_INTEGER_BITS
    ensures Grammatical(TreeOf(Int(n))) && Outcome(TreeOf(Int(n))) == Ok(Int(n))
    ensures Spell(TreeOf(Int(n)), rest) == PrintInteger(n) + rest
  {
    hide Numeral, Pow, BitLength;
    ValueOfDigits(Abs(n));
    BitLengthBound(Abs(n), MAX_INTEGER_BITS);
    assert TailText([], NoExponent, rest) == rest;
  }

  lemma ReadNumberInverts(n: int, rest: Text)
    requires BitLength(Abs(n)) <= MAX_INTEGER_BITS && Delimited(rest)
    ensures ReadNumber(PrintInteger(n) + rest) == Got(Int(n), rest)
  {
    IntegerPrinted(n, rest);
    NumberReads(n < 0, Digits(Abs(n)), [], NoExponent, rest);
  }

  // ------------------------------------------------------------------- values

  ghost function PairsOf(v: Json, ks: seq<Text>): seq<Pair>
    requires v.Obj? && forall k :: k in ks ==> k in v.members
  {
    seq(|ks|, i requires 0 <= i < |ks| => Pair(ks[i], v.members[ks[i]]))
  }

  lemma MapOfPairs(v: Json, ks: seq<Text>)
    requires v.Obj? && Distinct(ks) && forall k :: k in ks <==> k in v.members
    ensures KeysDiffer(PairsOf(v, ks)) && MapOf(PairsOf(v, ks)) == v.members
  {
    hide Distinct;
    PairsDiffer(v, ks);
    var m := MapOf(PairsOf(v, ks));
    forall k ensures k in m <==> k in v.members {
      if k in v.members {
        var i :| 0 <= i < |ks| && ks[i] == k;
        assert PairsOf(v, ks)[i].key in m;
      }
    }
    assert m.Keys == v.members.Keys;
  }

  lemma PairsDiffer(v: Json, ks: seq<Text>)
    requires v.Obj? && Distinct(ks) && forall k :: k in ks ==> k in v.members
    ensures KeysDiffer(PairsOf(v, ks))
  {
    var ps := PairsOf(v, ks);
    forall i, j | 0 <= i < j < |ps| ensures ps[i].key != ps[j].key { assert ks[i] != ks[j]; }
  }

  lemma LiteralPrinted(v: Json, rest: Text)
    requires v.Null? || v.Bool?
    ensures Outcome(TreeOf(v)) == Ok(v) && Spell(TreeOf(v), rest) == Print(v) + rest
  {
    WordTexts();
  }

  /** The print of a value is the text of its tree, and says that value. */
  lemma {:induction false} TreePrinted(v: Json, rest: Text)
    requires IntegersFit(v)
    ensures Grammatical(TreeOf(v)) && Outcome(TreeOf(v)) == Ok(v) && Spell(TreeOf(v), rest) == Print(v) + rest
    decreases v, 1, 0
  {
    match v
    case Null => LiteralPrinted(v, rest);
    case Bool(_) => LiteralPrinted(v, rest);
    case Int(n) => IntegerPrinted(n, rest);
    case Str(s) =>
      PartsPrinted(s, rest);
      StringPrinted(s, rest);
    case Arr(items) => ListPrinted(v, rest);
    case Obj(m) => DictPrinted(v, rest);
  }

  lemma {:induction false} ListPrinted(v: Json, rest: Text)
    requires v.Arr? && IntegersFit(v)
    ensures Grammatical(TreeOf(v)) && Outcome(TreeOf(v)) == Ok(v) && Spell(TreeOf(v), rest) == Print(v) + rest
    decreases v, 0, |v.items| + 1
  {
    hide PrintItems, SpellItems, ItemsOutcome, IntegersFit;
    if v.items == [] {
      NothingPrinted(v);
      assert [LBRACKET] + ([] + ([RBRACKET] + rest)) == Print(v) + rest;
    } else {
      ItemsPrinted(v, v.items, rest);
      assert [LBRACKET] + ([] + (PrintItems(v, v.items) + ([RBRACKET] + rest))) == Print(v) + rest;
    }
  }

  lemma NothingPrinted(v: Json)
    ensures v.Arr? ==> PrintItems(v, []) == []
    ensures v.Obj? ==> PrintMembers(v, []) == []
  {
  }

  lemma {:induction false} ItemsPrinted(v: Json, items: seq<Json>, rest: Text)
    requires v.Arr? && IntegersFit(v) && items != [] && forall x :: x in items ==> x in v.items
    ensures ItemsHold(ItemsOf(v, items)) && ItemsOutcome(ItemsOf(v, items)) == Ok(items)
    ensures SpellItems(ItemsOf(v, items), rest) == PrintItems(v, items) + ([RBRACKET] + rest)
    decreases v, 0, |items|
  {
    hide Print, Spell, Outcome, Grammatical, TreeOf;
    var x := items[0];
    assert x in v.items;
    var close := [RBRACKET] + rest;
    if |items| == 1 {
      TreePrinted(x, close);
      assert [] + close == close && items == [x];
    } else {
      var tail := PrintItems(v, items[1..]) + close;
      ItemsPrinted(v, items[1..], rest);
      TreePrinted(x, [COMMA] + tail);
      assert [] + ([COMMA] + ([] + tail)) == [COMMA] + tail;
      RegroupList(Print(x), PrintItems(v, items[1..]), close);
      assert [x] + items[1..] == items;
    }
  }

  lemma {:induction false} DictPrinted(v: Json, rest: Text)
    requires v.Obj? && IntegersFit(v)
    ensures Grammatical(TreeOf(v)) && Outcome(TreeOf(v)) == Ok(v) && Spell(TreeOf(v), rest) == Print(v) + rest
    decreases v, 0, |v.members| + 1
  {
    hide PrintMembers, SpellMembers, MembersOutcome, IntegersFit, KeysDiffer, MapOf;
    var ks := SortedKeys(v.members.Keys);
    SortedKeysListing(v.members.Keys);
    if ks == [] {
      NothingPrinted(v);
      assert v.members.Keys == {};
      assert [LBRACE] + ([] + ([RBRACE] + rest)) == Print(v) + rest;
    } else {
      DistinctSize(ks);
      assert |v.members| == |v.members.Keys|;
      MembersPrinted(v, ks, rest);
      MapOfPairs(v, ks);
      assert [LBRACE] + ([] + (PrintMembers(v, ks) + ([RBRACE] + rest))) == Print(v) + rest;
    }
  }

  lemma {:induction false} MembersPrinted(v: Json, ks: seq<Text>, rest: Text)
    requires v.Obj? && IntegersFit(v) && ks != [] && forall k :: k in ks ==> k in v.members
    ensures MembersHold(MembersOf(v, ks)) && MembersOutcome(MembersOf(v, ks)) == Ok(PairsOf(v, ks))
    ensures SpellMembers(MembersOf(v, ks), rest) == PrintMembers(v, ks) + ([RBRACE] + rest)
    decreases v, 0, |ks|
  {
    hide Print, Spell, Outcome, Grammatical, TreeOf, PartsOf, PartsText, PartsHold, PartsValue, SpellMember,
      PrintMember;
    var k := ks[0];
    var x := v.members[k];
    var close := [RBRACE] + rest;
    PartsPrinted(k, []);
    if |ks| == 1 {
      TreePrinted(x, close);
      assert [] + close == close;
      MemberPrinted(v, k, close);
      assert PairsOf(v, ks) == [Pair(k, x)];
    } else {
      var tail := PrintMembers(v, ks[1..]) + close;
      MembersPrinted(v, ks[1..], rest);
      TreePrinted(x, [COMMA] + tail);
      assert [] + ([COMMA] + ([] + tail)) == [COMMA] + tail;
      MemberPrinted(v, k, [COMMA] + tail);
      RegroupList(PrintMember(v, k), PrintMembers(v, ks[1..]), close);
      assert PairsOf(v, ks) == [Pair(k, x)] + PairsOf(v, ks[1..]);
    }
  }

  lemma MemberPrinted(v: Json, k: Text, after: Text)
    requires v.Obj? && k in v.members
    ensures SpellMember(PartsOf(k), [], [], Print(v.members[k]) + after) == PrintMember(v, k) + after
  {
    hide Print;
    var value := Print(v.members[k]);
    PartsPrinted(k, [] + ([COLON] + ([] + (value + after))));
    assert [QUOTE] + (EscapeAll(k) + ([QUOTE] + ([] + ([COLON] + ([] + (value + after))))))
      == PrintString(k) + [COLON] + value + after;
  }

  lemma RegroupList(head: Text, tail: Text, close: Text)
    ensures head + [COMMA] + tail + close == head + ([COMMA] + (tail + close))
  {
  }

  /** ReadValue undoes Print in every delimited context. */
  lemma ReadInvertsPrint(v: Json, rest: Text)
    requires IntegersFit(v) && Delimited(rest)
    ensures ReadValue(Print(v) + rest) == Got(v, rest)
  {
    hide Print, Spell, ReadValue, Outcome, Grammatical;
    TreePrinted(v, rest);
    TreeReads(TreeOf(v), rest);
  }

  /** The canonical print spells its value. */
  lemma PrintSpells(v: Json)
    requires IntegersFit(v)
    ensures Spells(Print(v), v)
  {
    hide Print, Spell, Outcome, Grammatical;
    TreePrinted(v, []);
    assert Print(v) == [] + Spell(TreeOf(v), []) && Blank([]);
    assert IsTextOf(Print(v), TreeOf(v));
  }

  lemma ReadDocumentInverts(v: Json)
    requires IntegersFit(v)
    ensures ReadDocument(Print(v)) == Ok(v)
  {
    PrintSpells(v);
    ReadsExactly(Print(v), v);
  }

  // --------------------------------------------------- only such values are read

  lemma {:induction false} OutcomeFits(t: Tree)
    requires Grammatical(t) && Outcome(t).Ok?
    ensures IntegersFit(Outcome(t).value)
    decreases t
  {
    hide Pow, Numeral;
    match t
    case Literal(_) =>
    case Number(_, whole, _, _) => BitLengthBound(Numeral(whole), MAX_INTEGER_BITS);
    case Quoted(_) =>
    case EmptyList(_) =>
    case List(_, items) => ItemsFit(items);
    case EmptyDict(_) =>
    case Dict(_, members) => MembersFit(members);
  }

  lemma {:induction false} ItemsFit(items: Items)
    requires ItemsHold(items) && ItemsOutcome(items).Ok?
    ensures forall v :: v in ItemsOutcome(items).value ==> IntegersFit(v)
    decreases items
  {
    hide IntegersFit, Outcome;
    OutcomeFits(items.tree);
    if items.Item? { ItemsFit(items.rest); }
  }

  lemma {:induction false} MembersFit(members: Members)
    requires MembersHold(members) && MembersOutcome(members).Ok?
    ensures forall p :: p in MembersOutcome(members).value ==> IntegersFit(p.child)
    decreases members
  {
    hide IntegersFit, Outcome;
    OutcomeFits(members.tree);
    if members.Member? { MembersFit(members.rest); }
  }

  /** The reader returns no integer beyond the bit ceiling. */
  lemma ReadFits(s: Text, v: Json)
    requires ReadDocument(s) == Ok(v)
    ensures IntegersFit(v)
  {
    hide ReadDocument, IntegersFit;
    ReadsExactly(s, v);
    var t :| IsTextOf(s, t) && Outcome(t) == Ok(v);
    OutcomeFits(t);
  }

  /** Printed values separate: equal texts have equal values and equal remainders. */
  lemma PrintInjective(a: Json, b: Json, restA: Text, restB: Text)
    requires IntegersFit(a) && IntegersFit(b)
    requires Delimited(restA) && Delimited(restB)
    requires Print(a) + restA == Print(b) + restB
    ensures a == b && restA == restB
  {
    ReadInvertsPrint(a, restA);
    ReadInvertsPrint(b, restB);
  }
}
