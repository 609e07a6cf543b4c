/** What makes the canonical print canonical: of all tidy texts that say a value it is the only shortest one. */
module CanonicalForm {
  import opened Arithmetic
  import opened Strings
  import opened Wrappers
  import opened Json
  import opened CanonicalJson
  import opened JsonReader
  import opened JsonGrammar
  import opened JsonReading
  import opened JsonRoundTrip

  // ------------------------------------------------------------- tidy texts

  predicate LowerQuad(q: Quad) {
    !q.a.upper && !q.b.upper && !q.c.upper && !q.d.upper
  }

  predicate LowerPart(p: Part) {
    match p
    case Unit(q) => LowerQuad(q)
    case Pair16(high, low) => LowerQuad(high) && LowerQuad(low)
    case _ => true
  }

  predicate LowerParts(ps: seq<Part>) {
    forall i :: 0 <= i < |ps| ==> LowerPart(ps[i])
  }

  ghost function KeysIn(members: Members): seq<Text>
    requires MembersHold(members)
  {
    [PartsValue(members.key)] + if members.LastMember? then [] else KeysIn(members.rest)
  }

  /** Hexadecimal digits in lower case and keys in dictionary order, throughout. */
  ghost predicate Tidy(t: Tree)
    requires Grammatical(t)
  {
    match t
    case Quoted(parts) => LowerParts(parts)
    case List(_, items) => TidyItems(items)
    case Dict(_, members) => TidyMembers(members) && Ascending(KeysIn(members))
    case _ => true
  }

  ghost predicate TidyItems(items: Items)
    requires ItemsHold(items)
  {
    Tidy(items.tree) && (items.Item? ==> TidyItems(items.rest))
  }

  ghost predicate TidyMembers(members: Members)
    requires MembersHold(members)
  {
    LowerParts(members.key) && Tidy(members.tree) && (members.Member? ==> TidyMembers(members.rest))
  }

  /** a is longer than b, or is b. */
  predicate LongerOr(a: Text, b: Text) {
    |a| > |b| || a == b
  }

  lemma LongerOrJoins(a: Text, b: Text, c: Text, d: Text)
    requires LongerOr(a, b) && LongerOr(c, d)
    ensures LongerOr(a + c, b + d)
  {
  }

  lemma LongerOrChains(a: Text, b: Text, c: Text)
    requires LongerOr(a, b) && LongerOr(b, c)
    ensures LongerOr(a, c)
  {
  }

  lemma GapsLonger(gap: Text, a: Text, b: Text)
    requires LongerOr(a, b)
    ensures LongerOr(gap + a, b)
  {
    if gap == [] { assert gap + a == a; }
  }

  // ----------------------------------------------------------------- scalars

  /** Of the ways to write a character, the printer's is the shortest, in lower case the only one as short. */
  lemma EscapeShortest(p: Part)
    requires PartHolds(p) && LowerPart(p)
    ensures LongerOr(PartText(p), Escape(PartValue(p)))
  {
    if p.Unit? && |Escape(PartValue(p))| == 6 {
      var q, c := p.q, PartValue(p);
      assert q.a.n == 0 && q.b.n == 0 && q.c.n == c / 16 && q.d.n == c % 16;
      assert NibbleText(q.c) == HexDigit(c / 16) && NibbleText(q.d) == HexDigit(c % 16);
      assert PartText(p) == Escape(c);
    }
  }

  lemma {:induction false} PartsShortest(ps: seq<Part>, rest: Text)
    requires PartsHold(ps) && LowerParts(ps)
    ensures LongerOr(PartsText(ps, rest), EscapeAll(PartsValue(ps)) + ([QUOTE] + rest))
  {
    hide PartText, PartHolds, PartValue, LowerPart, Escape, LongerOr;
    if ps == [] {
      assert PartsText(ps, rest) == EscapeAll([]) + ([QUOTE] + rest);
      Same(PartsText(ps, rest));
    } else {
      EscapeShortest(ps[0]);
      PartsShortest(ps[1..], rest);
      var t := PartsValue(ps[1..]);
      LongerOrJoins(PartText(ps[0]), Escape(PartValue(ps[0])), PartsText(ps[1..], rest), EscapeAll(t) + ([QUOTE] + rest));
      EscapeAllGrows(PartValue(ps[0]), t, [QUOTE] + rest);
    }
  }

  lemma Same(a: Text)
    ensures LongerOr(a, a)
  {
  }

  lemma EscapeAllGrows(c: CodePoint, t: Text, rest: Text)
    ensures EscapeAll([c] + t) + rest == Escape(c) + (EscapeAll(t) + rest)
  {
    assert ([c] + t)[1..] == t;
  }

  /** A numeral without leading zeros is the only one of its value. */
  lemma {:induction false} NumeralCanonical(ds: seq<Digit>)
    requires NoLeadingZero(ds)
    ensures Digits(Numeral(ds)) == ds && (|ds| > 1 ==> Numeral(ds) >= 10)
  {
    var n := |ds| - 1;
    if n == 0 {
      assert ds[..0] == [] && ds == [ds[0]];
    } else {
      var front := ds[..n];
      NumeralCanonical(front);
      ValueAtLeast(front);
      PowPositive(10, n - 1);
      assert Numeral(ds) == 10 * Numeral(front) + ds[n];
      assert Numeral(ds) / 10 == Numeral(front) && Numeral(ds) % 10 == ds[n];
      assert ds == front + [ds[n]];
    }
  }

  lemma NumberShortest(t: Tree, rest: Text)
    requires t.Number? && Grammatical(t) && Outcome(t).Ok?
    ensures LongerOr(Spell(t, rest), Print(Outcome(t).value) + rest)
  {
    hide Pow;
    var n := Outcome(t).value.n;
    NumeralCanonical(t.whole);
    assert Digits(Abs(n)) == t.whole;
    assert TailText([], NoExponent, rest) == rest;
    assert Print(Int(n)) == (if n < 0 then [MINUS] else []) + DigitText(t.whole);
    assert Of("-") == [MINUS];
    if t.negative && n >= 0 {
      assert |Spell(t, rest)| == 1 + |Print(Int(n)) + rest|;
    } else {
      assert Spell(t, rest) == Print(Int(n)) + rest;
    }
  }

  lemma LiteralShortest(t: Tree, rest: Text)
    requires t.Literal? && Outcome(t).Ok?
    ensures Spell(t, rest) == Print(Outcome(t).value) + rest
  {
    WordTexts();
  }

  lemma QuotedShortest(parts: seq<Part>, rest: Text)
    requires PartsHold(parts) && LowerParts(parts)
    ensures LongerOr(Spell(Quoted(parts), rest), PrintString(PartsValue(parts)) + rest)
  {
    hide PartsText, EscapeAll, PartsHold, PartsValue, LowerParts, LongerOr;
    PartsShortest(parts, rest);
    var s := PartsValue(parts);
    Same([QUOTE]);
    assert [QUOTE] + (EscapeAll(s) + ([QUOTE] + rest)) == PrintString(s) + rest;
    LongerOrJoins([QUOTE], [QUOTE], PartsText(parts, rest), EscapeAll(s) + ([QUOTE] + rest));
  }

  // -------------------------------------------------------------- containers

  /** What closes or continues a list or dict, after the blanks before it. */
  lemma TailShortest(s: Text, printed: Text, after: Text, mark: CodePoint, a: Text, b: Text)
    requires LongerOr(s, printed + (after + ([mark] + a))) && LongerOr(a, b)
    ensures LongerOr(s, printed + ([mark] + b))
  {
    LongerOrJoins([mark], [mark], a, b);
    GapsLonger(after, [mark] + a, [mark] + b);
    Same(printed);
    LongerOrJoins(printed, printed, after + ([mark] + a), [mark] + b);
  }

  /** The canonical print is the only shortest tidy text of its value. */
  lemma {:induction false} TreeShortest(t: Tree, rest: Text)
    requires Grammatical(t) && Tidy(t) && Outcome(t).Ok?
    ensures LongerOr(Spell(t, rest), Print(Outcome(t).value) + rest)
    decreases t
  {
    match t
    case Literal(_) => LiteralShortest(t, rest);
    case Number(_, _, _, _) => NumberShortest(t, rest);
    case Quoted(parts) => QuotedShortest(parts, rest);
    case EmptyList(gap) => EmptyShortest(gap, rest);
    case EmptyDict(gap) => EmptyShortest(gap, rest);
    case List(gap, items) => ListShortest(gap, items, rest);
    case Dict(gap, members) => DictShortest(gap, members, MembersOutcome(members).value, rest);
  }

  lemma EmptyShortest(gap: Text, rest: Text)
    ensures LongerOr(Spell(EmptyList(gap), rest), Print(Arr([])) + rest)
    ensures LongerOr(Spell(EmptyDict(gap), rest), Print(Obj(map[])) + rest)
  {
    NothingPrinted(Arr([]));
    NothingPrinted(Obj(map[]));
    assert Print(Arr([])) + rest == [LBRACKET] + ([RBRACKET] + rest);
    var none: map<Text, Json> := map[];
    assert SortedKeys(none.Keys) == [];
    assert Print(Obj(map[])) + rest == [LBRACE] + ([RBRACE] + rest);
    if gap == [] { assert gap + ([RBRACKET] + rest) == [RBRACKET] + rest && gap + ([RBRACE] + rest) == [RBRACE] + rest; }
  }

  lemma {:induction false} ListShortest(gap: Text, items: Items, rest: Text)
    requires ItemsHold(items) && TidyItems(items) && ItemsOutcome(items).Ok?
    ensures LongerOr(Spell(List(gap, items), rest), Print(Arr(ItemsOutcome(items).value)) + rest)
    decreases items, 1
  {
    hide LongerOr, PrintItems, SpellItems, ItemsOutcome;
    var v := Arr(ItemsOutcome(items).value);
    var printed := PrintItems(v, v.items) + ([RBRACKET] + rest);
    ItemsShortest(items, v, rest);
    GapsLonger(gap, SpellItems(items, rest), printed);
    Same([LBRACKET]);
    LongerOrJoins([LBRACKET], [LBRACKET], gap + SpellItems(items, rest), printed);
    assert [LBRACKET] + printed == Print(v) + rest;
  }

  lemma {:induction false} ItemsShortest(items: Items, v: Json, rest: Text)
    requires ItemsHold(items) && TidyItems(items) && ItemsOutcome(items).Ok?
    requires v.Arr? && forall x :: x in ItemsOutcome(items).value ==> x in v.items
    ensures LongerOr(SpellItems(items, rest), PrintItems(v, ItemsOutcome(items).value) + ([RBRACKET] + rest))
    decreases items, 0
  {
    hide LongerOr, Print, Spell, Outcome, Tidy, Grammatical;
    var vs, x := ItemsOutcome(items).value, Outcome(items.tree).value;
    assert vs[0] == x;
    var close := [RBRACKET] + rest;
    if items.LastItem? {
      TreeShortest(items.tree, items.after + close);
      Same(rest);
      TailShortest(Spell(items.tree, items.after + close), Print(x), items.after, RBRACKET, rest, rest);
      assert vs == [x];
    } else {
      var ws := ItemsOutcome(items.rest).value;
      assert vs == [x] + ws && vs[1..] == ws;
      var next := SpellItems(items.rest, rest);
      var more := items.before + next;
      TreeShortest(items.tree, items.after + ([COMMA] + more));
      ItemsShortest(items.rest, v, rest);
      GapsLonger(items.before, next, PrintItems(v, ws) + close);
      TailShortest(Spell(items.tree, items.after + ([COMMA] + more)), Print(x), items.after, COMMA, more,
                   PrintItems(v, ws) + close);
      RegroupList(Print(x), PrintItems(v, ws), close);
      ItemsNonEmpty(items.rest);
    }
  }

  lemma ItemsNonEmpty(items: Items)
    requires ItemsHold(items) && ItemsOutcome(items).Ok?
    ensures ItemsOutcome(items).value != []
  {
  }

  lemma {:induction false} KeysOfPairs(members: Members)
    requires MembersHold(members) && MembersOutcome(members).Ok?
    ensures var ps, ks := MembersOutcome(members).value, KeysIn(members);
      ps != [] && |ks| == |ps| && forall i :: 0 <= i < |ps| ==> ks[i] == ps[i].key
  {
    hide PartsValue, PartsHold, Outcome;
    if members.Member? { KeysOfPairs(members.rest); }
  }

  lemma SortedMembers(ps: seq<Pair>, ks: seq<Text>)
    requires KeysDiffer(ps) && |ks| == |ps| && (forall i :: 0 <= i < |ps| ==> ks[i] == ps[i].key) && Ascending(ks)
    ensures SortedKeys(MapOf(ps).Keys) == ks
  {
    hide Ascending;
    var m := MapOf(ps);
    forall k ensures k in Elements(ks) <==> k in m {
      if k in ks {
        var i :| 0 <= i < |ks| && ks[i] == k;
        assert ps[i].key in m;
      }
    }
    assert Elements(ks) == m.Keys;
    SortedExactly(m.Keys, ks);
  }

  ghost predicate Among(ps: seq<Pair>, v: Json) {
    v.Obj? && forall i :: 0 <= i < |ps| ==> ps[i].key in v.members && v.members[ps[i].key] == ps[i].child
  }

  lemma PairsAmong(ps: seq<Pair>)
    requires KeysDiffer(ps)
    ensures Among(ps, Obj(MapOf(ps)))
  {
  }

  lemma {:induction false} DictShortest(gap: Text, members: Members, ps: seq<Pair>, rest: Text)
    requires MembersHold(members) && TidyMembers(members) && Ascending(KeysIn(members))
    requires MembersOutcome(members) == Ok(ps) && KeysDiffer(ps)
    ensures LongerOr(Spell(Dict(gap, members), rest), Print(Obj(MapOf(ps))) + rest)
    decreases members, 1
  {
    hide LongerOr, Print, PrintMembers, SpellMembers, MembersOutcome, TidyMembers, Ascending, KeysDiffer, MapOf, Among,
      MembersHold, KeysIn;
    var ks, v := KeysIn(members), Obj(MapOf(ps));
    KeysOfPairs(members);
    SortedMembers(ps, ks);
    PairsAmong(ps);
    MembersShortest(members, v, rest);
    var printed := PrintMembers(v, ks) + ([RBRACE] + rest);
    GapsLonger(gap, SpellMembers(members, rest), printed);
    Same([LBRACE]);
    LongerOrJoins([LBRACE], [LBRACE], gap + SpellMembers(members, rest), printed);
    DictPrint(v.members, ks, rest);
  }

  lemma DictPrint(m: map<Text, Json>, ks: seq<Text>, rest: Text)
    requires SortedKeys(m.Keys) == ks
    ensures Print(Obj(m)) + rest == [LBRACE] + (PrintMembers(Obj(m), ks) + ([RBRACE] + rest))
  {
    hide PrintMembers;
  }

  lemma {:induction false} MembersShortest(members: Members, v: Json, rest: Text)
    requires MembersHold(members) && TidyMembers(members) && MembersOutcome(members).Ok?
    requires Among(MembersOutcome(members).value, v)
    ensures v.Obj? && forall k :: k in KeysIn(members) ==> k in v.members
    ensures LongerOr(SpellMembers(members, rest), PrintMembers(v, KeysIn(members)) + ([RBRACE] + rest))
    decreases members, 0
  {
    hide LongerOr, Print, Spell, Outcome, Tidy, Grammatical, SpellMember, PrintMember, PartsHold, PartsValue,
      LowerParts;
    KeysOfPairs(members);
    var ks, k, x := KeysIn(members), PartsValue(members.key), Outcome(members.tree).value;
    assert MembersOutcome(members).value[0] == Pair(k, x);
    var close := [RBRACE] + rest;
    if members.LastMember? {
      TreeShortest(members.tree, members.after + close);
      Same(rest);
      TailShortest(Spell(members.tree, members.after + close), Print(x), members.after, RBRACE, rest, rest);
      MemberShortest(members, v, k, Spell(members.tree, members.after + close), close);
      assert ks == [k];
    } else {
      var ls := KeysIn(members.rest);
      assert ks == [k] + ls && ks[1..] == ls;
      var next := SpellMembers(members.rest, rest);
      var more := members.before + next;
      var value := Spell(members.tree, members.after + ([COMMA] + more));
      assert MembersOutcome(members).value[1..] == MembersOutcome(members.rest).value;
      MembersShortest(members.rest, v, rest);
      KeysOfPairs(members.rest);
      var printed := PrintMembers(v, ls) + close;
      TreeShortest(members.tree, members.after + ([COMMA] + more));
      GapsLonger(members.before, next, printed);
      TailShortest(value, Print(x), members.after, COMMA, more, printed);
      MemberShortest(members, v, k, value, [COMMA] + printed);
      RegroupList(PrintMember(v, k), PrintMembers(v, ls), close);
    }
  }

  /** A key, its colon, and a value of which something is already known. */
  lemma MemberShortest(m: Members, v: Json, k: Text, value: Text, after: Text)
    requires PartsHold(m.key) && LowerParts(m.key) && k == PartsValue(m.key) && v.Obj? && k in v.members
    requires LongerOr(value, Print(v.members[k]) + after)
    ensures LongerOr(SpellMember(m.key, m.beforeColon, m.afterColon, value), PrintMember(v, k) + after)
  {
    hide LongerOr, Print, PartsText, EscapeAll, PartsHold, PartsValue, LowerParts;
    var printed := Print(v.members[k]) + after;
    var colon := [COLON] + (m.afterColon + value);
    var tail := m.beforeColon + colon;
    GapsLonger(m.afterColon, value, printed);
    Same([COLON]);
    LongerOrJoins([COLON], [COLON], m.afterColon + value, printed);
    GapsLonger(m.beforeColon, colon, [COLON] + printed);
    PartsShortest(m.key, tail);
    var quoted := EscapeAll(k);
    Same([QUOTE]);
    Same(quoted);
    LongerOrJoins([QUOTE], [QUOTE], tail, [COLON] + printed);
    LongerOrJoins(quoted, quoted, [QUOTE] + tail, [QUOTE] + ([COLON] + printed));
    LongerOrChains(PartsText(m.key, tail), quoted + ([QUOTE] + tail), quoted + ([QUOTE] + ([COLON] + printed)));
    LongerOrJoins([QUOTE], [QUOTE], PartsText(m.key, tail), quoted + ([QUOTE] + ([COLON] + printed)));
    assert [QUOTE] + (quoted + ([QUOTE] + ([COLON] + printed))) == PrintMember(v, k) + after;
  }

  // ------------------------------------------------------- the print is tidy

  lemma PartsLower(s: Text)
    ensures LowerParts(PartsOf(s))
  {
  }

  lemma {:induction false} TreeTidy(v: Json)
    requires IntegersFit(v)
    ensures Grammatical(TreeOf(v)) && Tidy(TreeOf(v))
    decreases v, 1, 0
  {
    hide PartsOf, LowerParts, Ascending;
    TreePrinted(v, []);
    match v
    case Str(s) => PartsLower(s);
    case Arr(items) => if items != [] { ItemsTidy(v, items); }
    case Obj(m) =>
      var ks := SortedKeys(m.Keys);
      SortedExactly(m.Keys, ks);
      if ks != [] { MembersTidy(v, ks); }
    case _ =>
  }

  lemma {:induction false} ItemsTidy(v: Json, items: seq<Json>)
    requires v.Arr? && IntegersFit(v) && items != [] && forall x :: x in items ==> x in v.items
    ensures ItemsHold(ItemsOf(v, items)) && TidyItems(ItemsOf(v, items))
    decreases v, 0, |items|
  {
    hide TreeOf, Grammatical, Tidy;
    assert items[0] in v.items;
    TreeTidy(items[0]);
    if |items| > 1 { ItemsTidy(v, items[1..]); }
  }

  lemma {:induction false} MembersTidy(v: Json, ks: seq<Text>)
    requires v.Obj? && IntegersFit(v) && ks != [] && forall k :: k in ks ==> k in v.members
    ensures MembersHold(MembersOf(v, ks)) && TidyMembers(MembersOf(v, ks)) && KeysIn(MembersOf(v, ks)) == ks
    decreases v, 0, |ks|
  {
    hide TreeOf, Grammatical, Tidy, PartsOf, PartsHold, PartsValue, LowerParts;
    PartsPrinted(ks[0], []);
    PartsLower(ks[0]);
    TreeTidy(v.members[ks[0]]);
    if |ks| > 1 {
      MembersTidy(v, ks[1..]);
      assert ks == [ks[0]] + ks[1..];
    } else {
      assert ks == [ks[0]];
    }
  }

  // ----------------------------------------------------------------- the theorem

  /** s is a tidy text of v. */
  ghost predicate TidyTextOf(s: Text, v: Json) {
    exists t :: IsTextOf(s, t) && Tidy(t) && Outcome(t) == Ok(v)
  }

  lemma PrintIsTidy(v: Json)
    requires IntegersFit(v)
    ensures TidyTextOf(Print(v), v)
  {
    hide Print, Spell, Outcome, Tidy, Grammatical;
    TreePrinted(v, []);
    TreeTidy(v);
    assert Print(v) == [] + Spell(TreeOf(v), []) && Blank([]);
    assert IsTextOf(Print(v), TreeOf(v));
  }

  /**
   * The canonical print of a value is a tidy text of it, and every other tidy text of it is longer: no blanks, no longer
   * escape than need be, hexadecimal digits in lower case, keys in dictionary order.
   */
  lemma PrintIsShortest(s: Text, v: Json)
    requires IntegersFit(v)
    ensures s == Print(v) <==> TidyTextOf(s, v) && forall r :: TidyTextOf(r, v) ==> |s| <= |r|
  {
    hide Print, TidyTextOf;
    PrintIsTidy(v);
    forall r | TidyTextOf(r, v) ensures LongerOr(r, Print(v)) { TidyIsLonger(r, v); }
  }

  lemma TidyIsLonger(s: Text, v: Json)
    requires TidyTextOf(s, v)
    ensures LongerOr(s, Print(v))
  {
    hide Print, Spell, Outcome, Tidy, Grammatical, Blank;
    var t :| IsTextOf(s, t) && Tidy(t) && Outcome(t) == Ok(v);
    var before, after :| Blank(before) && Blank(after) && s == before + Spell(t, after);
    TreeShortest(t, after);
    var p := Print(v);
    if before == [] && after == [] { assert s == Spell(t, after) && p + after == p; }
  }
}
