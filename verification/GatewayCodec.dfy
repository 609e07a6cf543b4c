/** Canonical bytes of a value and the strict parser: the gateway's two entry points. */
module GatewayCodec {
  import opened Arithmetic
  import opened Strings
  import opened Wrappers
  import opened Json
  import opened CanonicalForm
  import opened CanonicalJson
  import opened JsonReader
  import opened JsonGrammar
  import opened JsonReading
  import opened JsonRoundTrip
  import opened ObjectGraph
  import opened GatewayPreflight
  import opened GatewayEncoder
  import Utf8

  // ----------------------------------------------------------- sorting keys

  function Insert(k: Text, ks: seq<Text>): (r: seq<Text>)
    requires StrictlySorted(ks) && k !in ks
    ensures Elements(r) == Elements(ks) + {k} && StrictlySorted(r)
    ensures forall x :: x in r <==> x == k || x in ks
  {
    if ks == [] then [k]
    else if Leq(k, ks[0]) then
      InsertFront(k, ks);
      [k] + ks
    else
      assert k !in ks[1..];
      LeqTotal(k, ks[0]);
      var rest := Insert(k, ks[1..]);
      assert forall x :: x in rest ==> Less(ks[0], x);
      [ks[0]] + rest
  }

  lemma InsertFront(k: Text, ks: seq<Text>)
    requires ks != [] && StrictlySorted(ks) && k !in ks && Leq(k, ks[0])
    ensures StrictlySorted([k] + ks)
  {
    forall i | 0 <= i < |ks| ensures Less(k, ks[i]) {
      if i > 0 {
        assert Less(ks[0], ks[i]);
        LeqTransitive(k, ks[0], ks[i]);
      }
    }
  }

  function Sort(ks: seq<Text>): (r: seq<Text>)
    requires Distinct(ks)
    ensures Elements(r) == Elements(ks) && StrictlySorted(r)
    ensures forall x :: x in r <==> x in ks
  {
    if ks == [] then [] else
      assert ks == [ks[0]] + ks[1..];
      Insert(ks[0], Sort(ks[1..]))
  }

  // ------------------------------------------------------- encoding a value

  /** b is the UTF-8 encoding of the text p. */
  predicate EncodesText(b: Bytes, p: Text) {
    Encodable(p) && b == Utf8.Encode(p)
  }

  lemma EncodesConcat(a: Bytes, p: Text, b: Bytes, q: Text)
    requires EncodesText(a, p) && EncodesText(b, q)
    ensures EncodesText(a + b, p + q)
  {
    Utf8.EncodeConcat(p, q);
  }

  lemma EncodesAscii(p: Text)
    requires forall i :: 0 <= i < |p| ==> p[i] < 0x80
    ensures EncodesText(p, p)
  {
    Utf8.EncodeAscii(p);
  }

  lemma EncodesEnclosed(open: Utf8.Byte, b: Bytes, p: Text, close: Utf8.Byte)
    requires EncodesText(b, p) && open < 0x80 && close < 0x80
    ensures EncodesText([open] + b + [close], [open] + p + [close])
  {
    EncodesAscii([open]);
    EncodesAscii([close]);
    EncodesConcat([open], [open], b, p);
    EncodesConcat([open] + b, [open] + p, [close], [close]);
  }

  lemma {:induction false} PrintItemsAppend(v: Json, items: seq<Json>, x: Json)
    requires v.Arr? && x in v.items && forall y :: y in items ==> y in v.items
    ensures PrintItems(v, items + [x]) ==
      if items == [] then Print(x) else PrintItems(v, items) + ([COMMA] + Print(x))
    decreases |items|
  {
    hide Print;
    var all := items + [x];
    assert forall y :: y in all ==> y in v.items;
    if items == [] {
      assert all == [x];
    } else {
      PrintItemsAppend(v, items[1..], x);
      assert all[1..] == items[1..] + [x];
      assert all[0] == items[0];
    }
  }

  lemma {:induction false} PrintMembersAppend(v: Json, ks: seq<Text>, k: Text)
    requires v.Obj? && k in v.members && forall y :: y in ks ==> y in v.members
    ensures PrintMembers(v, ks + [k]) ==
      if ks == [] then PrintMember(v, k) else PrintMembers(v, ks) + ([COMMA] + PrintMember(v, k))
    decreases |ks|
  {
    hide PrintMember, Print;
    var all := ks + [k];
    assert forall y :: y in all ==> y in v.members;
    if ks == [] {
      assert all == [k];
    } else {
      PrintMembersAppend(v, ks[1..], k);
      assert all[1..] == ks[1..] + [k];
      assert all[0] == ks[0];
    }
  }

  /** _encode_value on the object graph, after preflight has shown it finite. */
  method EncodeValue(h: Heap, v: Value, ghost left: nat, ghost t: Json) returns (out: Bytes)
    requires DictsDistinct(h) && Unfold(h, v, left) == Some(t) && AllEncodable(t)
    ensures EncodesText(out, Print(t))
    decreases left, 3
  {
    match v
    case VNull =>
      out := [0x6E, 0x75, 0x6C, 0x6C];
      EncodesAscii(NULL_TEXT);
    case VBool(b) =>
      out := if b then [0x74, 0x72, 0x75, 0x65] else [0x66, 0x61, 0x6C, 0x73, 0x65];
      EncodesAscii(out);
    case VInt(n) =>
      out := EncodeInteger(n);
      EncodesAscii(PrintInteger(n));
    case VStr(s) =>
      var r := EncodeString(s);
      out := r.value;
    case VRef(id) =>
      if h[id].ListOf? {
        out := EncodeList(h, id, left, t);
      } else {
        out := EncodeDict(h, id, left, t);
      }
  }

  method EncodeList(h: Heap, id: nat, ghost left: nat, ghost t: Json) returns (out: Bytes)
    requires DictsDistinct(h) && id < |h| && h[id].ListOf?
    requires Unfold(h, VRef(id), left) == Some(t) && AllEncodable(t)
    ensures EncodesText(out, Print(t))
    decreases left, 1
  {
    hide AllEncodable, EncodesText, Print;
    ghost var ts := Subtrees(h, id, left);
    assert t == Arr(ts);
    var body: Bytes := [];
    EncodesAscii([]);
    PrintedNothing(t);
    var i := 0;
    while i < |h[id].items|
      invariant i <= |ts| == |h[id].items| && EncodesText(body, PrintItems(t, ts[..i]))
    {
      ItemEncodable(t, i);
      var item := EncodeValue(h, h[id].items[i], left - 1, ts[i]);
      PrintItemsAppend(t, ts[..i], ts[i]);
      assert ts[..i + 1] == ts[..i] + [ts[i]];
      if i > 0 { JoinEncodes(body, PrintItems(t, ts[..i]), item, Print(ts[i])); }
      body := if i == 0 then item else body + ([0x2C] + item);
      i := i + 1;
    }
    assert ts[..i] == ts;
    EncodesEnclosed(0x5B, body, PrintItems(t, ts), 0x5D);
    out := [0x5B] + body + [0x5D];
    PrintedArray(t);
  }

  lemma ItemEncodable(t: Json, i: nat)
    requires t.Arr? && AllEncodable(t) && i < |t.items|
    ensures AllEncodable(t.items[i])
  {
  }

  lemma PrintedNothing(t: Json)
    ensures t.Arr? ==> PrintItems(t, []) == []
    ensures t.Obj? ==> PrintMembers(t, []) == []
  {
  }

  lemma PrintedArray(t: Json)
    requires t.Arr?
    ensures Print(t) == [0x5B] + PrintItems(t, t.items) + [0x5D]
  {
  }

  lemma JoinEncodes(a: Bytes, p: Text, b: Bytes, q: Text)
    requires EncodesText(a, p) && EncodesText(b, q)
    ensures EncodesText(a + ([0x2C] + b), p + ([COMMA] + q))
  {
    EncodesAscii([COMMA]);
    EncodesConcat([0x2C], [COMMA], b, q);
    EncodesConcat(a, p, [0x2C] + b, [COMMA] + q);
  }

  /** The position of a key; dict lookup. */
  function Lookup(es: seq<Entry>, k: Text): (i: nat)
    requires AllTextKeys(es) && k in TextKeys(es)
    ensures i < |es| && es[i].key == VStr(k)
  {
    if es[0].key.s == k then 0
    else
      assert k in TextKeys(es)[1..];
      assert TextKeys(es)[1..] == TextKeys(es[1..]);
      1 + Lookup(es[1..], k)
  }

  method EncodeDict(h: Heap, id: nat, ghost left: nat, ghost t: Json) returns (out: Bytes)
    requires DictsDistinct(h) && id < |h| && h[id].DictOf?
    requires Unfold(h, VRef(id), left) == Some(t) && AllEncodable(t)
    ensures EncodesText(out, Print(t))
    decreases left, 2
  {
    hide AllEncodable, EncodesText, Print, PrintMember, PrintString, DictsDistinct, Unfold;
    DictView(h, id, left, t);
    var sorted := Sort(TextKeys(h[id].entries));
    SortedListingUnique(sorted, SortedKeys(t.members.Keys));
    var body := EncodeMembers(h, id, sorted, left, t);
    EncodesEnclosed(0x7B, body, PrintMembers(t, sorted), 0x7D);
    out := [0x7B] + body + [0x7D];
    PrintedObject(t);
  }

  method EncodeMembers(h: Heap, id: nat, ks: seq<Text>, ghost left: nat, ghost t: Json) returns (body: Bytes)
    requires DictsDistinct(h) && id < |h| && h[id].DictOf? && AllTextKeys(h[id].entries)
    requires Unfold(h, VRef(id), left) == Some(t) && AllEncodable(t) && t.Obj?
    requires forall k :: k in ks ==> k in t.members && k in TextKeys(h[id].entries)
    ensures EncodesText(body, PrintMembers(t, ks))
    decreases left, 1
  {
    hide AllEncodable, EncodesText, Print, PrintMember, PrintString, DictsDistinct, Unfold;
    body := [];
    EncodesAscii([]);
    PrintedNothing(t);
    var i := 0;
    while i < |ks|
      invariant i <= |ks| && EncodesText(body, PrintMembers(t, ks[..i]))
    {
      var member := EncodeMember(h, id, ks[i], left, t);
      PrintMembersAppend(t, ks[..i], ks[i]);
      assert ks[..i + 1] == ks[..i] + [ks[i]];
      if i > 0 { JoinEncodes(body, PrintMembers(t, ks[..i]), member, PrintMember(t, ks[i])); }
      body := if i == 0 then member else body + ([0x2C] + member);
      i := i + 1;
    }
    assert ks[..i] == ks;
  }

  /** What unfolding says about a dict and each of its entries. */
  lemma DictView(h: Heap, id: nat, left: nat, t: Json)
    requires DictsDistinct(h) && id < |h| && h[id].DictOf? && Unfold(h, VRef(id), left) == Some(t)
    ensures left > 0 && AllTextKeys(h[id].entries) && Distinct(TextKeys(h[id].entries))
    ensures t.Obj? && t.members.Keys == Elements(TextKeys(h[id].entries))
    ensures Elements(SortedKeys(t.members.Keys)) == t.members.Keys
    ensures forall k :: k in TextKeys(h[id].entries) <==> k in t.members
    ensures forall i :: 0 <= i < |h[id].entries| ==>
      var k := h[id].entries[i].key.s;
      k in t.members && Unfold(h, h[id].entries[i].child, left - 1) == Some(t.members[k])
  {
    var ts := Subtrees(h, id, left);
    var ks := TextKeys(h[id].entries);
    KeysDistinct(h, id);
    SortedKeysListing(t.members.Keys);
    forall i | 0 <= i < |ks| ensures ks[i] in t.members && t.members[ks[i]] == ts[i] { CombineAt(ks, ts, i); }
    assert forall i :: 0 <= i < |ks| ==> Children(h[id])[i] == h[id].entries[i].child;
  }

  method EncodeMember(h: Heap, id: nat, k: Text, ghost left: nat, ghost t: Json) returns (out: Bytes)
    requires DictsDistinct(h) && id < |h| && h[id].DictOf?
    requires Unfold(h, VRef(id), left) == Some(t) && AllEncodable(t)
    requires t.Obj? && k in t.members && AllTextKeys(h[id].entries) && k in TextKeys(h[id].entries)
    ensures EncodesText(out, PrintMember(t, k))
    decreases left, 0
  {
    hide EncodesText, Print, PrintString, DictsDistinct, AllEncodable, Unfold, Escape, EscapeAll;
    DictView(h, id, left, t);
    MemberEncodable(t, k);
    var e := h[id].entries[Lookup(h[id].entries, k)];
    var key := EncodeString(k);
    var child := EncodeValue(h, e.child, left - 1, t.members[k]);
    MemberEncodes(t, k, key.value, child);
    out := key.value + [0x3A] + child;
  }

  lemma MemberEncodable(t: Json, k: Text)
    requires t.Obj? && AllEncodable(t) && k in t.members
    ensures Encodable(k) && AllEncodable(t.members[k])
  {
  }

  lemma MemberEncodes(t: Json, k: Text, key: Bytes, child: Bytes)
    requires t.Obj? && k in t.members
    requires Encodable(PrintString(k)) && key == Utf8.Encode(PrintString(k)) && EncodesText(child, Print(t.members[k]))
    ensures EncodesText(key + [0x3A] + child, PrintMember(t, k))
  {
    EncodesAscii([COLON]);
    EncodesConcat(key, PrintString(k), [0x3A], [COLON]);
    EncodesConcat(key + [0x3A], PrintString(k) + [COLON], child, Print(t.members[k]));
  }

  lemma PrintedObject(t: Json)
    requires t.Obj?
    ensures Print(t) == [0x7B] + PrintMembers(t, SortedKeys(t.members.Keys)) + [0x7D]
  {
  }

  // --------------------------------------------------- the canonical profile

  /** The tree fits the governed profile, counters and byte ceiling included. */
  ghost predicate WithinProfile(t: Json) {
    && Conforms(t, GATEWAY) && Nodes(t) <= MAX_SNAPSHOT_NODES && Total(t, TEXT) <= MAX_CANONICAL_BYTES
  }

  /** How many levels a tree has; scalars have one. */
  ghost predicate LevelsAtMost(t: Json, levels: nat) {
    levels > 0 &&
    match t
    case Arr(items) => forall x :: x in items ==> LevelsAtMost(x, levels - 1)
    case Obj(m) => forall k :: k in m ==> LevelsAtMost(m[k], levels - 1)
    case _ => true
  }

  /** What the canonical encoder accepts, as a property of the value alone. */
  ghost predicate Canonicalizable(t: Json) {
    && LevelsAtMost(t, LEVELS) && WithinProfile(t)
    && AllEncodable(t) && Encodable(Print(t)) && |Utf8.Encode(Print(t))| <= MAX_CANONICAL_BYTES
  }

  ghost function CanonicalBytesOf(t: Json): Bytes
    requires Canonicalizable(t)
  {
    Utf8.Encode(Print(t))
  }

  lemma {:induction false} ConformsFits(t: Json)
    requires Conforms(t, GATEWAY)
    ensures AllEncodable(t) && IntegersFit(t)
  {
    match t
    case Arr(items) =>
      forall x | x in items ensures AllEncodable(x) && IntegersFit(x) { ConformsFits(x); }
    case Obj(m) =>
      forall k | k in m ensures Encodable(k) && AllEncodable(m[k]) && IntegersFit(m[k]) { ConformsFits(m[k]); }
    case _ =>
  }

  lemma {:induction false} PrintEncodable(t: Json)
    requires AllEncodable(t)
    ensures Encodable(Print(t))
    decreases t, 1
  {
    match t
    case Str(s) => EscapeAllEncodable(s);
    case Arr(items) => PrintItemsEncodable(t, items);
    case Obj(m) => PrintMembersEncodable(t, SortedKeys(m.Keys));
    case _ =>
  }

  lemma {:induction false} PrintItemsEncodable(t: Json, items: seq<Json>)
    requires t.Arr? && AllEncodable(t) && forall x :: x in items ==> x in t.items
    ensures Encodable(PrintItems(t, items))
    decreases t, 0, |items|
  {
    if items != [] {
      assert items[0] in t.items;
      PrintEncodable(items[0]);
      PrintItemsEncodable(t, items[1..]);
    }
  }

  lemma {:induction false} PrintMembersEncodable(t: Json, ks: seq<Text>)
    requires t.Obj? && AllEncodable(t) && forall k :: k in ks ==> k in t.members
    ensures Encodable(PrintMembers(t, ks))
    decreases t, 0, |ks|
  {
    if ks != [] {
      EscapeAllEncodable(ks[0]);
      PrintEncodable(t.members[ks[0]]);
      PrintMembersEncodable(t, ks[1..]);
    }
  }

  /** Levels of the tree are levels of the graph. */
  lemma {:induction false} UnfoldLevels(h: Heap, v: Value, f: nat, g: nat, t: Json)
    requires DictsDistinct(h) && Unfold(h, v, f) == Some(t)
    ensures LevelsAtMost(t, g) <==> Unfold(h, v, g) == Some(t)
    decreases f
  {
    hide DictsDistinct, Assemble, Distinct, KeysOf;
    if v.VRef? && g > 0 {
      var ts := Subtrees(h, v.id, f);
      var cs := Children(h[v.id]);
      KeysDistinct(h, v.id);
      forall i | 0 <= i < |ts| ensures LevelsAtMost(ts[i], g - 1) <==> Unfold(h, cs[i], g - 1) == Some(ts[i]) {
        UnfoldLevels(h, cs[i], f - 1, g - 1, ts[i]);
      }
      AssembleLevels(h[v.id], ts, g);
      if forall i :: 0 <= i < |ts| ==> Unfold(h, cs[i], g - 1) == Some(ts[i]) {
        UnfoldContainer(h, v.id, g, ts);
      } else if Unfold(h, v, g) == Some(t) {
        var other := Subtrees(h, v.id, g);
        AssembleInjective(h[v.id], ts, other);
      }
    }
  }

  lemma AssembleLevels(c: Container, ts: seq<Json>, g: nat)
    requires WellKeyed(c) && |ts| == |Children(c)| && Distinct(KeysOf(c)) && g > 0
    ensures LevelsAtMost(Assemble(c, ts), g) <==> forall i :: 0 <= i < |ts| ==> LevelsAtMost(ts[i], g - 1)
  {
    hide Combine;
    if c.ListOf? {
      ListLevels(ts, g);
    } else {
      DictLevels(KeysOf(c), ts, g);
    }
  }

  lemma ListLevels(ts: seq<Json>, g: nat)
    requires g > 0
    ensures LevelsAtMost(Arr(ts), g) <==> forall i :: 0 <= i < |ts| ==> LevelsAtMost(ts[i], g - 1)
  {
    assert forall i :: 0 <= i < |ts| ==> ts[i] in Arr(ts).items;
  }

  lemma DictLevels(ks: seq<Text>, ts: seq<Json>, g: nat)
    requires |ks| == |ts| && Distinct(ks) && g > 0
    ensures LevelsAtMost(Obj(Combine(ks, ts)), g) <==> forall i :: 0 <= i < |ts| ==> LevelsAtMost(ts[i], g - 1)
  {
    hide Combine;
    var m := Combine(ks, ts);
    forall i | 0 <= i < |ks| ensures ks[i] in m && m[ks[i]] == ts[i] { CombineAt(ks, ts, i); }
    if LevelsAtMost(Obj(m), g) {
      forall i | 0 <= i < |ts| ensures LevelsAtMost(ts[i], g - 1) { assert ks[i] in m; }
    }
    if forall i :: 0 <= i < |ts| ==> LevelsAtMost(ts[i], g - 1) {
      forall k | k in m ensures LevelsAtMost(m[k], g - 1) {
        var i :| 0 <= i < |ks| && ks[i] == k;
      }
    }
  }

  lemma AssembleInjective(c: Container, ts: seq<Json>, us: seq<Json>)
    requires WellKeyed(c) && |ts| == |us| == |Children(c)| && Distinct(KeysOf(c))
    requires Assemble(c, ts) == Assemble(c, us)
    ensures ts == us
  {
    if c.DictOf? {
      forall i | 0 <= i < |ts| ensures ts[i] == us[i] {
        CombineAt(KeysOf(c), ts, i);
        CombineAt(KeysOf(c), us, i);
      }
    }
  }

  /** Preflight on a graph decides a property of the tree it denotes, at whatever depth that was found. */
  lemma AdmitsIffProfile(h: Heap, v: Value, f: nat, t: Json)
    requires DictsDistinct(h) && Unfold(h, v, f) == Some(t)
    ensures Admits(h, v, LEVELS, GATEWAY, 0, 0) <==> LevelsAtMost(t, LEVELS) && WithinProfile(t)
  {
    UnfoldLevels(h, v, f, LEVELS, t);
    if Unfold(h, v, LEVELS).Some? {
      if f <= LEVELS { UnfoldMonotone(h, v, f, LEVELS); } else { UnfoldMonotone(h, v, LEVELS, f); }
    }
  }

  /**
   * The public encoder: accepts exactly the canonicalizable values and returns their canonical bytes. Whatever denotes
   * a JSON value with valid text is refused, if at all, for a resource limit.
   */
  method CanonicalBytes(h: Heap, v: Value) returns (r: Result<Bytes, Fault>)
    requires DictsDistinct(h)
    ensures r.Ok? <==> Unfold(h, v, LEVELS).Some? && Canonicalizable(Unfold(h, v, LEVELS).value)
    ensures r.Ok? ==> r.value == CanonicalBytesOf(Unfold(h, v, LEVELS).value)
    ensures r.Err? && r.error != ResourceLimit ==> forall reach :: !Sayable(h, v, reach)
  {
    hide Unfold, Sayable, AllEncodable;
    var budget := new PreflightBudget();
    ghost var reach := FarEnough(h, v, LEVELS);
    var fault := budget.Preflight(h, v, 0, reach);
    if Unfold(h, v, LEVELS).Some? { AdmitsIffProfile(h, v, LEVELS, Unfold(h, v, LEVELS).value); }
    if fault.Some? { return Err(fault.value); }
    ghost var t := Unfold(h, v, LEVELS).value;
    ConformsFits(t);
    PrintEncodable(t);
    var encoded := EncodeValue(h, v, LEVELS, t);
    if |encoded| > MAX_CANONICAL_BYTES { return Err(ResourceLimit); }
    r := Ok(encoded);
  }

  // ------------------------------------------------------------ strict parsing

  const MAX_RAW_JSON_BYTES: nat := 1048576

  datatype Rejection = RawTooLong | ByteOrderMark | InvalidUtf8 | Grammar(fault: Fault) | OutsideProfile

  /** The UTF-8 byte order mark. */
  predicate HasMark(raw: Bytes) {
    |raw| >= 3 && raw[0] == 0xEF && raw[1] == 0xBB && raw[2] == 0xBF
  }

  /** The strict parser on raw bytes; its value has passed the whole canonical profile. */
  ghost function ParseStrict(raw: Bytes): Result<Json, Rejection> {
    if |raw| > MAX_RAW_JSON_BYTES then Err(RawTooLong)
    else if HasMark(raw) then Err(ByteOrderMark)
    else match Utf8.Decode(raw)
      case None => Err(InvalidUtf8)
      case Some(text) =>
        match ReadDocument(text)
        case Err(f) => Err(Grammar(f))
        case Ok(v) => if Canonicalizable(v) then Ok(v) else Err(OutsideProfile)
  }

  /** No text of a value starts with a byte order mark, so rejecting the mark rejects nothing else. */
  lemma MarkedIsNoText(s: Text)
    requires Encodable(s) && HasMark(Utf8.Encode(s))
    ensures ReadDocument(s).Err?
  {
    Utf8.DecodeInvertsEncode(s);
    assert Utf8.DecodeCodePoint(Utf8.Encode(s)) == Some((0xFEFF, 3));
    assert s[0] == 0xFEFF;
    assert SkipWs(s) == s;
  }

  /** The strict parser accepts exactly the UTF-8 of texts that spell a canonicalizable value, and returns that value. */
  lemma ParsesExactly(raw: Bytes, v: Json)
    ensures ParseStrict(raw) == Ok(v) <==>
      |raw| <= MAX_RAW_JSON_BYTES && Canonicalizable(v)
      && exists s :: Encodable(s) && Utf8.Encode(s) == raw && Spells(s, v)
  {
    hide ReadDocument, Canonicalizable, Spells, Utf8.Decode;
    if ParseStrict(raw) == Ok(v) {
      Utf8.EncodeInvertsDecode(raw);
      ReadsExactly(Utf8.Decode(raw).value, v);
    } else if s :| Encodable(s) && Utf8.Encode(s) == raw && Spells(s, v) {
      Utf8.DecodeInvertsEncode(s);
      ReadsExactly(s, v);
      if HasMark(raw) { MarkedIsNoText(s); }
    }
  }

  /** And the UTF-8 of any other text of the grammar is refused for the first fault that the text shows. */
  lemma ParseReports(s: Text, t: Tree)
    requires IsTextOf(s, t) && Encodable(s) && |Utf8.Encode(s)| <= MAX_RAW_JSON_BYTES && !HasMark(Utf8.Encode(s))
    ensures ParseStrict(Utf8.Encode(s)) ==
      match Outcome(t) {
        case Err(f) => Err(Grammar(f))
        case Ok(v) => if Canonicalizable(v) then Ok(v) else Err(OutsideProfile)
      }
  {
    hide ReadDocument, Canonicalizable, Outcome, IsTextOf, Utf8.Decode;
    Utf8.DecodeInvertsEncode(s);
    DocumentReads(s, t);
  }

  /** Parsing the canonical bytes of any canonicalizable value returns that value. */
  lemma ParseInvertsCanonical(t: Json)
    requires Canonicalizable(t)
    ensures ParseStrict(CanonicalBytesOf(t)) == Ok(t)
  {
    var raw := CanonicalBytesOf(t);
    ConformsFits(t);
    Utf8.DecodeInvertsEncode(Print(t));
    ReadDocumentInverts(t);
    PrintedFirstByte(t);
  }

  lemma PrintedFirstByte(t: Json)
    requires Encodable(Print(t))
    ensures var b := Utf8.Encode(Print(t)); b != [] && b[0] < 0x80
  {
    if t.Int? { ValueOfDigits(Abs(t.n)); }
    assert Print(t) != [] && Print(t)[0] < 0x80;
  }

  /** Whatever bytes are accepted, re-encoding and re-parsing the value is a fixed point. */
  lemma ReparseFixedPoint(raw: Bytes)
    requires ParseStrict(raw).Ok?
    ensures Canonicalizable(ParseStrict(raw).value)
    ensures ParseStrict(CanonicalBytesOf(ParseStrict(raw).value)) == ParseStrict(raw)
  {
    ParseInvertsCanonical(ParseStrict(raw).value);
  }

  /** Canonical bytes are the same for two values exactly when the values are equal. */
  lemma CanonicalBytesInjective(a: Json, b: Json)
    requires Canonicalizable(a) && Canonicalizable(b)
    ensures CanonicalBytesOf(a) == CanonicalBytesOf(b) <==> a == b
  {
    if CanonicalBytesOf(a) == CanonicalBytesOf(b) {
      ParseInvertsCanonical(a);
      ParseInvertsCanonical(b);
    }
  }

  /** The canonical bytes are the UTF-8 of the one shortest tidy text of the value. */
  lemma CanonicalBytesTidy(v: Json)
    requires Canonicalizable(v)
    ensures exists s ::
      && Encodable(s) && CanonicalBytesOf(v) == Utf8.Encode(s) && TidyTextOf(s, v)
      && forall r :: TidyTextOf(r, v) ==> |s| < |r| || r == s
  {
    hide TidyTextOf;
    ConformsFits(v);
    PrintIsTidy(v);
    var s := Print(v);
    assert CanonicalBytesOf(v) == Utf8.Encode(s);
    forall r | TidyTextOf(r, v) ensures |s| < |r| || r == s { TidyIsLonger(r, v); }
  }

  /** Byte-level separability: delimited remainders are recovered too. */
  lemma CanonicalBytesSeparable(a: Json, b: Json, restA: Text, restB: Text)
    requires Canonicalizable(a) && Canonicalizable(b)
    requires Delimited(restA) && Delimited(restB) && Encodable(restA) && Encodable(restB)
    requires CanonicalBytesOf(a) + Utf8.Encode(restA) == CanonicalBytesOf(b) + Utf8.Encode(restB)
    ensures a == b && restA == restB
  {
    ConformsFits(a);
    ConformsFits(b);
    Utf8.EncodeConcat(Print(a), restA);
    Utf8.EncodeConcat(Print(b), restB);
    Utf8.DecodeInvertsEncode(Print(a) + restA);
    Utf8.DecodeInvertsEncode(Print(b) + restB);
    PrintInjective(a, b, restA, restB);
  }
}
