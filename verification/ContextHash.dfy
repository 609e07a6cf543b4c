/** The canonical context string: newline-joined, control characters rejected, injective. */
module ContextHash {
  import opened Wrappers
  import opened Strings
  import Utf8

  const NEWLINE: CodePoint := 0x0A
  const EQUALS: CodePoint := 0x3D

  predicate IsControl(c: CodePoint) {
    c < 0x20 || c == 0x7F
  }

  predicate Clean(t: Text) {
    forall i :: 0 <= i < |t| ==> !IsControl(t[i])
  }

  /** _reject_control_chars */
  method RejectControlChars(value: Text) returns (ok: bool)
    ensures ok <==> forall i :: 0 <= i < |value| ==> 0x20 <= value[i] && value[i] != 0x7F
    ensures ok <==> Clean(value)
  {
    for i := 0 to |value|
      invariant forall j :: 0 <= j < i ==> !IsControl(value[j])
    {
      if IsControl(value[i]) { return false; }
    }
    return true;
  }

  predicate Acceptable(wallet: Text, action: Text, fields: map<Text, Text>) {
    && Clean(wallet) && Clean(action)
    && forall k :: k in fields ==> Clean(k) && EQUALS !in k && Clean(fields[k])
  }

  /** Python's "\n".join */
  function JoinLines(parts: seq<Text>): Text {
    if parts == [] then []
    else if |parts| == 1 then parts[0]
    else parts[0] + [NEWLINE] + JoinLines(parts[1..])
  }

  function Assignment(k: Text, v: Text): Text {
    k + [EQUALS] + v
  }

  function FieldLines(fields: map<Text, Text>, ks: seq<Text>): seq<Text>
    requires forall k :: k in ks ==> k in fields
  {
    seq(|ks|, i requires 0 <= i < |ks| => Assignment(ks[i], fields[ks[i]]))
  }

  function Lines(wallet: Text, action: Text, fields: map<Text, Text>): seq<Text> {
    [Assignment(Of("wallet_id"), wallet), Assignment(Of("action"), action)] + FieldLines(fields, SortedKeys(fields.Keys))
  }

  /** The canonical string, or nothing for ambiguous input. */
  method CanonicalContext(wallet: Text, action: Text, fields: Option<map<Text, Text>>) returns (r: Option<Text>)
    ensures var f := if fields.Some? then fields.value else map[];
      r == if Acceptable(wallet, action, f) then Some(JoinLines(Lines(wallet, action, f))) else None
  {
    hide Of, Clean, JoinLines;
    var f := if fields.Some? then fields.value else map[];
    var ok := RejectControlChars(wallet);
    if !ok { return None; }
    ok := RejectControlChars(action);
    if !ok { return None; }
    var parts := [Assignment(Of("wallet_id"), wallet), Assignment(Of("action"), action)];
    var ks := SortedKeys(f.Keys);
    for i := 0 to |ks|
      invariant parts == [Assignment(Of("wallet_id"), wallet), Assignment(Of("action"), action)] + FieldLines(f, ks[..i])
      invariant forall j :: 0 <= j < i ==> Clean(ks[j]) && EQUALS !in ks[j] && Clean(f[ks[j]])
    {
      ok := RejectControlChars(ks[i]);
      if !ok || EQUALS in ks[i] { return None; }
      ok := RejectControlChars(f[ks[i]]);
      if !ok { return None; }
      parts := parts + [Assignment(ks[i], f[ks[i]])];
      assert FieldLines(f, ks[..i + 1]) == FieldLines(f, ks[..i]) + [Assignment(ks[i], f[ks[i]])];
    }
    assert ks[..|ks|] == ks;
    return Some(JoinLines(parts));
  }

  // ------------------------------------------------------- the string itself

  /** The fields, each on its line. */
  function FieldText(fields: map<Text, Text>, ks: seq<Text>): Text
    requires forall k :: k in ks ==> k in fields
  {
    if ks == [] then [] else Of("\n") + ks[0] + Of("=") + fields[ks[0]] + FieldText(fields, ks[1..])
  }

  lemma JoinMore(first: Text, rest: seq<Text>)
    requires rest != []
    ensures JoinLines([first] + rest) == first + [NEWLINE] + JoinLines(rest)
  {
    assert ([first] + rest)[1..] == rest;
  }

  lemma Marks()
    ensures Of("\n") == [NEWLINE] && Of("=") == [EQUALS] && Of("wallet_id=") == Of("wallet_id") + [EQUALS]
    ensures Of("\naction=") == [NEWLINE] + Of("action") + [EQUALS]
  {
  }

  lemma {:induction false} JoinedFields(first: Text, fields: map<Text, Text>, ks: seq<Text>)
    requires forall k :: k in ks ==> k in fields
    ensures JoinLines([first] + FieldLines(fields, ks)) == first + FieldText(fields, ks)
    decreases |ks|
  {
    hide Of, JoinLines;
    if ks == [] {
      JoinOne(first);
      assert [first] + FieldLines(fields, ks) == [first];
    } else {
      var line := Assignment(ks[0], fields[ks[0]]);
      JoinedFields(line, fields, ks[1..]);
      assert FieldLines(fields, ks) == [line] + FieldLines(fields, ks[1..]);
      JoinMore(first, FieldLines(fields, ks));
      Marks();
      Regroup(first, ks[0], fields[ks[0]], FieldText(fields, ks[1..]));
    }
  }

  lemma JoinOne(first: Text)
    ensures JoinLines([first]) == first
  {
  }

  lemma Regroup(first: Text, k: Text, v: Text, rest: Text)
    ensures first + [NEWLINE] + (Assignment(k, v) + rest) == first + ([NEWLINE] + k + [EQUALS] + v + rest)
  {
  }

  /** The canonical string, spelled out: wallet, action, and the fields in dictionary order of their keys. */
  lemma ContextText(wallet: Text, action: Text, fields: map<Text, Text>, ks: seq<Text>)
    requires Ascending(ks) && Elements(ks) == fields.Keys
    ensures JoinLines(Lines(wallet, action, fields))
      == Of("wallet_id=") + wallet + (Of("\naction=") + action + FieldText(fields, ks))
  {
    SortedExactly(fields.Keys, ks);
    assert forall k :: k in ks ==> k in Elements(ks);
    hide Of, JoinLines, Ascending, FieldText, FieldLines, Elements, SortedKeys;
    var w, a := Assignment(Of("wallet_id"), wallet), Assignment(Of("action"), action);
    var more := [a] + FieldLines(fields, ks);
    assert Lines(wallet, action, fields) == [w] + more;
    JoinMore(w, more);
    JoinedFields(a, fields, ks);
    Marks();
    RegroupHead(wallet, action, FieldText(fields, ks));
  }

  lemma RegroupHead(wallet: Text, action: Text, rest: Text)
    ensures Assignment(Of("wallet_id"), wallet) + [NEWLINE] + (Assignment(Of("action"), action) + rest)
      == Of("wallet_id") + [EQUALS] + wallet + ([NEWLINE] + Of("action") + [EQUALS] + action + rest)
  {
    hide Of;
  }

  // --------------------------------------------------------------- splitting

  /** What stands before the first separator, and after it, is determined. */
  lemma {:induction false} SplitFirst(a: Text, x: Text, b: Text, y: Text, sep: CodePoint)
    requires sep !in a && sep !in b && a + [sep] + x == b + [sep] + y
    ensures a == b && x == y
  {
    var s, t := a + [sep] + x, b + [sep] + y;
    if a == [] || b == [] {
      assert s[0] == t[0];
      assert a == [] && b == [];
      assert s[1..] == x && t[1..] == y;
    } else {
      assert s[0] == a[0] && t[0] == b[0];
      assert s[1..] == a[1..] + [sep] + x && t[1..] == b[1..] + [sep] + y;
      SplitFirst(a[1..], x, b[1..], y, sep);
      assert a == [a[0]] + a[1..] && b == [b[0]] + b[1..];
    }
  }

  predicate OneLine(t: Text) {
    NEWLINE !in t
  }

  lemma {:induction false} JoinInjective(a: seq<Text>, b: seq<Text>)
    requires a != [] && b != [] && JoinLines(a) == JoinLines(b)
    requires (forall i :: 0 <= i < |a| ==> OneLine(a[i])) && forall i :: 0 <= i < |b| ==> OneLine(b[i])
    ensures a == b
  {
    NewlineMeansMore(a);
    NewlineMeansMore(b);
    if |a| == 1 {
      assert a == [a[0]] && b == [b[0]];
    } else {
      SplitFirst(a[0], JoinLines(a[1..]), b[0], JoinLines(b[1..]), NEWLINE);
      JoinInjective(a[1..], b[1..]);
      assert a == [a[0]] + a[1..] && b == [b[0]] + b[1..];
    }
  }

  lemma NewlineMeansMore(a: seq<Text>)
    requires a != [] && forall i :: 0 <= i < |a| ==> OneLine(a[i])
    ensures NEWLINE in JoinLines(a) <==> |a| > 1
  {
    if |a| > 1 { assert JoinLines(a)[|a[0]|] == NEWLINE; }
  }

  lemma LinesAreLines(wallet: Text, action: Text, fields: map<Text, Text>)
    requires Acceptable(wallet, action, fields)
    ensures forall i :: 0 <= i < |Lines(wallet, action, fields)| ==> OneLine(Lines(wallet, action, fields)[i])
  {
    LabelsClean();
    var ls := Lines(wallet, action, fields);
    forall i | 0 <= i < |ls| ensures OneLine(ls[i]) {
      if i >= 2 {
        var k := SortedKeys(fields.Keys)[i - 2];
        assert ls[i] == Assignment(k, fields[k]) && k in fields;
      }
    }
  }

  lemma LabelsClean()
    ensures Clean(Of("wallet_id")) && Clean(Of("action"))
  {
  }

  /** Two contexts with the same canonical string are the same: wallet, action and every field. */
  lemma ContextInjective(w1: Text, a1: Text, f1: map<Text, Text>, w2: Text, a2: Text, f2: map<Text, Text>)
    requires Acceptable(w1, a1, f1) && Acceptable(w2, a2, f2)
    requires JoinLines(Lines(w1, a1, f1)) == JoinLines(Lines(w2, a2, f2))
    ensures w1 == w2 && a1 == a2 && f1 == f2
  {
    hide JoinLines;
    var l1, l2 := Lines(w1, a1, f1), Lines(w2, a2, f2);
    LinesAreLines(w1, a1, f1);
    LinesAreLines(w2, a2, f2);
    JoinInjective(l1, l2);
    assert l1[0] == l2[0] && l1[1] == l2[1];
    SamePrefix(Of("wallet_id"), w1, w2);
    SamePrefix(Of("action"), a1, a2);
    var ks1, ks2 := SortedKeys(f1.Keys), SortedKeys(f2.Keys);
    forall i | 0 <= i < |ks1| ensures i < |ks2| && ks1[i] == ks2[i] && f1[ks1[i]] == f2[ks2[i]] {
      assert l1[i + 2] == Assignment(ks1[i], f1[ks1[i]]) && l2[i + 2] == Assignment(ks2[i], f2[ks2[i]]);
      SplitFirst(ks1[i], f1[ks1[i]], ks2[i], f2[ks2[i]], EQUALS);
    }
    assert ks1 == ks2;
    assert f1.Keys == f2.Keys;
    forall k | k in f1 ensures f1[k] == f2[k] {
      var i :| 0 <= i < |ks1| && ks1[i] == k;
    }
  }

  lemma SamePrefix(name: Text, x: Text, y: Text)
    requires Assignment(name, x) == Assignment(name, y)
    ensures x == y
  {
    assert Assignment(name, x)[|name| + 1..] == x && Assignment(name, y)[|name| + 1..] == y;
  }

  // ------------------------------------------------------------------- the hash

  /** compute_context_hash: absent fields and no fields are the same, and unencodable text is refused. */
  method ComputeContextHash<D>(wallet: Text, action: Text, fields: Option<map<Text, Text>>, sha: Utf8.Bytes -> D)
    returns (r: Option<D>)
    ensures var f := if fields.Some? then fields.value else map[];
      r.Some? <==> Acceptable(wallet, action, f) && Encodable(JoinLines(Lines(wallet, action, f)))
    ensures var f := if fields.Some? then fields.value else map[];
      r.Some? ==> r.value == sha(Utf8.Encode(JoinLines(Lines(wallet, action, f))))
  {
    var c := CanonicalContext(wallet, action, fields);
    if c.None? || !Encodable(c.value) { return None; }
    return Some(sha(Utf8.Encode(c.value)));
  }

  /** The canonical bytes of a context. */
  function ContextBytes(wallet: Text, action: Text, fields: map<Text, Text>): Utf8.Bytes
    requires Encodable(JoinLines(Lines(wallet, action, fields)))
  {
    Utf8.Encode(JoinLines(Lines(wallet, action, fields)))
  }

  predicate Collides<D(==)>(sha: Utf8.Bytes -> D, a: Utf8.Bytes, b: Utf8.Bytes) {
    a != b && sha(a) == sha(b)
  }

  /** Two contexts share a hash exactly when they are one context, unless the hash function collides on these two. */
  lemma HashInjective<D>(w1: Text, a1: Text, f1: map<Text, Text>, w2: Text, a2: Text, f2: map<Text, Text>,
                         sha: Utf8.Bytes -> D)
    requires Acceptable(w1, a1, f1) && Encodable(JoinLines(Lines(w1, a1, f1)))
    requires Acceptable(w2, a2, f2) && Encodable(JoinLines(Lines(w2, a2, f2)))
    ensures ContextBytes(w1, a1, f1) == ContextBytes(w2, a2, f2) <==> w1 == w2 && a1 == a2 && f1 == f2
    ensures !Collides(sha, ContextBytes(w1, a1, f1), ContextBytes(w2, a2, f2)) ==>
      (sha(ContextBytes(w1, a1, f1)) == sha(ContextBytes(w2, a2, f2)) <==> w1 == w2 && a1 == a2 && f1 == f2)
  {
    hide JoinLines, Lines, Acceptable;
    var c1, c2 := JoinLines(Lines(w1, a1, f1)), JoinLines(Lines(w2, a2, f2));
    Utf8.DecodeInvertsEncode(c1);
    Utf8.DecodeInvertsEncode(c2);
    if c1 == c2 { ContextInjective(w1, a1, f1, w2, a2, f2); }
  }
}
