/** The message real backends verify: seven lines, the sixth of which may itself contain newlines. */
module SignatureInput {
  import opened Arithmetic
  import opened Wrappers
  import opened Strings
  import opened Trimming
  import opened ReceiptContract
  import opened ComponentSummaries
  import opened CanonicalJson
  import opened ContextHash
  import Utf8

  const INPUT_PREFIX := "DGB-SHIELD-V4-REAL-CRYPTO-SIGNATURE-INPUT"

  datatype Claim = Claim(domain: string, hash: string, algorithm: Algorithm, keyId: string, keyVersion: int)

  /** What the builder accepts; the profile is fixed by the algorithm. The hash need only be 64 characters long here. */
  predicate Buildable(c: Claim, env: Oracles) {
    && (c.domain == COMPONENT_DOMAIN || c.domain == RECEIPT_DOMAIN)
    && |c.hash| == 64 && Strip(c.hash) == c.hash && env.hexLower(c.hash)
    && c.keyId != "" && Strip(c.keyId) == c.keyId && c.keyVersion > 0
  }

  function KeyLines(c: Claim): seq<Text> {
    [Of(c.keyId), PrintInteger(c.keyVersion)]
  }

  function AlgorithmLines(c: Claim): seq<Text> {
    [Of(NameOf(c.algorithm))] + ([Of(ProfileOf(c.algorithm))] + KeyLines(c))
  }

  /** build_real_crypto_signature_input, before UTF-8: the seven lines joined. */
  function Message(c: Claim): Text {
    JoinLines([Of(INPUT_PREFIX)] + ([Of(c.domain)] + ([Of(c.hash)] + AlgorithmLines(c))))
  }

  /** Equal joins have equal first lines, if those hold no newline or are of one length. */
  lemma Peel(x: Text, r: seq<Text>, y: Text, s: seq<Text>)
    requires r != [] && s != [] && JoinLines([x] + r) == JoinLines([y] + s)
    requires (OneLine(x) && OneLine(y)) || |x| == |y|
    ensures x == y && JoinLines(r) == JoinLines(s)
  {
    JoinMore(x, r);
    JoinMore(y, s);
    if OneLine(x) && OneLine(y) {
      SplitFirst(x, JoinLines(r), y, JoinLines(s), NEWLINE);
    } else {
      var m, n := x + [NEWLINE] + JoinLines(r), y + [NEWLINE] + JoinLines(s);
      assert m[..|x|] == x && n[..|y|] == y;
      assert m[|x| + 1..] == JoinLines(r) && n[|y| + 1..] == JoinLines(s);
    }
  }

  /** What stands after the last newline is determined, whatever stands before. */
  lemma {:induction false} SplitLast(a: Text, x: Text, b: Text, y: Text)
    requires OneLine(x) && OneLine(y) && a + [NEWLINE] + x == b + [NEWLINE] + y
    ensures a == b && x == y
  {
    var m, n := a + [NEWLINE] + x, b + [NEWLINE] + y;
    var last := |m| - 1;
    if x == [] || y == [] {
      assert m[last] == n[last];
      assert x == [] && y == [];
      assert m[..last] == a && n[..last] == b;
    } else {
      assert m[last] == x[|x| - 1] && n[last] == y[|y| - 1];
      assert m[..last] == a + [NEWLINE] + x[..|x| - 1] && n[..last] == b + [NEWLINE] + y[..|y| - 1];
      SplitLast(a, x[..|x| - 1], b, y[..|y| - 1]);
      assert x == x[..|x| - 1] + [x[|x| - 1]] && y == y[..|y| - 1] + [y[|y| - 1]];
    }
  }

  predicate NoNewline(s: string) {
    forall i :: 0 <= i < |s| ==> s[i] != '\n'
  }

  lemma NoNewlineIsOneLine(s: string)
    requires NoNewline(s)
    ensures OneLine(Of(s))
  {
  }

  lemma DomainsOneLine()
    ensures NoNewline(COMPONENT_DOMAIN) && NoNewline(RECEIPT_DOMAIN)
  {
  }

  lemma ProfilesOneLine(a: Algorithm)
    ensures NoNewline(ProfileOf(a))
  {
  }

  lemma NamesOneLine(a: Algorithm)
    ensures NoNewline(NameOf(a)) && NoNewline(ProfileOf(a))
  {
    hide ProfileOf;
    ProfilesOneLine(a);
  }

  lemma DigitsOneLine(n: nat)
    ensures OneLine(PrintInteger(n))
  {
  }

  lemma PrintIntegerInjective(m: nat, n: nat)
    requires PrintInteger(m) == PrintInteger(n)
    ensures m == n
  {
    var d, e := Digits(m), Digits(n);
    assert PrintInteger(m) == DigitText(d) && PrintInteger(n) == DigitText(e);
    assert |d| == |e|;
    forall i | 0 <= i < |d| ensures d[i] == e[i] {
      assert DigitText(d)[i] == ZERO + d[i] && DigitText(e)[i] == ZERO + e[i];
    }
    assert d == e;
    ValueOfDigits(m);
    ValueOfDigits(n);
  }

  lemma OfIsInjective(a: string, b: string)
    requires Of(a) == Of(b)
    ensures a == b
  {
    assert forall i :: 0 <= i < |a| ==> Of(a)[i] == a[i] as int && Of(b)[i] == b[i] as int;
  }

  function Line(s: string): Text {
    Of(s) + [NEWLINE]
  }

  /** The message, line by line. */
  lemma MessageIs(c: Claim)
    ensures Message(c) ==
      Line("DGB-SHIELD-V4-REAL-CRYPTO-SIGNATURE-INPUT") + (Line(c.domain) + (Line(c.hash) + (Line(NameOf(c.algorithm))
      + (Line(ProfileOf(c.algorithm)) + (Line(c.keyId) + PrintInteger(c.keyVersion))))))
  {
    hide Of, JoinLines, PrintInteger, NameOf, ProfileOf;
    var names := [Of(ProfileOf(c.algorithm))] + KeyLines(c);
    var body := [Of(c.hash)] + AlgorithmLines(c);
    LastTwo(Of(c.keyId), PrintInteger(c.keyVersion));
    JoinMore(Of(ProfileOf(c.algorithm)), KeyLines(c));
    JoinMore(Of(NameOf(c.algorithm)), names);
    JoinMore(Of(c.hash), AlgorithmLines(c));
    JoinMore(Of(c.domain), body);
    JoinMore(Of(INPUT_PREFIX), [Of(c.domain)] + body);
  }

  /** Equal messages were built from equal claims, even with newlines inside key ids. */
  lemma MessageInjective(a: Claim, b: Claim, env: Oracles)
    requires Buildable(a, env) && Buildable(b, env) && Message(a) == Message(b)
    ensures a == b
  {
    hide JoinLines, Of, PrintInteger, NameOf, ProfileOf, OneLine, NoNewline, Strip;
    DomainsOneLine();
    NoNewlineIsOneLine(a.domain);
    NoNewlineIsOneLine(b.domain);
    var restA, restB := [Of(a.hash)] + AlgorithmLines(a), [Of(b.hash)] + AlgorithmLines(b);
    Peel(Of(INPUT_PREFIX), [Of(a.domain)] + restA, Of(INPUT_PREFIX), [Of(b.domain)] + restB);
    Peel(Of(a.domain), restA, Of(b.domain), restB);
    OfIsInjective(a.domain, b.domain);
    OfLength(a.hash);
    OfLength(b.hash);
    Peel(Of(a.hash), AlgorithmLines(a), Of(b.hash), AlgorithmLines(b));
    OfIsInjective(a.hash, b.hash);
    KeyedInjective(a, b);
  }

  lemma OfLength(s: string)
    ensures |Of(s)| == |s|
  {
  }

  lemma KeyedInjective(a: Claim, b: Claim)
    requires a.keyVersion > 0 && b.keyVersion > 0
    requires JoinLines(AlgorithmLines(a)) == JoinLines(AlgorithmLines(b))
    ensures a.algorithm == b.algorithm && a.keyId == b.keyId && a.keyVersion == b.keyVersion
  {
    hide JoinLines, Of, PrintInteger, NameOf, ProfileOf, OneLine, NoNewline;
    NamesOneLine(a.algorithm);
    NamesOneLine(b.algorithm);
    NoNewlineIsOneLine(NameOf(a.algorithm));
    NoNewlineIsOneLine(NameOf(b.algorithm));
    NoNewlineIsOneLine(ProfileOf(a.algorithm));
    NoNewlineIsOneLine(ProfileOf(b.algorithm));
    var keyA, keyB := KeyLines(a), KeyLines(b);
    Peel(Of(NameOf(a.algorithm)), [Of(ProfileOf(a.algorithm))] + keyA,
         Of(NameOf(b.algorithm)), [Of(ProfileOf(b.algorithm))] + keyB);
    OfIsInjective(NameOf(a.algorithm), NameOf(b.algorithm));
    assert AlgorithmOf(NameOf(a.algorithm)) == Some(a.algorithm);
    Peel(Of(ProfileOf(a.algorithm)), keyA, Of(ProfileOf(b.algorithm)), keyB);
    LastTwo(Of(a.keyId), PrintInteger(a.keyVersion));
    LastTwo(Of(b.keyId), PrintInteger(b.keyVersion));
    DigitsOneLine(a.keyVersion);
    DigitsOneLine(b.keyVersion);
    SplitLast(Of(a.keyId), PrintInteger(a.keyVersion), Of(b.keyId), PrintInteger(b.keyVersion));
    OfIsInjective(a.keyId, b.keyId);
    PrintIntegerInjective(a.keyVersion, b.keyVersion);
  }

  lemma LastTwo(x: Text, y: Text)
    ensures JoinLines([x, y]) == x + [NEWLINE] + y
  {
    JoinMore(x, [y]);
    assert [x] + [y] == [x, y];
  }

  /** The message as bytes is injective too. */
  lemma MessageBytesInjective(a: Claim, b: Claim, env: Oracles)
    requires Buildable(a, env) && Buildable(b, env) && Encodable(Message(a)) && Encodable(Message(b))
    requires Utf8.Encode(Message(a)) == Utf8.Encode(Message(b))
    ensures a == b
  {
    hide Message;
    Utf8.DecodeInvertsEncode(Message(a));
    Utf8.DecodeInvertsEncode(Message(b));
    MessageInjective(a, b, env);
  }
}
