/** The strict reader against the grammar: what it makes of every text of the grammar, and that it accepts no other. */
module JsonReading {
  import opened Arithmetic
  import opened Strings
  import opened Wrappers
  import opened Json
  import opened CanonicalJson
  import opened JsonReader
  import opened JsonGrammar

  function Reading<T>(r: Result<T, Fault>, rest: Text): Parsed<T> {
    match r
    case Ok(v) => Got(v, rest)
    case Err(f) => Bad(f)
  }

  predicate IsDelimiter(c: CodePoint) {
    c == COMMA || c == COLON || c == RBRACKET || c == RBRACE || IsWs(c)
  }

  /** Text that can follow a value without extending it. */
  predicate Delimited(rest: Text) {
    rest == [] || IsDelimiter(rest[0])
  }

  // ------------------------------------------------------------------- blanks

  lemma {:induction false} GapSkipped(gap: Text, rest: Text)
    requires Blank(gap) && (rest == [] || !IsWs(rest[0]))
    ensures SkipWs(gap + rest) == rest
  {
    if gap == [] {
      assert gap + rest == rest;
    } else {
      assert (gap + rest)[1..] == gap[1..] + rest;
      GapSkipped(gap[1..], rest);
    }
  }

  /** What skipping skips. */
  lemma {:induction false} Skipped(s: Text) returns (gap: Text)
    ensures Blank(gap) && s == gap + SkipWs(s)
  {
    gap := [];
    if s != [] && IsWs(s[0]) {
      gap := Skipped(s[1..]);
      assert s == [s[0]] + s[1..];
      gap := [s[0]] + gap;
    }
  }

  // ------------------------------------------------------------------ strings

  lemma NibbleReads(x: Nibble)
    ensures HexValue(NibbleText(x)) == Some(x.n)
  {
  }

  lemma QuadReads(q: Quad, rest: Text)
    ensures ReadHex4(QuadText(q) + rest) == Some(QuadValue(q)) && (QuadText(q) + rest)[4..] == rest
  {
    hide HexValue, NibbleText;
    NibbleReads(q.a);
    NibbleReads(q.b);
    NibbleReads(q.c);
    NibbleReads(q.d);
    var s := QuadText(q) + rest;
    assert s[0] == NibbleText(q.a) && s[1] == NibbleText(q.b) && s[2] == NibbleText(q.c) && s[3] == NibbleText(q.d);
  }

  lemma StartsEscape(p: Part, after: Text)
    requires PartHolds(p) && StartsWith(PartText(p) + after, [BACKSLASH, 0x75])
    ensures p.Unit? || p.Pair16?
  {
    var s := PartText(p) + after;
    assert s[0] == BACKSLASH && s[1] == 0x75;
  }

  lemma EscapedQuad(p: Part, after: Text)
    requires PartHolds(p) && (p.Unit? || p.Pair16?)
    ensures ReadHex4((PartText(p) + after)[2..]) == Some(QuadValue(if p.Unit? then p.q else p.high))
  {
    hide ReadHex4, QuadValue, QuadText;
    var s := PartText(p) + after;
    if p.Unit? {
      assert s[2..] == QuadText(p.q) + after;
      QuadReads(p.q, after);
    } else {
      var more := [BACKSLASH, 0x75] + QuadText(p.low) + after;
      assert s[2..] == QuadText(p.high) + more;
      QuadReads(p.high, more);
    }
  }

  /** A low half that a high half meets belongs to it: otherwise what follows is another part. */
  lemma NoLowAfter(ps: seq<Part>, rest: Text)
    requires PartsHold(ps) && (ps != [] && ps[0].Unit? ==> !IsLow(QuadValue(ps[0].q)))
    requires StartsWith(PartsText(ps, rest), [BACKSLASH, 0x75])
    ensures ReadHex4(PartsText(ps, rest)[2..]).Some? && !IsLow(ReadHex4(PartsText(ps, rest)[2..]).value)
  {
    var s := PartsText(ps, rest);
    assert s[0] == BACKSLASH;
    hide ReadHex4, QuadValue, QuadText, PartText, StartsWith;
    StartsEscape(ps[0], PartsText(ps[1..], rest));
    EscapedQuad(ps[0], PartsText(ps[1..], rest));
  }

  lemma UnitReads(q: Quad, ps: seq<Part>, rest: Text)
    requires PartsHold(ps) && (ps != [] ==> !Halves(Unit(q), ps[0]))
    ensures ReadUnicodeEscape(QuadText(q) + PartsText(ps, rest)) == Got(QuadValue(q), PartsText(ps, rest))
  {
    hide ReadHex4, QuadValue, QuadText, PartsText;
    var after := PartsText(ps, rest);
    var s := QuadText(q) + after;
    QuadReads(q, after);
    assert s[4..] == after;
    if IsHigh(QuadValue(q)) && StartsWith(after, [BACKSLASH, 0x75]) {
      NoLowAfter(ps, rest);
      assert s[6..] == after[2..];
    }
  }

  lemma PairReads(high: Quad, low: Quad, after: Text)
    requires IsHigh(QuadValue(high)) && IsLow(QuadValue(low))
    ensures ReadUnicodeEscape(QuadText(high) + ([BACKSLASH, 0x75] + QuadText(low)) + after)
      == Got(PartValue(Pair16(high, low)), after)
  {
    hide ReadHex4, QuadValue, QuadText;
    var second := [BACKSLASH, 0x75] + QuadText(low) + after;
    var s := QuadText(high) + ([BACKSLASH, 0x75] + QuadText(low)) + after;
    assert s == QuadText(high) + second;
    QuadReads(high, second);
    QuadReads(low, after);
    assert s[4..] == second && s[6..] == QuadText(low) + after && s[10..] == after;
    assert StartsWith(second, [BACKSLASH, 0x75]);
  }

  lemma ShortReads(letter: CodePoint, after: Text)
    requires ShortMeaning(letter).Some?
    ensures ReadEscape([letter] + after) == Got(ShortMeaning(letter).value, after)
  {
    assert ([letter] + after)[1..] == after;
  }

  lemma EscapeReads(p: Part, ps: seq<Part>, rest: Text)
    requires PartHolds(p) && PartsHold(ps) && (ps != [] ==> !Halves(p, ps[0])) && !p.Plain?
    ensures PartText(p)[0] == BACKSLASH
    ensures ReadEscape(PartText(p)[1..] + PartsText(ps, rest)) == Got(PartValue(p), PartsText(ps, rest))
  {
    hide ReadUnicodeEscape, QuadValue, QuadText, PartsText, ShortMeaning, PartsHold, IsHigh, IsLow;
    var after := PartsText(ps, rest);
    if p.Short? {
      assert PartText(p)[1..] + after == [p.letter] + after;
      ShortReads(p.letter, after);
    } else {
      var body := PartText(p)[2..] + after;
      assert PartText(p)[1..] + after == [0x75] + body && ([0x75] + body)[1..] == body;
      if p.Unit? {
        assert PartText(p)[2..] == QuadText(p.q);
        UnitReads(p.q, ps, rest);
      } else {
        assert PartText(p)[2..] == QuadText(p.high) + ([BACKSLASH, 0x75] + QuadText(p.low));
        PairReads(p.high, p.low, after);
      }
    }
  }

  lemma ReadStringEnd(rest: Text)
    ensures ReadString([QUOTE] + rest) == Got([], rest)
  {
    assert ([QUOTE] + rest)[1..] == rest;
  }

  lemma {:induction false} PartsRead(ps: seq<Part>, rest: Text)
    requires PartsHold(ps)
    ensures ReadString(PartsText(ps, rest)) == Got(PartsValue(ps), rest)
  {
    if ps == [] {
      ReadStringEnd(rest);
    } else {
      PartsRead(ps[1..], rest);
      PartRead(ps[0], ps[1..], rest);
    }
  }

  lemma PartRead(p: Part, ps: seq<Part>, rest: Text)
    requires PartHolds(p) && PartsHold(ps) && (ps != [] ==> !Halves(p, ps[0]))
    requires ReadString(PartsText(ps, rest)) == Got(PartsValue(ps), rest)
    ensures ReadString(PartText(p) + PartsText(ps, rest)) == Got([PartValue(p)] + PartsValue(ps), rest)
  {
    hide PartsText, ReadEscape, ReadString, PartsHold, PartsValue, QuadText, QuadValue, Halves;
    var after := PartsText(ps, rest);
    if p.Plain? {
      PlainReads(p.c, after, PartsValue(ps), rest);
    } else {
      EscapeReads(p, ps, rest);
      EscapedReads(PartText(p), PartValue(p), after, PartsValue(ps), rest);
    }
  }

  lemma PlainReads(c: CodePoint, after: Text, t: Text, rest: Text)
    requires c >= 0x20 && c != QUOTE && c != BACKSLASH && ReadString(after) == Got(t, rest)
    ensures ReadString([c] + after) == Got([c] + t, rest)
  {
    assert ([c] + after)[1..] == after;
  }

  lemma EscapedReads(e: Text, c: CodePoint, after: Text, t: Text, rest: Text)
    requires e != [] && e[0] == BACKSLASH && ReadEscape(e[1..] + after) == Got(c, after) && ReadString(after) == Got(t, rest)
    ensures ReadString(e + after) == Got([c] + t, rest)
  {
    hide ReadEscape;
    assert (e + after)[1..] == e[1..] + after;
  }

  // ------------------------------------------------------------------ numbers

  lemma {:induction false} TakeDigitsInverts(ds: seq<Digit>, rest: Text)
    requires rest == [] || !IsDigit(rest[0])
    ensures TakeDigits(DigitText(ds) + rest) == (ds, rest)
  {
    var s := DigitText(ds) + rest;
    if ds == [] {
      assert s == rest;
    } else {
      TakeDigitsInverts(ds[1..], rest);
      assert s[1..] == DigitText(ds[1..]) + rest;
      assert [ds[0]] + ds[1..] == ds;
    }
  }

  /** The digit ceiling never bites first: it and the bit ceiling accept exactly the magnitudes below 2^4096. */
  lemma IntegerHookExact(negative: bool, ds: seq<Digit>)
    requires NoLeadingZero(ds)
    ensures IntegerHook(negative, ds).Ok? <==> Numeral(ds) < Pow(2, 4096)
    ensures IntegerHook(negative, ds).Ok? ==>
      IntegerHook(negative, ds).value == if negative then -(Numeral(ds) as int) else Numeral(ds) as int
  {
    hide Pow, Numeral, BitLength;
    BitLengthBound(Numeral(ds), MAX_INTEGER_BITS);
    if |ds| > MAX_INTEGER_DECIMAL_DIGITS {
      ValueAtLeast(ds);
      PowExponentMonotone(10, 1234, |ds| - 1);
      BitCeilingBelowDigitCeiling();
    }
  }

  predicate HasTail(fraction: seq<Digit>, e: Exponent) {
    fraction != [] || e.Exponent?
  }

  /** A fraction or an exponent is seen as such, and nothing else is. */
  lemma TailSeen(fraction: seq<Digit>, e: Exponent, rest: Text)
    requires ExponentHolds(e) && Delimited(rest)
    ensures var s := TailText(fraction, e, rest);
      && (s == [] || !IsDigit(s[0])) && (HasFraction(s) || HasExponent(s) <==> HasTail(fraction, e))
      && (!HasTail(fraction, e) ==> s == rest)
  {
    var s := TailText(fraction, e, rest);
    if fraction != [] {
      assert s[0] == 0x2E && s[1] == ZERO + fraction[0];
    } else if e.Exponent? {
      ExponentSeen(e, rest);
    } else {
      assert s == rest;
    }
  }

  lemma ExponentSeen(e: Exponent, rest: Text)
    requires e.Exponent? && ExponentHolds(e)
    ensures var s := TailText([], e, rest); s != [] && !IsDigit(s[0]) && HasExponent(s)
  {
    var s := TailText([], e, rest);
    var digits := DigitText(e.digits) + rest;
    assert digits[0] == ZERO + e.digits[0];
    hide DigitText, IsDigit;
    var letter: CodePoint := if e.upper then 0x45 else 0x65;
    assert s == [letter] + (SignText(e.sign) + digits);
    assert s[1] == (SignText(e.sign) + digits)[0];
    SignSeen(e.sign, digits);
  }

  lemma SignSeen(sign: Sign, digits: Text)
    requires digits != [] && IsDigit(digits[0])
    ensures var u := SignText(sign) + digits;
      IsDigit(u[0]) || (|u| >= 2 && (u[0] == 0x2B || u[0] == MINUS) && IsDigit(u[1]))
  {
  }

  /** Every spelling of a number, float or integer, in a delimited context. */
  lemma NumberReads(negative: bool, whole: seq<Digit>, fraction: seq<Digit>, e: Exponent, rest: Text)
    requires Grammatical(Number(negative, whole, fraction, e)) && Delimited(rest)
    ensures var t := Number(negative, whole, fraction, e);
      ReadNumber(Spell(t, rest)) == Reading(Outcome(t), rest)
  {
    hide TailText, HasFraction, HasExponent, Numeral, BitLength, Pow;
    var tail := TailText(fraction, e, rest);
    TailSeen(fraction, e, rest);
    SignedDigits(negative, whole, tail);
    IntegerHookExact(negative, whole);
    IntegerHookFault(negative, whole);
  }

  lemma IntegerHookFault(negative: bool, ds: seq<Digit>)
    ensures IntegerHook(negative, ds).Err? ==> IntegerHook(negative, ds).error == ResourceLimit
  {
  }

  lemma SignedDigits(negative: bool, whole: seq<Digit>, tail: Text)
    requires NoLeadingZero(whole) && (tail == [] || !IsDigit(tail[0]))
    ensures ReadNumber((if negative then Of("-") else []) + (DigitText(whole) + tail)) ==
      if HasFraction(tail) || HasExponent(tail) then Bad(FloatRejected)
      else Reading(match IntegerHook(negative, whole) { case Ok(n) => Ok(Int(n)) case Err(f) => Err(f) }, tail)
  {
    hide HasFraction, HasExponent, IntegerHook;
    var t := DigitText(whole) + tail;
    var s := (if negative then Of("-") else []) + t;
    assert negative ==> s[0] == MINUS && s[1..] == t;
    assert !negative ==> s == t;
    assert t[0] == ZERO + whole[0];
    TakeDigitsInverts(whole, tail);
    if whole[0] == 0 {
      assert whole == [0];
      assert t[1..] == tail;
    }
  }

  lemma Differs(s: Text, prefix: Text, i: nat)
    requires i < |s| && i < |prefix| && s[i] != prefix[i]
    ensures !StartsWith(s, prefix)
  {
  }

  lemma NotALiteral(s: Text)
    requires s != [] && (s[0] == MINUS || IsDigit(s[0]))
    ensures !StartsWith(s, NULL_TEXT) && !StartsWith(s, TRUE_TEXT) && !StartsWith(s, FALSE_TEXT)
    ensures !StartsWith(s, NAN_TEXT) && !StartsWith(s, INFINITY_TEXT)
  {
    Differs(s, NULL_TEXT, 0);
    Differs(s, TRUE_TEXT, 0);
    Differs(s, FALSE_TEXT, 0);
    Differs(s, NAN_TEXT, 0);
    Differs(s, INFINITY_TEXT, 0);
  }

  /** Numbers start with their sign or a digit, so nothing else is tried on them. */
  lemma NumberValue(negative: bool, whole: seq<Digit>, fraction: seq<Digit>, e: Exponent, rest: Text)
    requires Grammatical(Number(negative, whole, fraction, e))
    ensures var s := Spell(Number(negative, whole, fraction, e), rest);
      s != [] && !IsWs(s[0]) && s[0] != RBRACKET && s[0] != QUOTE && ReadValue(s) == ReadNumber(s)
  {
    hide ReadNumber, TailText;
    var s := Spell(Number(negative, whole, fraction, e), rest);
    var first := ZERO + whole[0];
    if negative {
      assert s[0] == MINUS && s[1] == first;
      Differs(s, [MINUS] + INFINITY_TEXT, 1);
    } else {
      assert s[0] == first;
      Differs(s, [MINUS] + INFINITY_TEXT, 0);
    }
    NotALiteral(s);
  }

  // ----------------------------------------------------------------- literals

  lemma WordTexts()
    ensures Of("null") == NULL_TEXT && Of("true") == TRUE_TEXT && Of("false") == FALSE_TEXT
    ensures Of("NaN") == NAN_TEXT && Of("Infinity") == INFINITY_TEXT && Of("-Infinity") == [MINUS] + INFINITY_TEXT
  {
  }

  lemma LiteralReads(w: Word, rest: Text)
    ensures ReadValue(Spell(Literal(w), rest)) == Reading(Outcome(Literal(w)), rest)
    ensures Spell(Literal(w), rest) != [] && !IsWs(Spell(Literal(w), rest)[0]) && Spell(Literal(w), rest)[0] != RBRACKET
  {
    WordTexts();
    hide Of;
    var p := WordText(w);
    var s := p + rest;
    assert StartsWith(s, p) && s[|p|..] == rest && s[0] == p[0];
    if !w.NullWord? { Differs(s, NULL_TEXT, 0); }
    if !w.TrueWord? { Differs(s, TRUE_TEXT, 0); }
    if !w.FalseWord? { Differs(s, FALSE_TEXT, 0); }
  }

  // --------------------------------------------- one unfolding, blanks included

  predicate Headed(s: Text) {
    s != [] && !IsWs(s[0]) && s[0] != RBRACKET
  }

  lemma EmptyListReads(gap: Text, rest: Text)
    requires Blank(gap)
    ensures ReadValue([LBRACKET] + (gap + ([RBRACKET] + rest))) == Got(Arr([]), rest)
  {
    var body := [RBRACKET] + rest;
    GapSkipped(gap, body);
    assert ([LBRACKET] + (gap + body))[1..] == gap + body && body[1..] == rest;
  }

  lemma ListReads(gap: Text, body: Text)
    requires Blank(gap) && Headed(body)
    ensures ReadValue([LBRACKET] + (gap + body)) ==
      match ReadItems(body) { case Bad(f) => Bad(f) case Got(vs, rest) => Got(Arr(vs), rest) }
  {
    hide ReadItems;
    GapSkipped(gap, body);
    assert ([LBRACKET] + (gap + body))[1..] == gap + body;
  }

  lemma EmptyDictReads(gap: Text, rest: Text)
    requires Blank(gap)
    ensures ReadValue([LBRACE] + (gap + ([RBRACE] + rest))) == Got(Obj(map[]), rest)
  {
    var body := [RBRACE] + rest;
    GapSkipped(gap, body);
    assert ([LBRACE] + (gap + body))[1..] == gap + body && body[1..] == rest;
  }

  lemma DictReads(gap: Text, body: Text)
    requires Blank(gap) && body != [] && body[0] == QUOTE
    ensures ReadValue([LBRACE] + (gap + body)) ==
      match ReadMembers(body) {
        case Bad(f) => Bad(f)
        case Got(ps, rest) => Reading(match ObjectHook(ps) { case Ok(m) => Ok(Obj(m)) case Err(f) => Err(f) }, rest)
      }
  {
    hide ReadMembers, ObjectHook;
    GapSkipped(gap, body);
    assert ([LBRACE] + (gap + body))[1..] == gap + body;
  }

  lemma LastItemReads(s: Text, x: Parsed<Json>, after: Text, rest: Text)
    requires Blank(after) && ReadValue(s) == x && (x.Got? ==> x.rest == after + ([RBRACKET] + rest))
    ensures ReadItems(s) == match x { case Bad(f) => Bad(f) case Got(v, _) => Got([v], rest) }
  {
    var close := [RBRACKET] + rest;
    GapSkipped(after, close);
    assert close[1..] == rest;
  }

  lemma ItemReads(s: Text, x: Parsed<Json>, after: Text, before: Text, more: Text)
    requires Blank(after) && Blank(before) && ReadValue(s) == x && Headed(more)
    requires x.Got? ==> x.rest == after + ([COMMA] + (before + more))
    ensures ReadItems(s) ==
      match x {
        case Bad(f) => Bad(f)
        case Got(v, _) => match ReadItems(more) { case Bad(f) => Bad(f) case Got(vs, rest) => Got([v] + vs, rest) }
      }
  {
    hide ReadValue;
    var tail := [COMMA] + (before + more);
    GapSkipped(after, tail);
    assert tail[1..] == before + more;
    GapSkipped(before, more);
  }

  /** A key and its colon. */
  lemma KeyReads(key: seq<Part>, beforeColon: Text, afterColon: Text, value: Text)
    requires PartsHold(key) && Blank(beforeColon) && Blank(afterColon) && Headed(value)
    ensures var s := SpellMember(key, beforeColon, afterColon, value);
      && s != [] && s[0] == QUOTE && ReadString(s[1..]).Got? && ReadString(s[1..]).value == PartsValue(key)
      && var c := SkipWs(ReadString(s[1..]).rest); c != [] && c[0] == COLON && SkipWs(c[1..]) == value
  {
    hide ReadString, PartsText, PartsValue;
    var colon := [COLON] + (afterColon + value);
    var body := PartsText(key, beforeColon + colon);
    assert ([QUOTE] + body)[1..] == body;
    PartsRead(key, beforeColon + colon);
    GapSkipped(beforeColon, colon);
    assert colon[1..] == afterColon + value;
    GapSkipped(afterColon, value);
  }

  lemma LastMemberReads(m: Members, x: Parsed<Json>, value: Text, rest: Text)
    requires m.LastMember? && PartsHold(m.key) && Blank(m.beforeColon) && Blank(m.afterColon) && Blank(m.after)
    requires Headed(value) && ReadValue(value) == x && (x.Got? ==> x.rest == m.after + ([RBRACE] + rest))
    ensures ReadMembers(SpellMember(m.key, m.beforeColon, m.afterColon, value)) ==
      match x { case Bad(f) => Bad(f) case Got(v, _) => Got([Pair(PartsValue(m.key), v)], rest) }
  {
    hide ReadValue, ReadString, PartsValue, PartsHold, SpellMember;
    KeyReads(m.key, m.beforeColon, m.afterColon, value);
    var close := [RBRACE] + rest;
    GapSkipped(m.after, close);
    assert close[1..] == rest;
  }

  lemma MemberReads(m: Members, x: Parsed<Json>, value: Text, more: Text)
    requires m.Member? && PartsHold(m.key) && Blank(m.beforeColon) && Blank(m.afterColon) && Blank(m.after) && Blank(m.before)
    requires Headed(value) && ReadValue(value) == x && more != [] && more[0] == QUOTE
    requires x.Got? ==> x.rest == m.after + ([COMMA] + (m.before + more))
    ensures ReadMembers(SpellMember(m.key, m.beforeColon, m.afterColon, value)) ==
      match x {
        case Bad(f) => Bad(f)
        case Got(v, _) =>
          match ReadMembers(more) {
            case Bad(f) => Bad(f)
            case Got(ps, rest) => Got([Pair(PartsValue(m.key), v)] + ps, rest)
          }
      }
  {
    hide ReadValue, ReadString, PartsValue, PartsHold, SpellMember;
    KeyReads(m.key, m.beforeColon, m.afterColon, value);
    var tail := [COMMA] + (m.before + more);
    GapSkipped(m.after, tail);
    assert tail[1..] == m.before + more;
    GapSkipped(m.before, more);
  }

  /** The object hook on what a dict says. */
  lemma {:induction false} HookMeans(ps: seq<Pair>)
    ensures ObjectHook(ps) == if KeysDiffer(ps) then Ok(MapOf(ps)) else Err(DuplicateKey)
  {
    hide ObjectHook, KeysDiffer, MapOf;
    ObjectHookEmpty();
    NoPairs();
    if ps != [] {
      var front, p := ps[..|ps| - 1], ps[|ps| - 1];
      HookMeans(front);
      ObjectHookUnfold(front, p);
      assert ps == front + [p];
      if KeysDiffer(front) { OnePairMore(front, p); } else { StillRepeated(front, p); }
    }
  }

  lemma NoPairs()
    ensures KeysDiffer([]) && MapOf([]) == map[]
  {
    assert MapOf([]) == map[];
  }

  lemma StillRepeated(front: seq<Pair>, p: Pair)
    requires !KeysDiffer(front)
    ensures !KeysDiffer(front + [p])
  {
    var ps := front + [p];
    var i, j :| 0 <= i < j < |front| && front[i].key == front[j].key;
    assert ps[i].key == ps[j].key;
  }

  lemma OnePairMore(front: seq<Pair>, p: Pair)
    requires KeysDiffer(front)
    ensures KeysDiffer(front + [p]) <==> p.key !in MapOf(front)
    ensures p.key !in MapOf(front) ==> MapOf(front + [p]) == MapOf(front)[p.key := p.child]
  {
    var ps := front + [p];
    assert forall i :: 0 <= i < |front| ==> ps[i] == front[i];
    assert ps[|front|] == p;
    if p.key !in MapOf(front) {
      assert KeysDiffer(ps);
      assert MapOf(ps) == MapOf(front)[p.key := p.child];
    }
  }

  // ---------------------------------------------------------------- all trees

  lemma BracketDelimits(gap: Text, c: CodePoint, rest: Text)
    requires Blank(gap) && (c == COMMA || c == RBRACKET || c == RBRACE)
    ensures Delimited(gap + ([c] + rest))
  {
    var s := gap + ([c] + rest);
    assert s[0] == if gap == [] then c else gap[0];
  }

  /** The reader on a text of the grammar: its value and what follows, or the first fault the hooks meet. */
  lemma {:induction false} TreeReads(t: Tree, rest: Text)
    requires Grammatical(t) && Delimited(rest)
    ensures ReadValue(Spell(t, rest)) == Reading(Outcome(t), rest) && Headed(Spell(t, rest))
    decreases t
  {
    hide ReadValue, ReadNumber, ReadItems, ReadMembers, Blank, PartsHold, SpellItems, SpellMembers, TailText;
    match t
    case Literal(word) => LiteralReads(word, rest);
    case Number(negative, whole, fraction, e) =>
      NumberReads(negative, whole, fraction, e, rest);
      NumberValue(negative, whole, fraction, e, rest);
    case Quoted(parts) => QuotedReads(parts, rest);
    case EmptyList(gap) => EmptyListReads(gap, rest);
    case EmptyDict(gap) => EmptyDictReads(gap, rest);
    case List(gap, items) =>
      ItemsRead(items, rest);
      ListReads(gap, SpellItems(items, rest));
    case Dict(gap, members) =>
      MembersRead(members, rest);
      DictReads(gap, SpellMembers(members, rest));
      if MembersOutcome(members).Ok? { HookMeans(MembersOutcome(members).value); }
  }

  lemma ValueOfString(body: Text, t: Text, rest: Text)
    requires ReadString(body) == Got(t, rest)
    ensures ReadValue([QUOTE] + body) == Got(Str(t), rest)
  {
    assert ([QUOTE] + body)[1..] == body;
  }

  lemma QuotedReads(parts: seq<Part>, rest: Text)
    requires PartsHold(parts)
    ensures ReadValue([QUOTE] + PartsText(parts, rest)) == Got(Str(PartsValue(parts)), rest)
  {
    PartsRead(parts, rest);
    ValueOfString(PartsText(parts, rest), PartsValue(parts), rest);
  }

  lemma {:induction false} ItemsRead(items: Items, rest: Text)
    requires ItemsHold(items)
    ensures ReadItems(SpellItems(items, rest)) == Reading(ItemsOutcome(items), rest) && Headed(SpellItems(items, rest))
    decreases items
  {
    hide ReadValue, ReadItems, Blank, Spell, Grammatical, Headed, Outcome;
    match items
    case LastItem(tree, after) =>
      var close := after + ([RBRACKET] + rest);
      BracketDelimits(after, RBRACKET, rest);
      TreeReads(tree, close);
      LastItemReads(Spell(tree, close), Reading(Outcome(tree), close), after, rest);
    case Item(tree, after, before, more) =>
      var next := SpellItems(more, rest);
      var tail := after + ([COMMA] + (before + next));
      ItemsRead(more, rest);
      BracketDelimits(after, COMMA, before + next);
      TreeReads(tree, tail);
      ItemReads(Spell(tree, tail), Reading(Outcome(tree), tail), after, before, next);
  }

  lemma {:induction false} MembersRead(members: Members, rest: Text)
    requires MembersHold(members)
    ensures ReadMembers(SpellMembers(members, rest)) == Reading(MembersOutcome(members), rest)
    ensures SpellMembers(members, rest) != [] && SpellMembers(members, rest)[0] == QUOTE
    decreases members
  {
    hide ReadValue, ReadMembers, Blank, Spell, Grammatical, Headed, PartsHold, PartsText, PartsValue, Outcome;
    match members
    case LastMember(key, beforeColon, afterColon, tree, after) =>
      var close := after + ([RBRACE] + rest);
      BracketDelimits(after, RBRACE, rest);
      TreeReads(tree, close);
      LastMemberReads(members, Reading(Outcome(tree), close), Spell(tree, close), rest);
    case Member(key, beforeColon, afterColon, tree, after, before, more) =>
      var next := SpellMembers(more, rest);
      var tail := after + ([COMMA] + (before + next));
      MembersRead(more, rest);
      BracketDelimits(after, COMMA, before + next);
      TreeReads(tree, tail);
      MemberReads(members, Reading(Outcome(tree), tail), Spell(tree, tail), next);
  }

  // --------------------------------------------- whatever is read was spelled

  lemma NibbleFound(c: CodePoint) returns (x: Nibble)
    requires HexValue(c).Some?
    ensures NibbleText(x) == c && x.n == HexValue(c).value
  {
    x := Nibble(HexValue(c).value, c < 0x61);
  }

  lemma QuadFound(s: Text) returns (q: Quad)
    requires ReadHex4(s).Some?
    ensures |s| >= 4 && s == QuadText(q) + s[4..] && QuadValue(q) == ReadHex4(s).value
  {
    hide HexValue, NibbleText;
    var a := NibbleFound(s[0]);
    var b := NibbleFound(s[1]);
    var c := NibbleFound(s[2]);
    var d := NibbleFound(s[3]);
    q := Quad(a, b, c, d);
    assert s[..4] == QuadText(q);
  }

  /** Two halves next to each other are read as one character. */
  lemma HalvesJoin(q: Quad, ps: seq<Part>, rest: Text)
    requires PartsHold(ps) && ps != [] && Halves(Unit(q), ps[0])
    ensures ReadUnicodeEscape(QuadText(q) + PartsText(ps, rest)) != Got(QuadValue(q), PartsText(ps, rest))
  {
    var after := PartsText(ps, rest);
    var s := QuadText(q) + after;
    assert PartHolds(ps[0]);
    hide ReadHex4, QuadValue, QuadText;
    EscapedQuad(ps[0], PartsText(ps[1..], rest));
    QuadReads(q, after);
    assert after[0] == BACKSLASH && after[1] == 0x75;
    assert StartsWith(s[4..], [BACKSLASH, 0x75]) && s[6..] == after[2..];
  }

  /** So where a \u escape was read as one half only, no other half follows. */
  lemma NotHalved(s: Text, q: Quad, ps: seq<Part>, rest: Text)
    requires s == QuadText(q) + PartsText(ps, rest) && PartsHold(ps)
    requires ReadUnicodeEscape(s) == Got(QuadValue(q), PartsText(ps, rest))
    ensures PartsHold([Unit(q)] + ps)
  {
    hide ReadUnicodeEscape, QuadText, PartsText;
    assert ([Unit(q)] + ps)[1..] == ps;
    if ps != [] && Halves(Unit(q), ps[0]) { HalvesJoin(q, ps, rest); }
  }

  datatype Escaped = One(part: Part) | Half(q: Quad)

  /** The part a \u escape was read as. */
  lemma UnicodeFound(s: Text) returns (x: Escaped)
    requires ReadUnicodeEscape(s).Got?
    ensures x.One? ==> x.part.Pair16? && PartHolds(x.part) && PartValue(x.part) == ReadUnicodeEscape(s).value
    ensures x.One? ==> [BACKSLASH, 0x75] + s == PartText(x.part) + ReadUnicodeEscape(s).rest
    ensures x.Half? ==> s == QuadText(x.q) + ReadUnicodeEscape(s).rest && ReadUnicodeEscape(s).value == QuadValue(x.q)
  {
    hide ReadHex4, QuadValue, QuadText;
    var q := QuadFound(s);
    var rest := ReadUnicodeEscape(s).rest;
    if rest == s[4..] && ReadUnicodeEscape(s).value == QuadValue(q) { return Half(q); }
    assert StartsWith(s[4..], [BACKSLASH, 0x75]);
    var low := QuadFound(s[6..]);
    assert s[4..] == [BACKSLASH, 0x75] + s[6..] && s[6..][4..] == s[10..];
    x := One(Pair16(q, low));
  }

  lemma EscapeFound(s: Text, ps: seq<Part>, rest: Text) returns (p: Part)
    requires s != [] && s[0] == BACKSLASH && ReadEscape(s[1..]).Got? && PartsHold(ps)
    requires ReadEscape(s[1..]).rest == PartsText(ps, rest)
    ensures PartsHold([p] + ps) && PartHolds(p) && PartValue(p) == ReadEscape(s[1..]).value
    ensures s == PartText(p) + PartsText(ps, rest)
  {
    hide ReadUnicodeEscape, QuadValue, QuadText, PartsText;
    var u := s[1..];
    assert forall p :: ([p] + ps)[1..] == ps;
    if u[0] == 0x75 {
      assert s == [BACKSLASH, 0x75] + u[1..];
      var x := UnicodeFound(u[1..]);
      match x
      case One(part) => p := part;
      case Half(q) =>
        p := Unit(q);
        NotHalved(u[1..], q, ps, rest);
    } else {
      p := Short(u[0]);
      assert s == [BACKSLASH, u[0]] + u[1..];
    }
  }

  /** The parts a string was read as. */
  lemma {:induction false} PartsFound(s: Text) returns (ps: seq<Part>)
    requires ReadString(s).Got?
    ensures PartsHold(ps) && PartsValue(ps) == ReadString(s).value && s == PartsText(ps, ReadString(s).rest)
    decreases |s|
  {
    if s[0] == QUOTE {
      ps := [];
      assert s == [QUOTE] + s[1..];
    } else {
      hide ReadEscape, QuadText, QuadValue, PartHolds, PartValue;
      var p;
      if s[0] == BACKSLASH {
        ps := PartsFound(ReadEscape(s[1..]).rest);
        p := EscapeFound(s, ps, ReadString(s).rest);
      } else {
        ps := PartsFound(s[1..]);
        p := Plain(s[0]);
        PlainHolds(s[0], ps);
        assert s == [s[0]] + s[1..];
      }
      PartsGrow(p, ps, ReadString(s).rest);
      ps := [p] + ps;
    }
  }

  lemma PlainHolds(c: CodePoint, ps: seq<Part>)
    requires PartsHold(ps) && c > 0x1F && c != QUOTE && c != BACKSLASH
    ensures PartHolds(Plain(c)) && PartsHold([Plain(c)] + ps) && PartValue(Plain(c)) == c
  {
    assert ([Plain(c)] + ps)[1..] == ps;
  }

  lemma PartsGrow(p: Part, ps: seq<Part>, rest: Text)
    requires PartsHold([p] + ps) && PartsHold(ps) && PartHolds(p)
    ensures PartsValue([p] + ps) == [PartValue(p)] + PartsValue(ps)
    ensures PartsText([p] + ps, rest) == PartText(p) + PartsText(ps, rest)
  {
    hide PartText, PartValue;
    assert ([p] + ps)[1..] == ps && ([p] + ps)[0] == p;
  }

  lemma DigitTextGrows(d: Digit, ds: seq<Digit>)
    ensures DigitText([d] + ds) == [ZERO + d] + DigitText(ds)
  {
  }

  lemma {:induction false} DigitsFound(s: Text)
    ensures s == DigitText(TakeDigits(s).0) + TakeDigits(s).1
    ensures s != [] && IsDigit(s[0]) ==> TakeDigits(s).0 != [] && TakeDigits(s).0[0] == s[0] - ZERO
  {
    hide DigitText;
    if s != [] && IsDigit(s[0]) {
      DigitsFound(s[1..]);
      DigitTextGrows(s[0] - ZERO, TakeDigits(s[1..]).0);
      assert s == [s[0]] + s[1..];
    } else {
      NoDigitText();
    }
  }

  lemma NoDigitText()
    ensures DigitText([]) == []
  {
  }

  /** Sign and digits of whatever was read as a number. */
  lemma SignedFound(s: Text) returns (negative: bool, ds: seq<Digit>, rest: Text)
    requires ReadNumber(s).Got?
    ensures NoLeadingZero(ds) && s == (if negative then Of("-") else []) + (DigitText(ds) + rest)
    ensures !HasFraction(rest) && !HasExponent(rest) && IntegerHook(negative, ds).Ok?
    ensures ReadNumber(s) == Got(Int(IntegerHook(negative, ds).value), rest)
  {
    hide HasFraction, HasExponent, IntegerHook, TakeDigits;
    negative := s[0] == MINUS;
    var u := if negative then s[1..] else s;
    assert s == (if negative then Of("-") else []) + u;
    if u[0] == ZERO {
      ds, rest := [0], u[1..];
      assert DigitText([0]) == [ZERO] && u == [ZERO] + u[1..];
    } else {
      ds, rest := TakeDigits(u).0, TakeDigits(u).1;
      DigitsFound(u);
    }
  }

  /** A number is only ever read as an integer: neither fraction nor exponent follows it. */
  lemma NumberFound(s: Text) returns (t: Tree)
    requires ReadNumber(s).Got?
    ensures t.Number? && Grammatical(t) && Outcome(t) == Ok(ReadNumber(s).value) && s == Spell(t, ReadNumber(s).rest)
  {
    hide HasFraction, HasExponent, IntegerHook, ReadNumber, Numeral, Pow;
    var negative, ds, rest := SignedFound(s);
    IntegerHookExact(negative, ds);
    t := Number(negative, ds, [], NoExponent);
    assert TailText([], NoExponent, rest) == rest;
  }

  lemma PrefixCut(s: Text, prefix: Text)
    requires StartsWith(s, prefix)
    ensures s == prefix + s[|prefix|..]
  {
    assert s[..|prefix|] == prefix;
  }

  /** The tree of whatever was read. */
  lemma {:induction false} TreeFound(s: Text) returns (t: Tree)
    requires ReadValue(s).Got?
    ensures Grammatical(t) && Outcome(t) == Ok(ReadValue(s).value) && s == Spell(t, ReadValue(s).rest)
    decreases |s|, 2
  {
    hide ReadString, ReadNumber, ReadItems, ReadMembers, SkipWs, ObjectHook, StartsWith, PartsText, PartsHold,
      PartsValue, Of,
      SpellItems, SpellMembers;
    if s[0] == QUOTE {
      var ps := PartsFound(s[1..]);
      t := Quoted(ps);
      assert s == [QUOTE] + s[1..];
    } else if s[0] == LBRACE {
      t := DictFound(s);
    } else if s[0] == LBRACKET {
      t := ListFound(s);
    } else if StartsWith(s, NULL_TEXT) || StartsWith(s, TRUE_TEXT) || StartsWith(s, FALSE_TEXT) {
      var w := if StartsWith(s, NULL_TEXT) then NullWord else if StartsWith(s, TRUE_TEXT) then TrueWord else FalseWord;
      WordTexts();
      PrefixCut(s, WordText(w));
      t := Literal(w);
    } else {
      t := NumberFound(s);
    }
  }

  lemma {:induction false} ListFound(s: Text) returns (t: Tree)
    requires s != [] && s[0] == LBRACKET && ReadArray(SkipWs(s[1..])).Got?
    ensures var r := ReadArray(SkipWs(s[1..]));
      Grammatical(t) && Outcome(t) == Ok(r.value) && s == Spell(t, r.rest)
    decreases |s|, 1
  {
    hide ReadItems, SpellItems, SkipWs, Blank, ItemsHold, ItemsOutcome;
    var gap := Skipped(s[1..]);
    var body := SkipWs(s[1..]);
    assert s == [LBRACKET] + (gap + body) by { assert s == [LBRACKET] + s[1..]; }
    if body != [] && body[0] == RBRACKET {
      t := EmptyList(gap);
      assert body == [RBRACKET] + body[1..];
    } else {
      var items := ItemsFound(body);
      t := List(gap, items);
    }
  }

  lemma {:induction false} ItemsFound(s: Text) returns (items: Items)
    requires ReadItems(s).Got?
    ensures ItemsHold(items) && ItemsOutcome(items) == Ok(ReadItems(s).value) && s == SpellItems(items, ReadItems(s).rest)
    decreases |s|, 3
  {
    hide ReadValue, SkipWs, Blank, Spell, Grammatical, Outcome;
    var tree := TreeFound(s);
    var rest := ReadValue(s).rest;
    var after := Skipped(rest);
    var u := SkipWs(rest);
    assert u == [u[0]] + u[1..];
    if u[0] == RBRACKET {
      items := LastItem(tree, after);
    } else {
      var before := Skipped(u[1..]);
      var more := ItemsFound(SkipWs(u[1..]));
      items := Item(tree, after, before, more);
    }
  }

  lemma {:induction false} DictFound(s: Text) returns (t: Tree)
    requires s != [] && s[0] == LBRACE && ReadObject(SkipWs(s[1..])).Got?
    ensures var r := ReadObject(SkipWs(s[1..]));
      Grammatical(t) && Outcome(t) == Ok(r.value) && s == Spell(t, r.rest)
    decreases |s|, 1
  {
    hide ReadMembers, SpellMembers, ObjectHook, SkipWs, Blank, KeysDiffer, MapOf, MembersHold, MembersOutcome;
    var gap := Skipped(s[1..]);
    var body := SkipWs(s[1..]);
    assert s == [LBRACE] + (gap + body) by { assert s == [LBRACE] + s[1..]; }
    if body != [] && body[0] == RBRACE {
      t := EmptyDict(gap);
      assert body == [RBRACE] + body[1..];
    } else {
      var members := MembersFound(body);
      HookMeans(ReadMembers(body).value);
      t := Dict(gap, members);
    }
  }

  lemma {:induction false} MembersFound(s: Text) returns (members: Members)
    requires ReadMembers(s).Got?
    ensures MembersHold(members) && MembersOutcome(members) == Ok(ReadMembers(s).value)
    ensures s == SpellMembers(members, ReadMembers(s).rest)
    decreases |s|, 3
  {
    hide ReadValue, ReadString, SkipWs, Blank, Spell, Grammatical, Outcome, PartsHold, PartsValue, PartsText;
    var key := PartsFound(s[1..]);
    assert s == [QUOTE] + s[1..];
    var afterKey := ReadString(s[1..]).rest;
    var beforeColon := Skipped(afterKey);
    var c := SkipWs(afterKey);
    assert c == [COLON] + c[1..];
    var afterColon := Skipped(c[1..]);
    var value := SkipWs(c[1..]);
    var tree := TreeFound(value);
    var rest := ReadValue(value).rest;
    var after := Skipped(rest);
    var u := SkipWs(rest);
    assert u == [u[0]] + u[1..];
    if u[0] == RBRACE {
      members := LastMember(key, beforeColon, afterColon, tree, after);
    } else {
      var before := Skipped(u[1..]);
      var more := MembersFound(SkipWs(u[1..]));
      members := Member(key, beforeColon, afterColon, tree, after, before, more);
    }
  }

  // ------------------------------------------------------------ whole documents

  lemma BlankDelimits(gap: Text)
    requires Blank(gap)
    ensures Delimited(gap)
  {
  }

  /** What the reader makes of a text of the grammar: its value, or the first fault the hooks meet. */
  lemma DocumentReads(s: Text, t: Tree)
    requires IsTextOf(s, t)
    ensures ReadDocument(s) == Outcome(t)
  {
    hide ReadValue, Spell, Blank, Grammatical, Outcome;
    var before, after :| Blank(before) && Blank(after) && s == before + Spell(t, after);
    BlankDelimits(after);
    TreeReads(t, after);
    GapSkipped(before, Spell(t, after));
    GapSkipped(after, []);
    assert after + [] == after;
  }

  /** The reader accepts exactly the texts that spell a value, and returns the value they spell. */
  lemma ReadsExactly(s: Text, v: Json)
    ensures ReadDocument(s) == Ok(v) <==> Spells(s, v)
  {
    hide ReadValue, Spell, Blank, Grammatical, Outcome;
    if ReadDocument(s) == Ok(v) {
      var before := Skipped(s);
      var t := TreeFound(SkipWs(s));
      var after := Skipped(ReadValue(SkipWs(s)).rest);
      assert after + [] == after;
      assert IsTextOf(s, t);
    } else if t :| IsTextOf(s, t) && Outcome(t) == Ok(v) {
      DocumentReads(s, t);
    }
  }
}
