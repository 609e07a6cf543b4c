/**
 JSON texts as trees of their parts (RFC 8259, sections 2 to 7, and the three non-finite words json.loads knows), and what
 the gateway makes of each. The reader is no part of these definitions.
 */
module JsonGrammar {
  import opened Arithmetic
  import opened Strings
  import opened Wrappers
  import opened Json
  import opened CanonicalJson
  import opened JsonReader

  // ------------------------------------------------------------------- strings

  type Hex = n: int | 0 <= n < 16

  /** One hexadecimal digit, in either case. */
  datatype Nibble = Nibble(n: Hex, upper: bool)

  datatype Quad = Quad(a: Nibble, b: Nibble, c: Nibble, d: Nibble)

  /** A part of a string: a character as it is, a one-letter escape, a \u escape, or two of them for one character. */
  datatype Part = Plain(c: CodePoint) | Short(letter: CodePoint) | Unit(q: Quad) | Pair16(high: Quad, low: Quad)

  function NibbleText(x: Nibble): CodePoint {
    if x.n < 10 then 0x30 + x.n else if x.upper then 0x41 + (x.n - 10) else 0x61 + (x.n - 10)
  }

  function QuadText(q: Quad): Text {
    [NibbleText(q.a), NibbleText(q.b), NibbleText(q.c), NibbleText(q.d)]
  }

  function QuadValue(q: Quad): (u: CodePoint)
    ensures u <= 0xFFFF
  {
    0x1000 * q.a.n + 0x100 * q.b.n + 0x10 * q.c.n + q.d.n
  }

  predicate IsHigh(u: CodePoint) {
    0xD800 <= u <= 0xDBFF
  }

  predicate IsLow(u: CodePoint) {
    0xDC00 <= u <= 0xDFFF
  }

  /** What the letter of a short escape stands for. */
  function ShortMeaning(letter: CodePoint): Option<CodePoint> {
    match letter
    case 0x22 => Some(0x22)
    case 0x5C => Some(0x5C)
    case 0x2F => Some(0x2F)
    case 0x62 => Some(0x08)
    case 0x66 => Some(0x0C)
    case 0x6E => Some(0x0A)
    case 0x72 => Some(0x0D)
    case 0x74 => Some(0x09)
    case _ => None
  }

  predicate PartHolds(p: Part) {
    match p
    case Plain(c) => c >= 0x20 && c != QUOTE && c != BACKSLASH
    case Short(letter) => ShortMeaning(letter).Some?
    case Unit(_) => true
    case Pair16(high, low) => IsHigh(QuadValue(high)) && IsLow(QuadValue(low))
  }

  function PartText(p: Part): Text {
    match p
    case Plain(c) => [c]
    case Short(letter) => [BACKSLASH, letter]
    case Unit(q) => [BACKSLASH, 0x75] + QuadText(q)
    case Pair16(high, low) => [BACKSLASH, 0x75] + QuadText(high) + ([BACKSLASH, 0x75] + QuadText(low))
  }

  function PartValue(p: Part): CodePoint
    requires PartHolds(p)
  {
    match p
    case Plain(c) => c
    case Short(letter) => ShortMeaning(letter).value
    case Unit(q) => QuadValue(q)
    case Pair16(high, low) => 0x10000 + 0x400 * (QuadValue(high) - 0xD800) + (QuadValue(low) - 0xDC00)
  }

  /** Two \u escapes that are the halves of one character are one part, not two. */
  predicate Halves(p: Part, q: Part) {
    p.Unit? && q.Unit? && IsHigh(QuadValue(p.q)) && IsLow(QuadValue(q.q))
  }

  predicate PartsHold(ps: seq<Part>) {
    ps == [] || (PartHolds(ps[0]) && (|ps| > 1 ==> !Halves(ps[0], ps[1])) && PartsHold(ps[1..]))
  }

  /** The parts, the closing quote, and what follows. */
  function PartsText(ps: seq<Part>, rest: Text): Text {
    if ps == [] then [QUOTE] + rest else PartText(ps[0]) + PartsText(ps[1..], rest)
  }

  function PartsValue(ps: seq<Part>): Text
    requires PartsHold(ps)
  {
    if ps == [] then [] else [PartValue(ps[0])] + PartsValue(ps[1..])
  }

  // --------------------------------------------------------------------- trees

  datatype Sign = NoSign | PlusSign | MinusSign

  datatype Exponent = NoExponent | Exponent(upper: bool, sign: Sign, digits: seq<Digit>)

  datatype Word = NullWord | TrueWord | FalseWord | NaNWord | InfinityWord | MinusInfinityWord

  /** A value with the blank text inside it: after an opening bracket, before and after each comma and colon. */
  datatype Tree =
    | Literal(word: Word)
    | Number(negative: bool, whole: seq<Digit>, fraction: seq<Digit>, exponent: Exponent)
    | Quoted(parts: seq<Part>)
    | EmptyList(gap: Text)
    | List(gap: Text, items: Items)
    | EmptyDict(gap: Text)
    | Dict(gap: Text, members: Members)

  datatype Items =
    | LastItem(tree: Tree, after: Text)
    | Item(tree: Tree, after: Text, before: Text, rest: Items)

  datatype Members =
    | LastMember(key: seq<Part>, beforeColon: Text, afterColon: Text, tree: Tree, after: Text)
    | Member(key: seq<Part>, beforeColon: Text, afterColon: Text, tree: Tree, after: Text, before: Text, rest: Members)

  predicate Blank(gap: Text) {
    forall i :: 0 <= i < |gap| ==> gap[i] in [0x20, 0x09, 0x0A, 0x0D]
  }

  predicate ExponentHolds(e: Exponent) {
    e.Exponent? ==> e.digits != []
  }

  predicate Grammatical(t: Tree) {
    match t
    case Literal(_) => true
    case Number(_, whole, _, exponent) => NoLeadingZero(whole) && ExponentHolds(exponent)
    case Quoted(parts) => PartsHold(parts)
    case EmptyList(gap) => Blank(gap)
    case List(gap, items) => Blank(gap) && ItemsHold(items)
    case EmptyDict(gap) => Blank(gap)
    case Dict(gap, members) => Blank(gap) && MembersHold(members)
  }

  predicate ItemsHold(items: Items) {
    match items
    case LastItem(tree, after) => Grammatical(tree) && Blank(after)
    case Item(tree, after, before, rest) => Grammatical(tree) && Blank(after) && Blank(before) && ItemsHold(rest)
  }

  predicate MembersHold(members: Members) {
    match members
    case LastMember(key, beforeColon, afterColon, tree, after) =>
      PartsHold(key) && Blank(beforeColon) && Blank(afterColon) && Grammatical(tree) && Blank(after)
    case Member(key, beforeColon, afterColon, tree, after, before, rest) =>
      && PartsHold(key) && Blank(beforeColon) && Blank(afterColon) && Grammatical(tree) && Blank(after) && Blank(before)
      && MembersHold(rest)
  }

  // --------------------------------------------------------------- as text

  function WordText(w: Word): Text {
    match w
    case NullWord => Of("null")
    case TrueWord => Of("true")
    case FalseWord => Of("false")
    case NaNWord => Of("NaN")
    case InfinityWord => Of("Infinity")
    case MinusInfinityWord => Of("-Infinity")
  }

  function SignText(s: Sign): Text {
    match s
    case NoSign => []
    case PlusSign => Of("+")
    case MinusSign => Of("-")
  }

  /** The fraction and the exponent of a number. */
  function TailText(fraction: seq<Digit>, e: Exponent, rest: Text): Text {
    (if fraction == [] then [] else Of(".") + DigitText(fraction))
    + match e
      case NoExponent => rest
      case Exponent(upper, sign, digits) => (if upper then Of("E") else Of("e")) + (SignText(sign) + (DigitText(digits) + rest))
  }

  /** A tree as text, followed by rest. */
  function Spell(t: Tree, rest: Text): Text {
    match t
    case Literal(word) => WordText(word) + rest
    case Number(negative, whole, fraction, e) =>
      (if negative then Of("-") else []) + (DigitText(whole) + TailText(fraction, e, rest))
    case Quoted(parts) => [QUOTE] + PartsText(parts, rest)
    case EmptyList(gap) => [LBRACKET] + (gap + ([RBRACKET] + rest))
    case List(gap, items) => [LBRACKET] + (gap + SpellItems(items, rest))
    case EmptyDict(gap) => [LBRACE] + (gap + ([RBRACE] + rest))
    case Dict(gap, members) => [LBRACE] + (gap + SpellMembers(members, rest))
  }

  function SpellItems(items: Items, rest: Text): Text {
    match items
    case LastItem(tree, after) => Spell(tree, after + ([RBRACKET] + rest))
    case Item(tree, after, before, more) => Spell(tree, after + ([COMMA] + (before + SpellItems(more, rest))))
  }

  function SpellMembers(members: Members, rest: Text): Text {
    match members
    case LastMember(key, beforeColon, afterColon, tree, after) =>
      SpellMember(key, beforeColon, afterColon, Spell(tree, after + ([RBRACE] + rest)))
    case Member(key, beforeColon, afterColon, tree, after, before, more) =>
      SpellMember(key, beforeColon, afterColon, Spell(tree, after + ([COMMA] + (before + SpellMembers(more, rest)))))
  }

  function SpellMember(key: seq<Part>, beforeColon: Text, afterColon: Text, value: Text): Text {
    [QUOTE] + PartsText(key, beforeColon + ([COLON] + (afterColon + value)))
  }

  // ------------------------------------------------------------ as a value

  ghost predicate KeysDiffer(ps: seq<Pair>) {
    forall i, j :: 0 <= i < j < |ps| ==> ps[i].key != ps[j].key
  }

  ghost function MapOf(ps: seq<Pair>): map<Text, Json>
    requires KeysDiffer(ps)
  {
    map i | 0 <= i < |ps| :: ps[i].key := ps[i].child
  }

  /** What json.loads with the gateway's hooks makes of the text: its value, or the first fault its hooks meet. */
  ghost function Outcome(t: Tree): Result<Json, Fault>
    requires Grammatical(t)
  {
    match t
    case Literal(NullWord) => Ok(Null)
    case Literal(TrueWord) => Ok(Bool(true))
    case Literal(FalseWord) => Ok(Bool(false))
    case Literal(_) => Err(NonFiniteRejected)
    case Number(negative, whole, fraction, e) =>
      if fraction != [] || e.Exponent? then Err(FloatRejected)
      else if Numeral(whole) >= Pow(2, 4096) then Err(ResourceLimit)
      else Ok(Int(if negative then -(Numeral(whole) as int) else Numeral(whole)))
    case Quoted(parts) => Ok(Str(PartsValue(parts)))
    case EmptyList(_) => Ok(Arr([]))
    case List(_, items) => (match ItemsOutcome(items) case Ok(vs) => Ok(Arr(vs)) case Err(f) => Err(f))
    case EmptyDict(_) => Ok(Obj(map[]))
    case Dict(_, members) =>
      match MembersOutcome(members)
      case Err(f) => Err(f)
      case Ok(ps) => if KeysDiffer(ps) then Ok(Obj(MapOf(ps))) else Err(DuplicateKey)
  }

  ghost function ItemsOutcome(items: Items): Result<seq<Json>, Fault>
    requires ItemsHold(items)
  {
    match Outcome(items.tree)
    case Err(f) => Err(f)
    case Ok(v) =>
      if items.LastItem? then Ok([v])
      else match ItemsOutcome(items.rest)
        case Err(f) => Err(f)
        case Ok(vs) => Ok([v] + vs)
  }

  ghost function MembersOutcome(members: Members): Result<seq<Pair>, Fault>
    requires MembersHold(members)
  {
    match Outcome(members.tree)
    case Err(f) => Err(f)
    case Ok(v) =>
      var p := Pair(PartsValue(members.key), v);
      if members.LastMember? then Ok([p])
      else match MembersOutcome(members.rest)
        case Err(f) => Err(f)
        case Ok(ps) => Ok([p] + ps)
  }

  /** s is a text of the grammar, blank around it, and t is its tree. */
  ghost predicate IsTextOf(s: Text, t: Tree) {
    Grammatical(t) && exists before, after :: Blank(before) && Blank(after) && s == before + Spell(t, after)
  }

  /** s spells v: it is a text of the grammar, and v is what it says. */
  ghost predicate Spells(s: Text, v: Json) {
    exists t :: IsTextOf(s, t) && Outcome(t) == Ok(v)
  }
}
