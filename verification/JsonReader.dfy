/**
 The strict reader: json.loads (RFC 8259, sections 2 to 7) with the integer,
 float, constant and object-pairs hooks of the gateway.
 */
module JsonReader {
  import opened Arithmetic
  import opened Strings
  import opened Json
  import opened Wrappers
  import opened CanonicalJson

  datatype Fault =
    | Malformed
    | FloatRejected
    | NonFiniteRejected
    | DuplicateKey
    | ResourceLimit
    | InvalidUnicode
    | CycleRejected
    | UnsupportedType

  datatype Parsed<+T> = Got(value: T, rest: Text) | Bad(fault: Fault)

  predicate IsWs(c: CodePoint) {
    c == 0x20 || c == 0x09 || c == 0x0A || c == 0x0D
  }

  function SkipWs(s: Text): (r: Text)
    ensures |r| <= |s|
    ensures r != [] ==> !IsWs(r[0])
  {
    if s != [] && IsWs(s[0]) then SkipWs(s[1..]) else s
  }

  predicate StartsWith(s: Text, prefix: Text) {
    |s| >= |prefix| && forall i :: 0 <= i < |prefix| ==> s[i] == prefix[i]
  }

  // --------------------------------------------------------------- numbers

  const MAX_INTEGER_BITS: nat := 4096
  const MAX_INTEGER_DECIMAL_DIGITS: nat := 1234

  predicate IsDigit(c: CodePoint) {
    ZERO <= c <= 0x39
  }

  /** The longest run of decimal digits at the front. */
  function TakeDigits(s: Text): (r: (seq<Digit>, Text))
    ensures |r.0| + |r.1| == |s|
    ensures s != [] && IsDigit(s[0]) ==> |r.0| > 0
  {
    if s != [] && IsDigit(s[0]) then
      var (ds, rest) := TakeDigits(s[1..]);
      ([s[0] - ZERO] + ds, rest)
    else ([], s)
  }

  /** The integer hook: digit ceiling first, then the bit ceiling. */
  function IntegerHook(negative: bool, ds: seq<Digit>): Result<int, Fault> {
    if |ds| > MAX_INTEGER_DECIMAL_DIGITS || BitLength(Numeral(ds)) > MAX_INTEGER_BITS then Err(ResourceLimit)
    else Ok(if negative then -(Numeral(ds) as int) else Numeral(ds) as int)
  }

  predicate HasFraction(s: Text) {
    |s| >= 2 && s[0] == 0x2E && IsDigit(s[1])
  }

  predicate HasExponent(s: Text) {
    |s| >= 2 && (s[0] == 0x65 || s[0] == 0x45) &&
    (IsDigit(s[1]) || (|s| >= 3 && (s[1] == 0x2B || s[1] == MINUS) && IsDigit(s[2])))
  }

  function ReadNumber(s: Text): (r: Parsed<Json>)
    ensures r.Got? ==> |r.rest| < |s|
  {
    var negative := s != [] && s[0] == MINUS;
    var t := if negative then s[1..] else s;
    if t == [] || !IsDigit(t[0]) then Bad(Malformed)
    else
      var (ds, rest) := if t[0] == ZERO then ([0 as Digit], t[1..]) else TakeDigits(t);
      if HasFraction(rest) || HasExponent(rest) then Bad(FloatRejected)
      else match IntegerHook(negative, ds)
        case Ok(n) => Got(Int(n), rest)
        case Err(f) => Bad(f)
  }

  // --------------------------------------------------------------- strings

  function HexValue(c: CodePoint): (r: Option<int>)
    ensures r.Some? ==> 0 <= r.value < 16
  {
    if IsDigit(c) then Some(c - ZERO)
    else if 0x61 <= c <= 0x66 then Some(c - 0x61 + 10)
    else if 0x41 <= c <= 0x46 then Some(c - 0x41 + 10)
    else None
  }

  function ReadHex4(s: Text): (r: Option<int>)
    ensures r.Some? ==> |s| >= 4 && 0 <= r.value <= 0xFFFF
  {
    if |s| < 4 then None
    else
      var a, b, c, d := HexValue(s[0]), HexValue(s[1]), HexValue(s[2]), HexValue(s[3]);
      if a.Some? && b.Some? && c.Some? && d.Some?
      then Some(4096 * a.value + 256 * b.value + 16 * c.value + d.value)
      else None
  }

  /** A \u escape after its letter; a high and a low surrogate escape combine. */
  function ReadUnicodeEscape(s: Text): (r: Parsed<CodePoint>)
    ensures r.Got? ==> |r.rest| < |s|
  {
    match ReadHex4(s)
    case None => Bad(Malformed)
    case Some(high) =>
      if 0xD800 <= high <= 0xDBFF && StartsWith(s[4..], [BACKSLASH, 0x75]) then
        match ReadHex4(s[6..])
        case None => Bad(Malformed)
        case Some(low) =>
          if 0xDC00 <= low <= 0xDFFF
          then Got(0x10000 + 1024 * (high - 0xD800) + (low - 0xDC00), s[10..])
          else Got(high, s[4..])
      else Got(high, s[4..])
  }

  function ReadEscape(s: Text): (r: Parsed<CodePoint>)
    ensures r.Got? ==> |r.rest| < |s|
  {
    if s == [] then Bad(Malformed)
    else if s[0] == 0x75 then ReadUnicodeEscape(s[1..])
    else if s[0] == QUOTE || s[0] == BACKSLASH || s[0] == 0x2F then Got(s[0], s[1..])
    else if s[0] == 0x62 then Got(0x08, s[1..])
    else if s[0] == 0x66 then Got(0x0C, s[1..])
    else if s[0] == 0x6E then Got(0x0A, s[1..])
    else if s[0] == 0x72 then Got(0x0D, s[1..])
    else if s[0] == 0x74 then Got(0x09, s[1..])
    else Bad(Malformed)
  }

  /** A string body after its opening quote. */
  function ReadString(s: Text): (r: Parsed<Text>)
    ensures r.Got? ==> |r.rest| < |s|
    decreases |s|
  {
    if s == [] then Bad(Malformed)
    else if s[0] == QUOTE then Got([], s[1..])
    else if s[0] <= 0x1F then Bad(Malformed)
    else
      var first: Parsed<CodePoint> := if s[0] == BACKSLASH then ReadEscape(s[1..]) else Got(s[0], s[1..]);
      match first
      case Bad(f) => Bad(f)
      case Got(c, rest) =>
        match ReadString(rest)
        case Bad(f) => Bad(f)
        case Got(t, after) => Got([c] + t, after)
  }

  // ------------------------------------------------------- values

  const NAN_TEXT: Text := [0x4E, 0x61, 0x4E]
  const INFINITY_TEXT: Text := [0x49, 0x6E, 0x66, 0x69, 0x6E, 0x69, 0x74, 0x79]

  datatype Pair = Pair(key: Text, child: Json)

  /** The object-pairs hook: a repeated decoded key is an error. */
  function ObjectHook(pairs: seq<Pair>): Result<map<Text, Json>, Fault> {
    if pairs == [] then Ok(map[])
    else match ObjectHook(pairs[..|pairs| - 1])
      case Err(f) => Err(f)
      case Ok(m) =>
        var p := pairs[|pairs| - 1];
        if p.key in m then Err(DuplicateKey) else Ok(m[p.key := p.child])
  }

  lemma ObjectHookEmpty()
    ensures ObjectHook([]) == Ok(map[])
  {
  }

  lemma ObjectHookUnfold(front: seq<Pair>, p: Pair)
    ensures ObjectHook(front + [p]) ==
      if ObjectHook(front).Err? then ObjectHook(front)
      else if p.key in ObjectHook(front).value then Err(DuplicateKey)
      else Ok(ObjectHook(front).value[p.key := p.child])
  {
    assert (front + [p])[..|front|] == front;
  }

  function ReadValue(s: Text): (r: Parsed<Json>)
    ensures r.Got? ==> |r.rest| < |s|
    decreases |s|, 0
  {
    if s == [] then Bad(Malformed)
    else if s[0] == QUOTE then
      match ReadString(s[1..])
      case Bad(f) => Bad(f)
      case Got(t, rest) => Got(Str(t), rest)
    else if s[0] == LBRACE then ReadObject(SkipWs(s[1..]))
    else if s[0] == LBRACKET then ReadArray(SkipWs(s[1..]))
    else if StartsWith(s, NULL_TEXT) then Got(Null, s[4..])
    else if StartsWith(s, TRUE_TEXT) then Got(Bool(true), s[4..])
    else if StartsWith(s, FALSE_TEXT) then Got(Bool(false), s[5..])
    else if StartsWith(s, NAN_TEXT) || StartsWith(s, INFINITY_TEXT) || StartsWith(s, [MINUS] + INFINITY_TEXT)
    then Bad(NonFiniteRejected)
    else ReadNumber(s)
  }

  /** After '[' and whitespace. */
  function ReadArray(s: Text): (r: Parsed<Json>)
    ensures r.Got? ==> |r.rest| < |s|
    decreases |s|, 2
  {
    if s != [] && s[0] == RBRACKET then Got(Arr([]), s[1..])
    else match ReadItems(s)
      case Bad(f) => Bad(f)
      case Got(items, rest) => Got(Arr(items), rest)
  }

  function ReadItems(s: Text): (r: Parsed<seq<Json>>)
    ensures r.Got? ==> |r.rest| < |s|
    decreases |s|, 1
  {
    match ReadValue(s)
    case Bad(f) => Bad(f)
    case Got(v, rest) =>
      var t := SkipWs(rest);
      if t == [] then Bad(Malformed)
      else if t[0] == RBRACKET then Got([v], t[1..])
      else if t[0] != COMMA then Bad(Malformed)
      else match ReadItems(SkipWs(t[1..]))
        case Bad(f) => Bad(f)
        case Got(vs, after) => Got([v] + vs, after)
  }

  /** After '{' and whitespace. */
  function ReadObject(s: Text): (r: Parsed<Json>)
    ensures r.Got? ==> |r.rest| < |s|
    decreases |s|, 2
  {
    if s != [] && s[0] == RBRACE then Got(Obj(map[]), s[1..])
    else match ReadMembers(s)
      case Bad(f) => Bad(f)
      case Got(pairs, rest) =>
        match ObjectHook(pairs)
        case Err(f) => Bad(f)
        case Ok(m) => Got(Obj(m), rest)
  }

  function ReadMembers(s: Text): (r: Parsed<seq<Pair>>)
    ensures r.Got? ==> |r.rest| < |s|
    decreases |s|, 1
  {
    if s == [] || s[0] != QUOTE then Bad(Malformed)
    else match ReadString(s[1..])
      case Bad(f) => Bad(f)
      case Got(k, afterKey) =>
        var c := SkipWs(afterKey);
        if c == [] || c[0] != COLON then Bad(Malformed)
        else match ReadValue(SkipWs(c[1..]))
          case Bad(f) => Bad(f)
          case Got(v, rest) =>
            var t := SkipWs(rest);
            if t == [] then Bad(Malformed)
            else if t[0] == RBRACE then Got([Pair(k, v)], t[1..])
            else if t[0] != COMMA then Bad(Malformed)
            else match ReadMembers(SkipWs(t[1..]))
              case Bad(f) => Bad(f)
              case Got(ps, after) => Got([Pair(k, v)] + ps, after)
  }

  /** One value with nothing but whitespace around it. */
  function ReadDocument(s: Text): Result<Json, Fault> {
    match ReadValue(SkipWs(s))
    case Bad(f) => Err(f)
    case Got(v, rest) => if SkipWs(rest) == [] then Ok(v) else Err(Malformed)
  }
}
