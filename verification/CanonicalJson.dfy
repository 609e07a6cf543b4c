/** The canonical printer: sorted keys, no whitespace, minimal escapes. */
module CanonicalJson {
  import opened Arithmetic
  import opened Strings
  import opened Json

  const QUOTE: CodePoint := 0x22
  const BACKSLASH: CodePoint := 0x5C
  const COMMA: CodePoint := 0x2C
  const COLON: CodePoint := 0x3A
  const LBRACKET: CodePoint := 0x5B
  const RBRACKET: CodePoint := 0x5D
  const LBRACE: CodePoint := 0x7B
  const RBRACE: CodePoint := 0x7D
  const MINUS: CodePoint := 0x2D
  const ZERO: CodePoint := 0x30
  const NULL_TEXT: Text := [0x6E, 0x75, 0x6C, 0x6C]
  const TRUE_TEXT: Text := [0x74, 0x72, 0x75, 0x65]
  const FALSE_TEXT: Text := [0x66, 0x61, 0x6C, 0x73, 0x65]

  function DigitText(ds: seq<Digit>): (t: Text)
    ensures |t| == |ds|
  {
    seq(|ds|, i requires 0 <= i < |ds| => ZERO + ds[i])
  }

  function Abs(n: int): nat {
    if n < 0 then -n else n
  }

  function PrintInteger(n: int): Text {
    (if n < 0 then [MINUS] else []) + DigitText(Digits(Abs(n)))
  }

  function HexDigit(d: int): CodePoint
    requires 0 <= d < 16
  {
    if d < 10 then ZERO + d else 0x61 + d - 10
  }

  /** One character inside a string literal. */
  function Escape(c: CodePoint): Text {
    if c == QUOTE then [BACKSLASH, QUOTE]
    else if c == BACKSLASH then [BACKSLASH, BACKSLASH]
    else if c == 0x08 then [BACKSLASH, 0x62]
    else if c == 0x09 then [BACKSLASH, 0x74]
    else if c == 0x0A then [BACKSLASH, 0x6E]
    else if c == 0x0C then [BACKSLASH, 0x66]
    else if c == 0x0D then [BACKSLASH, 0x72]
    else if c <= 0x1F then [BACKSLASH, 0x75, ZERO, ZERO, HexDigit(c / 16), HexDigit(c % 16)]
    else [c]
  }

  function EscapeAll(s: Text): Text {
    if s == [] then [] else Escape(s[0]) + EscapeAll(s[1..])
  }

  function PrintString(s: Text): Text {
    [QUOTE] + EscapeAll(s) + [QUOTE]
  }

  function Print(v: Json): Text
    decreases v, 1, 0
  {
    match v
    case Null => NULL_TEXT
    case Bool(b) => if b then TRUE_TEXT else FALSE_TEXT
    case Int(n) => PrintInteger(n)
    case Str(s) => PrintString(s)
    case Arr(items) => [LBRACKET] + PrintItems(v, items) + [RBRACKET]
    case Obj(m) => [LBRACE] + PrintMembers(v, SortedKeys(m.Keys)) + [RBRACE]
  }

  function PrintItems(v: Json, items: seq<Json>): Text
    requires v.Arr? && forall x :: x in items ==> x in v.items
    decreases v, 0, |items|
  {
    if items == [] then []
    else
      assert items[0] in v.items;
      if |items| == 1 then Print(items[0])
      else Print(items[0]) + [COMMA] + PrintItems(v, items[1..])
  }

  function PrintMember(v: Json, k: Text): Text
    requires v.Obj? && k in v.members
    decreases v, 0, 0
  {
    PrintString(k) + [COLON] + Print(v.members[k])
  }

  function PrintMembers(v: Json, ks: seq<Text>): Text
    requires v.Obj? && forall k :: k in ks ==> k in v.members
    decreases v, 0, |ks|
  {
    if ks == [] then []
    else if |ks| == 1 then PrintMember(v, ks[0])
    else PrintMember(v, ks[0]) + [COMMA] + PrintMembers(v, ks[1..])
  }
}
