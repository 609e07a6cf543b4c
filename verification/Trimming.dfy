/** Python's str.strip on text without surrogates. */
module Trimming {

  predicate IsSpace(c: char) {
    var n := c as int;
    0x09 <= n <= 0x0D || 0x1C <= n <= 0x20 || n == 0x85 || n == 0xA0 || n == 0x1680 ||
    0x2000 <= n <= 0x200A || n == 0x2028 || n == 0x2029 || n == 0x202F || n == 0x205F || n == 0x3000
  }

  /** The 29 white-space characters of Python's str.isspace. */
  lemma SpaceExactly(c: char)
    ensures IsSpace(c) <==> c as int in {
      0x09, 0x0A, 0x0B, 0x0C, 0x0D, 0x1C, 0x1D, 0x1E, 0x1F, 0x20, 0x85, 0xA0, 0x1680, 0x2000, 0x2001, 0x2002, 0x2003,
      0x2004, 0x2005, 0x2006, 0x2007, 0x2008, 0x2009, 0x200A, 0x2028, 0x2029, 0x202F, 0x205F, 0x3000}
  {
  }

  function StripLeft(s: string): (r: string)
    ensures r != [] ==> !IsSpace(r[0])
    ensures |r| <= |s|
  {
    if s != [] && IsSpace(s[0]) then StripLeft(s[1..]) else s
  }

  function StripRight(s: string): (r: string)
    ensures r != [] ==> !IsSpace(r[|r| - 1])
    ensures r <= s
  {
    if s != [] && IsSpace(s[|s| - 1]) then StripRight(s[..|s| - 1]) else s
  }

  function Strip(s: string): (r: string)
    ensures r != [] ==> !IsSpace(r[0]) && !IsSpace(r[|r| - 1])
    ensures |r| <= |s|
  {
    StripRight(StripLeft(s))
  }

  predicate Stripped(s: string) {
    s != [] ==> !IsSpace(s[0]) && !IsSpace(s[|s| - 1])
  }

  lemma StripFixes(s: string)
    requires Stripped(s)
    ensures Strip(s) == s
  {
  }

  lemma StripIdempotent(s: string)
    ensures Strip(Strip(s)) == Strip(s)
  {
    StripFixes(Strip(s));
  }

  lemma {:induction false} StripRightIgnoresSuffix(s: string, after: string)
    requires forall c :: c in after ==> IsSpace(c)
    ensures StripRight(s + after) == StripRight(s)
  {
    if after == [] {
      assert s + after == s;
    } else {
      var n := |after| - 1;
      assert after[n] in after;
      assert (s + after)[..|s + after| - 1] == s + after[..n];
      StripRightIgnoresSuffix(s, after[..n]);
    }
  }

  lemma {:induction false} StripLeftIgnoresPrefix(before: string, s: string)
    requires forall c :: c in before ==> IsSpace(c)
    ensures StripLeft(before + s) == StripLeft(s)
  {
    if before == [] {
      assert before + s == s;
    } else {
      assert before[0] in before;
      assert (before + s)[1..] == before[1..] + s;
      StripLeftIgnoresPrefix(before[1..], s);
    }
  }

  lemma {:induction false} StripLeftOfSpaces(s: string)
    requires forall c :: c in s ==> IsSpace(c)
    ensures StripLeft(s) == []
  {
    if s != [] {
      assert s[0] in s;
      StripLeftOfSpaces(s[1..]);
    }
  }

  lemma {:induction false} StripLeftKeepsSuffix(s: string, after: string)
    requires StripLeft(s) != []
    ensures StripLeft(s + after) == StripLeft(s) + after
  {
    if s != [] && IsSpace(s[0]) {
      StripLeftKeepsSuffix(s[1..], after);
      assert (s + after)[1..] == s[1..] + after;
    }
  }

  /** Surrounding whitespace never changes the stripped text. */
  lemma StripIgnoresPadding(before: string, s: string, after: string)
    requires (forall c :: c in before ==> IsSpace(c)) && (forall c :: c in after ==> IsSpace(c))
    ensures Strip(before + s + after) == Strip(s)
  {
    assert before + s + after == before + (s + after);
    StripLeftIgnoresPrefix(before, s + after);
    if StripLeft(s) == [] {
      AllSpaces(s);
      StripLeftOfSpaces(s + after);
    } else {
      StripLeftKeepsSuffix(s, after);
      StripRightIgnoresSuffix(StripLeft(s), after);
    }
  }

  lemma {:induction false} AllSpaces(s: string)
    requires StripLeft(s) == []
    ensures forall c :: c in s ==> IsSpace(c)
  {
    if s != [] {
      AllSpaces(s[1..]);
      assert s == [s[0]] + s[1..];
    }
  }

  predicate Spaces(s: string) {
    forall c :: c in s ==> IsSpace(c)
  }

  lemma {:induction false} LeftCut(s: string) returns (before: string)
    ensures Spaces(before) && s == before + StripLeft(s)
  {
    before := "";
    if s != [] && IsSpace(s[0]) {
      before := LeftCut(s[1..]);
      assert s == [s[0]] + s[1..];
      before := [s[0]] + before;
    }
  }

  lemma {:induction false} RightCut(s: string) returns (after: string)
    ensures Spaces(after) && s == StripRight(s) + after
  {
    after := "";
    if s != [] && IsSpace(s[|s| - 1]) {
      var n := |s| - 1;
      after := RightCut(s[..n]);
      assert s == s[..n] + [s[n]];
      after := after + [s[n]];
    }
  }

  /** Stripping removes all the whitespace around a text, and nothing else. */
  lemma StripExactly(t: string, s: string)
    ensures Strip(t) == s <==>
      Stripped(s) && exists before, after :: Spaces(before) && Spaces(after) && t == before + s + after
  {
    if Strip(t) == s {
      var before := LeftCut(t);
      var after := RightCut(StripLeft(t));
      assert t == before + s + after;
    } else if before, after :| Spaces(before) && Spaces(after) && t == before + s + after {
      StripIgnoresPadding(before, s, after);
      if Stripped(s) { StripFixes(s); }
    }
  }
}
