/** Python strings as sequences of code points, with their sort order. */
module Strings {

  type CodePoint = c: int | 0 <= c <= 0x10FFFF

  type Text = seq<CodePoint>

  /** The code points of a string constant. */
  function Of(s: string): (t: Text)
    ensures |t| == |s|
  {
    seq(|s|, i requires 0 <= i < |s| => s[i] as int)
  }

  predicate IsSurrogate(c: CodePoint) {
    0xD800 <= c <= 0xDFFF
  }

  /** Text that the UTF-8 codec can encode. */
  predicate Encodable(t: Text) {
    forall i :: 0 <= i < |t| ==> !IsSurrogate(t[i])
  }

  // ------------------------------------------------------------ sort order

  /** Python compares strings code point by code point. */
  predicate Leq(a: Text, b: Text) {
    a == [] || (b != [] && (a[0] < b[0] || (a[0] == b[0] && Leq(a[1..], b[1..]))))
  }

  predicate Less(a: Text, b: Text) {
    a != b && Leq(a, b)
  }

  lemma {:induction false} LeqReflexive(a: Text)
    ensures Leq(a, a)
  {
    if a != [] { LeqReflexive(a[1..]); }
  }

  lemma {:induction false} LeqTotal(a: Text, b: Text)
    ensures Leq(a, b) || Leq(b, a)
  {
    if a != [] && b != [] && a[0] == b[0] { LeqTotal(a[1..], b[1..]); }
  }

  lemma {:induction false} LeqAntisymmetric(a: Text, b: Text)
    requires Leq(a, b) && Leq(b, a)
    ensures a == b
  {
    if a != [] {
      LeqAntisymmetric(a[1..], b[1..]);
      assert a == [a[0]] + a[1..];
      assert b == [b[0]] + b[1..];
    }
  }

  lemma {:induction false} LeqTransitive(a: Text, b: Text, c: Text)
    requires Leq(a, b) && Leq(b, c)
    ensures Leq(a, c)
  {
    if a != [] && a[0] == b[0] && b[0] == c[0] { LeqTransitive(a[1..], b[1..], c[1..]); }
  }

  /** The dictionary order: a proper prefix comes first, and otherwise the first difference decides. */
  predicate Precedes(a: Text, b: Text) {
    || (|a| < |b| && b[..|a|] == a)
    || exists i :: 0 <= i < |a| && i < |b| && a[..i] == b[..i] && a[i] < b[i]
  }

  lemma {:induction false} LessExactly(a: Text, b: Text)
    ensures Less(a, b) <==> Precedes(a, b)
  {
    if a == [] || b == [] || a[0] != b[0] {
      if a != [] && b != [] && a[0] < b[0] { assert a[..0] == b[..0]; }
    } else {
      LessExactly(a[1..], b[1..]);
      assert a == [a[0]] + a[1..] && b == [b[0]] + b[1..];
      PrecedesTail(a, b);
    }
  }

  lemma PrecedesTail(a: Text, b: Text)
    requires a != [] && b != [] && a[0] == b[0]
    ensures Precedes(a, b) <==> Precedes(a[1..], b[1..])
  {
    var x, y := a[1..], b[1..];
    forall n | 0 <= n <= |x| && n <= |y| ensures a[..n + 1] == b[..n + 1] <==> x[..n] == y[..n] {
      assert a[..n + 1] == [a[0]] + x[..n] && b[..n + 1] == [b[0]] + y[..n];
    }
    if Precedes(x, y) {
      if i :| 0 <= i < |x| && i < |y| && x[..i] == y[..i] && x[i] < y[i] {
        assert a[..i + 1] == b[..i + 1] && a[i + 1] < b[i + 1];
      } else {
        assert a[..|x| + 1] == b[..|x| + 1];
      }
    }
    if Precedes(a, b) {
      if i :| 0 <= i < |a| && i < |b| && a[..i] == b[..i] && a[i] < b[i] {
        assert x[..i - 1] == y[..i - 1] && x[i - 1] < y[i - 1];
      } else {
        assert a[..|x| + 1] == b[..|x| + 1] && x[..|x|] == x;
      }
    }
  }

  /** In dictionary order, without repetition. */
  predicate Ascending(ks: seq<Text>) {
    forall i, j :: 0 <= i < j < |ks| ==> Precedes(ks[i], ks[j])
  }

  predicate IsLeast(k: Text, s: set<Text>) {
    k in s && forall x :: x in s ==> Leq(k, x)
  }

  lemma {:induction false} LeastExists(s: set<Text>)
    requires s != {}
    ensures exists k :: IsLeast(k, s)
  {
    var x :| x in s;
    var rest := s - {x};
    LeqReflexive(x);
    if rest == {} {
      assert s == {x};
      assert IsLeast(x, s);
    } else {
      LeastExists(rest);
      var k :| IsLeast(k, rest);
      LeqTotal(k, x);
      assert s == rest + {x};
      if Leq(k, x) {
        assert IsLeast(k, s);
      } else {
        forall y | y in s ensures Leq(x, y) {
          if y != x { LeqTransitive(x, k, y); }
        }
        assert IsLeast(x, s);
      }
    }
  }

  lemma LeastUnique(s: set<Text>)
    ensures forall j, k :: IsLeast(j, s) && IsLeast(k, s) ==> j == k
  {
    forall j, k | IsLeast(j, s) && IsLeast(k, s) ensures j == k {
      LeqAntisymmetric(j, k);
    }
  }

  function Least(s: set<Text>): (k: Text)
    requires s != {}
    ensures IsLeast(k, s)
  {
    LeastExists(s);
    LeastUnique(s);
    var k :| k in s && IsLeast(k, s);
    k
  }

  predicate StrictlySorted(ks: seq<Text>) {
    forall i, j :: 0 <= i < j < |ks| ==> Less(ks[i], ks[j])
  }

  predicate Distinct<T(==)>(ks: seq<T>) {
    forall i, j :: 0 <= i < j < |ks| ==> ks[i] != ks[j]
  }

  function Elements<T>(ks: seq<T>): set<T> {
    set k | k in ks
  }

  /** The result of sorted() on the keys of a dict. */
  function SortedKeys(s: set<Text>): (ks: seq<Text>)
    ensures forall k :: k in ks <==> k in s
    ensures StrictlySorted(ks)
  {
    if s == {} then []
    else
      var k := Least(s);
      var rest := SortedKeys(s - {k});
      assert forall x :: x in rest ==> Less(k, x);
      [k] + rest
  }

  lemma SortedKeysListing(s: set<Text>)
    ensures Elements(SortedKeys(s)) == s && Distinct(SortedKeys(s))
  {
  }

  /** A strictly sorted listing of a set is unique, so sorting forgets insertion order. */
  lemma {:induction false} SortedListingUnique(a: seq<Text>, b: seq<Text>)
    requires StrictlySorted(a) && StrictlySorted(b)
    requires Elements(a) == Elements(b)
    ensures a == b
  {
    ElementsEmpty(a);
    ElementsEmpty(b);
    if a != [] {
      HeadIsLeast(a);
      HeadIsLeast(b);
      assert a[0] in Elements(b) && b[0] in Elements(a) by {
        assert a[0] in Elements(a) && b[0] in Elements(b);
      }
      LeqAntisymmetric(a[0], b[0]);
      TailElements(a);
      TailElements(b);
      SortedListingUnique(a[1..], b[1..]);
      assert a == [a[0]] + a[1..];
      assert b == [b[0]] + b[1..];
    }
  }

  lemma ElementsEmpty<T>(a: seq<T>)
    ensures Elements(a) == {} <==> a == []
  {
    if a != [] { assert a[0] in Elements(a); }
  }

  lemma HeadIsLeast(a: seq<Text>)
    requires a != [] && StrictlySorted(a)
    ensures IsLeast(a[0], Elements(a))
  {
    forall x | x in Elements(a) ensures Leq(a[0], x) {
      var i :| 0 <= i < |a| && a[i] == x;
      if i == 0 { LeqReflexive(x); } else { assert Less(a[0], a[i]); }
    }
  }

  lemma TailElements<T>(a: seq<T>)
    requires a != [] && Distinct(a)
    ensures Elements(a[1..]) == Elements(a) - {a[0]}
  {
    forall x | x in Elements(a) - {a[0]} ensures x in Elements(a[1..]) {
      var i :| 0 <= i < |a| && a[i] == x;
      assert a[1..][i - 1] == x;
    }
    assert forall i :: 0 <= i < |a| - 1 ==> a[1..][i] == a[i + 1];
  }

  /** Sorting lists a set in dictionary order, and there is no other such listing. */
  lemma SortedExactly(s: set<Text>, ks: seq<Text>)
    ensures ks == SortedKeys(s) <==> Ascending(ks) && Elements(ks) == s
  {
    SortedKeysListing(s);
    forall a, b ensures Less(a, b) <==> Precedes(a, b) { LessExactly(a, b); }
    if Ascending(ks) && Elements(ks) == s { SortedListingUnique(ks, SortedKeys(s)); }
  }

  // ------------------------------------------------- sums over a key listing

  /** Sum of the weights of the listed keys. */
  function Sum<T>(ks: seq<T>, w: T -> nat): nat {
    if ks == [] then 0 else w(ks[0]) + Sum(ks[1..], w)
  }

  lemma {:induction false} SumSplit<T>(a: seq<T>, b: seq<T>, w: T -> nat)
    ensures Sum(a + b, w) == Sum(a, w) + Sum(b, w)
  {
    if a == [] {
      assert a + b == b;
    } else {
      assert (a + b)[0] == a[0] && (a + b)[1..] == a[1..] + b;
      SumSplit(a[1..], b, w);
    }
  }

  function Without<T>(b: seq<T>, j: nat): seq<T>
    requires j < |b|
  {
    b[..j] + b[j + 1..]
  }

  lemma WithoutElements<T>(b: seq<T>, j: nat)
    requires Distinct(b) && j < |b|
    ensures Distinct(Without(b, j)) && Elements(Without(b, j)) == Elements(b) - {b[j]}
  {
    var rest := Without(b, j);
    assert forall i :: 0 <= i < |rest| ==> rest[i] == if i < j then b[i] else b[i + 1];
    forall x | x in Elements(b) - {b[j]} ensures x in rest {
      var i :| 0 <= i < |b| && b[i] == x;
      assert x == if i < j then rest[i] else rest[i - 1];
    }
  }

  lemma SumWithout<T>(b: seq<T>, j: nat, w: T -> nat)
    requires j < |b|
    ensures Sum(b, w) == w(b[j]) + Sum(Without(b, j), w)
  {
    assert b == b[..j] + b[j..] && b[j..][1..] == b[j + 1..];
    SumSplit(b[..j], b[j..], w);
    SumSplit(b[..j], b[j + 1..], w);
  }

  /** Two duplicate-free listings of one set have the same sum. */
  lemma {:induction false} SumOrderIrrelevant<T>(a: seq<T>, b: seq<T>, w: T -> nat)
    requires Distinct(a) && Distinct(b) && Elements(a) == Elements(b)
    ensures Sum(a, w) == Sum(b, w)
  {
    ElementsEmpty(a);
    ElementsEmpty(b);
    if a != [] {
      assert a[0] in Elements(a);
      var j :| 0 <= j < |b| && b[j] == a[0];
      TailElements(a);
      WithoutElements(b, j);
      SumWithout(b, j, w);
      SumOrderIrrelevant(a[1..], Without(b, j), w);
    }
  }

  lemma {:induction false} DistinctSize<T>(ks: seq<T>)
    requires Distinct(ks)
    ensures |Elements(ks)| == |ks|
  {
    ElementsEmpty(ks);
    if ks != [] {
      TailElements(ks);
      assert ks[0] in Elements(ks);
      DistinctSize(ks[1..]);
    }
  }
}
