/** Bounded text, and draining an untrusted iterable of identifiers. */
module Identifiers {
  import opened Wrappers
  import opened Strings
  import opened ReceiptContract
  import Utf8

  const MAX_TEXT_FIELD_BYTES: nat := 8192

  function Utf8Width(c: char): nat {
    var n := c as int;
    if n < 0x80 then 1 else if n < 0x800 then 2 else if n < 0x1_0000 then 3 else 4
  }

  function Utf8Size(s: string): nat {
    if s == "" then 0 else Utf8Width(s[0]) + Utf8Size(s[1..])
  }

  /** require_bounded_text: the count of characters is checked first, then the count of bytes. */
  predicate BoundedText(v: Wire) {
    v.WText? && v.s != "" && |v.s| <= MAX_TEXT_FIELD_BYTES && Utf8Size(v.s) <= MAX_TEXT_FIELD_BYTES
  }

  /** The cheap character check never decides: it only saves work. */
  lemma {:induction false} SizeCoversLength(s: string)
    ensures |s| <= Utf8Size(s) <= 4 * |s|
  {
    if s != "" { SizeCoversLength(s[1..]); }
  }

  /** The bytes counted are the bytes of the encoding. */
  lemma {:induction false} SizeIsEncoded(s: string)
    ensures Encodable(Of(s)) && Utf8Size(s) == |Utf8.Encode(Of(s))|
  {
    if s == "" {
      assert Of(s) == [];
    } else {
      SizeIsEncoded(s[1..]);
      assert Of(s) == [s[0] as int] + Of(s[1..]);
      Utf8.PrependEncodes(s[0] as int, Of(s[1..]));
    }
  }

  /** Bounded is a text that takes 1 to 8192 bytes in UTF-8. */
  lemma BoundedExactly(v: Wire)
    ensures BoundedText(v) <==> v.WText? && 1 <= |Utf8.Encode(Of(v.s))| <= 8192
  {
    hide Utf8.Encode;
    if v.WText? {
      SizeIsEncoded(v.s);
      SizeCoversLength(v.s);
    }
  }

  /** One step of an iterator, which may also never stop. */
  datatype Next = Item(value: Wire) | Stop | Fails

  /** What a caller passes: text, bytes or a dict, which are refused unread; something iter() fails on; or an iterator. */
  datatype Iterable = Unsuitable | Broken | Iterator(next: nat -> Next)

  /** The iterable yields exactly n identifiers and then stops, within the limit. */
  ghost predicate Yields(values: Iterable, maximum: nat, n: nat) {
    && values.Iterator? && n <= maximum && values.next(n) == Stop
    && forall i :: 0 <= i < n ==> values.next(i).Item? && BoundedText(values.next(i).value)
  }

  ghost function Yielded(values: Iterable, n: nat): set<string>
    requires values.Iterator?
  {
    set i | 0 <= i < n && values.next(i).Item? && values.next(i).value.WText? :: values.next(i).value.s
  }

  /** bounded_identifier_set: total even on an endless iterable, of which it draws at most maximum + 1 items. */
  method BoundedIdentifierSet(values: Iterable, maximum: nat) returns (r: Option<set<string>>, drawn: nat)
    ensures drawn <= maximum + 1 && (!values.Iterator? ==> drawn == 0)
    ensures r.Some? <==> exists n :: Yields(values, maximum, n)
    ensures forall n :: Yields(values, maximum, n) ==> r == Some(Yielded(values, n))
  {
    hide BoundedText;
    if !values.Iterator? { return None, 0; }
    var output: set<string> := {};
    drawn := 0;
    for i := 0 to maximum + 1
      invariant drawn == i && output == Yielded(values, i)
      invariant forall j :: 0 <= j < i ==> values.next(j).Item? && BoundedText(values.next(j).value)
      invariant i <= maximum
    {
      drawn := i + 1;
      var value := values.next(i);
      if value.Stop? {
        assert Yields(values, maximum, i);
        return Some(output), drawn;
      }
      if i == maximum || value.Fails? || !BoundedText(value.value) { return None, drawn; }
      Drawn(values, i);
      output := output + {value.value.s};
    }
    assert false;
  }

  lemma Drawn(values: Iterable, i: nat)
    requires values.Iterator? && values.next(i).Item? && BoundedText(values.next(i).value)
    ensures values.next(i).value.WText? && Yielded(values, i + 1) == Yielded(values, i) + {values.next(i).value.s}
  {
  }
}
