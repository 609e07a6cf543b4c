/** Powers, bit lengths and decimal digit strings. */
module Arithmetic {

  function Pow(b: nat, e: nat): nat {
    if e == 0 then 1 else b * Pow(b, e - 1)
  }

  lemma {:induction false} PowAdd(b: nat, m: nat, n: nat)
    ensures Pow(b, m + n) == Pow(b, m) * Pow(b, n)
  {
    if m > 0 {
      PowAdd(b, m - 1, n);
      assert Pow(b, m + n) == b * (Pow(b, m - 1) * Pow(b, n));
      assert b * (Pow(b, m - 1) * Pow(b, n)) == (b * Pow(b, m - 1)) * Pow(b, n);
    }
  }

  lemma {:induction false} PowOfPow(b: nat, m: nat, k: nat)
    ensures Pow(Pow(b, m), k) == Pow(b, m * k)
  {
    if k > 0 {
      PowOfPow(b, m, k - 1);
      assert m * k == m + m * (k - 1);
      PowAdd(b, m, m * (k - 1));
    } else {
      assert m * k == 0;
    }
  }

  lemma ProductMonotone(a: nat, b: nat, x: nat, y: nat)
    requires a <= b && x <= y
    ensures a * x <= b * y
  {
    assert a * x <= a * y;
    assert a * y <= b * y;
  }

  lemma {:induction false} PowMonotone(a: nat, b: nat, k: nat)
    requires a <= b
    ensures Pow(a, k) <= Pow(b, k)
  {
    if k > 0 {
      PowMonotone(a, b, k - 1);
      ProductMonotone(a, b, Pow(a, k - 1), Pow(b, k - 1));
    }
  }

  lemma {:induction false} PowPositive(b: nat, k: nat)
    requires b > 0
    ensures Pow(b, k) > 0
  {
    if k > 0 {
      PowPositive(b, k - 1);
      assert b * Pow(b, k - 1) > 0;
    }
  }

  lemma {:induction false} PowExponentMonotone(b: nat, m: nat, n: nat)
    requires b > 0 && m <= n
    ensures Pow(b, m) <= Pow(b, n)
    decreases n
  {
    if m < n {
      PowExponentMonotone(b, m, n - 1);
      var x := Pow(b, n - 1);
      assert b * x >= x;
    }
  }

  /** Squaring: the step that evaluates a large power in few unfoldings. */
  lemma PowDouble(b: nat, n: nat)
    ensures Pow(b, 2 * n) == Pow(b, n) * Pow(b, n)
  {
    PowAdd(b, n, n);
  }

  /** 2^93 < 10^28, the ratio on which the digit prefilter rests. */
  lemma NinetyThreeBits()
    ensures Pow(2, 93) < Pow(10, 28)
  {
    assert Pow(2, 3) == 8 by { assert Pow(2, 2) == 4; }
    assert Pow(2, 5) == 32;
    PowAdd(2, 5, 6);
    PowDouble(2, 3);
    assert Pow(2, 11) == 2048;
    PowDouble(2, 11);
    assert Pow(2, 22) == 4194304;
    PowAdd(2, 22, 1);
    assert Pow(2, 23) == 8388608;
    PowDouble(2, 23);
    assert Pow(2, 46) == 70368744177664;
    PowDouble(2, 46);
    assert Pow(2, 92) == 4951760157141521099596496896;
    assert Pow(2, 93) == 9903520314283042199192993792;
    assert Pow(10, 3) == 1000 by { assert Pow(10, 2) == 100; }
    PowAdd(10, 3, 4);
    assert Pow(10, 4) == 10000;
    assert Pow(10, 7) == 10000000;
    PowDouble(10, 7);
    assert Pow(10, 14) == 100000000000000;
    PowDouble(10, 14);
    assert Pow(10, 28) == 10000000000000000000000000000;
  }

  lemma SmallPowers()
    ensures Pow(2, 4) == 16 && Pow(10, 2) == 100
  {
    assert Pow(2, 2) == 4;
  }

  /** Every magnitude below 4096 bits has at most 1234 decimal digits. */
  lemma BitCeilingBelowDigitCeiling()
    ensures Pow(2, 4096) < Pow(10, 1234)
  {
    hide Pow;
    NinetyThreeBits();
    SmallPowers();
    PowOfPow(2, 93, 44);
    PowOfPow(10, 28, 44);
    PowMonotone(Pow(2, 93), Pow(10, 28), 44);
    PowAdd(2, 4092, 4);
    PowAdd(10, 1232, 2);
    PowPositive(10, 1232);
    assert 93 * 44 == 4092 && 28 * 44 == 1232;
  }

  /** Python's int.bit_length on a magnitude. */
  function BitLength(n: nat): nat {
    if n == 0 then 0 else 1 + BitLength(n / 2)
  }

  lemma {:induction false} BitLengthBound(n: nat, k: nat)
    ensures BitLength(n) <= k <==> n < Pow(2, k)
  {
    if n == 0 {
      PowPositive(2, k);
    } else if k > 0 {
      BitLengthBound(n / 2, k - 1);
      assert Pow(2, k) == 2 * Pow(2, k - 1);
    }
  }

  // ---------------------------------------------------------------- decimal

  type Digit = d: int | 0 <= d < 10

  /** The number a digit string denotes, most significant digit first. */
  function Numeral(ds: seq<Digit>): nat {
    if ds == [] then 0 else 10 * Numeral(ds[..|ds| - 1]) + ds[|ds| - 1]
  }

  /** The shortest digit string of a number. */
  function Digits(n: nat): (ds: seq<Digit>)
    ensures |ds| > 0
  {
    if n < 10 then [n] else Digits(n / 10) + [n % 10]
  }

  predicate NoLeadingZero(ds: seq<Digit>) {
    |ds| > 0 && (|ds| > 1 ==> ds[0] != 0)
  }

  lemma {:induction false} ValueOfDigits(n: nat)
    ensures Numeral(Digits(n)) == n
    ensures NoLeadingZero(Digits(n))
    ensures n > 0 ==> Digits(n)[0] != 0
  {
    var ds := Digits(n);
    if n < 10 {
      assert ds[..0] == [];
    } else {
      ValueOfDigits(n / 10);
      assert ds[..|ds| - 1] == Digits(n / 10);
    }
  }

  lemma {:induction false} ValueBelow(ds: seq<Digit>)
    ensures Numeral(ds) < Pow(10, |ds|)
  {
    if ds != [] {
      ValueBelow(ds[..|ds| - 1]);
    }
  }

  /** A leading non-zero digit makes the string as large as its length. */
  lemma {:induction false} ValueAtLeast(ds: seq<Digit>)
    requires |ds| > 0 && ds[0] != 0
    ensures Numeral(ds) >= Pow(10, |ds| - 1)
  {
    if |ds| == 1 {
      assert ds[..0] == [];
    } else {
      ValueAtLeast(ds[..|ds| - 1]);
    }
  }

  lemma {:induction false} ValueOfPrefix(ds: seq<Digit>, k: nat)
    requires k <= |ds|
    ensures Numeral(ds[..k]) <= Numeral(ds)
  {
    if k == |ds| {
      assert ds[..k] == ds;
    } else {
      ValueOfPrefix(ds[..|ds| - 1], k);
      assert ds[..|ds| - 1][..k] == ds[..k];
    }
  }
}
