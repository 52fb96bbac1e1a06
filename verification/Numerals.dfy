/**
 Positional numerals, most significant digit first, in any base. They carry the
 big.Int conversions of the codecs (base 58, base 256 and base 10).
 */
module Numerals {

  function Pow(base: nat, exponent: nat): (p: nat)
    ensures base > 0 ==> p > 0
  {
    if exponent == 0 then 1 else base * Pow(base, exponent - 1)
  }

  lemma {:induction false} PowAdd(base: nat, m: nat, n: nat)
    ensures Pow(base, m + n) == Pow(base, m) * Pow(base, n)
  {
    if m != 0 {
      PowAdd(base, m - 1, n);
      MulAssoc(base, Pow(base, m - 1), Pow(base, n));
    }
  }

  lemma MulAssoc(a: int, b: int, c: int)
    ensures a * (b * c) == (a * b) * c
  {
  }

  /** Every digit is below the base. */
  predicate Digits(base: nat, ds: seq<nat>) {
    forall i :: 0 <= i < |ds| ==> ds[i] < base
  }

  /** The number written by `ds`: big.Int's SetBytes, and the multiply-and-add loops. */
  function Value(base: nat, ds: seq<nat>): nat {
    if ds == [] then 0 else Value(base, ds[..|ds| - 1]) * base + ds[|ds| - 1]
  }

  /** The shortest numeral of `n`; zero has no digits, as in big.Int's Bytes. */
  function Numeral(base: nat, n: nat): (ds: seq<nat>)
    requires base >= 2
    ensures Digits(base, ds)
    ensures ds != [] ==> ds[0] != 0
  {
    if n == 0 then [] else
      DivSmaller(n, base);
      Numeral(base, n / base) + [n % base]
  }

  lemma DivSmaller(n: nat, base: nat)
    requires n > 0 && base >= 2
    ensures n / base < n
    ensures n < base ==> n / base == 0 && n % base == n
  {
    assert n == n / base * base + n % base;
    if n / base >= n {
      assert n / base * base >= n * 2 by { MulMono(n, n / base, 2, base); }
    }
    if n < base && n / base >= 1 {
      assert n / base * base >= base by { MulMono(1, n / base, base, base); }
    }
  }

  lemma MulMono(a: nat, b: nat, c: nat, d: nat)
    requires a <= b && c <= d
    ensures a * c <= b * d
  {
    assert a * c <= b * c;
    assert b * c <= b * d;
  }

  lemma {:induction false} ValueOfNumeral(base: nat, n: nat)
    requires base >= 2
    ensures Value(base, Numeral(base, n)) == n
  {
    if n != 0 {
      DivSmaller(n, base);
      ValueOfNumeral(base, n / base);
      var ds := Numeral(base, n);
      assert ds[..|ds| - 1] == Numeral(base, n / base);
      DivMod(n, base);
    }
  }

  lemma DivMod(n: nat, base: nat)
    requires base > 0
    ensures n / base * base + n % base == n
  {
  }

  /** A numeral without a leading zero is the shortest one of its value. */
  lemma {:induction false} NumeralOfValue(base: nat, ds: seq<nat>)
    requires base >= 2 && Digits(base, ds)
    requires ds != [] ==> ds[0] != 0
    ensures Numeral(base, Value(base, ds)) == ds
    ensures ds != [] ==> Value(base, ds) > 0
  {
    if ds != [] {
      var init, d := ds[..|ds| - 1], ds[|ds| - 1];
      assert d < base;
      NumeralOfValue(base, init);
      if init == [] {
        assert Value(base, ds) == d;
        DivSmaller(d, base);
        assert ds == [d];
        assert Numeral(base, d) == Numeral(base, 0) + [d];
      } else {
        var v := Value(base, init);
        DivModUnique(v, base, d);
        assert v * base >= 1 by { MulMono(1, v, 1, base); }
        assert ds == init + [d];
      }
    }
  }

  lemma SmallQuotient(n: nat, d: nat)
    requires n < d
    ensures n / d == 0
  {
    DivModUnique(0, d, n);
  }

  lemma DivModUnique(q: nat, base: nat, r: nat)
    requires r < base
    ensures (q * base + r) / base == q && (q * base + r) % base == r
  {
    var n := q * base + r;
    var q', r' := n / base, n % base;
    assert n == q' * base + r';
    if q' < q {
      assert (q' + 1) * base <= q * base by { MulMono(q' + 1, q, base, base); }
    }
    if q < q' {
      assert (q + 1) * base <= q' * base by { MulMono(q + 1, q', base, base); }
    }
  }

  /** Concatenation shifts the front by the length of the back. */
  lemma {:induction false} ValueAppend(base: nat, front: seq<nat>, back: seq<nat>)
    ensures Value(base, front + back) == Value(base, front) * Pow(base, |back|) + Value(base, back)
  {
    if back == [] {
      assert front + back == front;
    } else {
      var init, d := back[..|back| - 1], back[|back| - 1];
      ValueAppend(base, front, init);
      assert (front + back)[..|front + back| - 1] == front + init;
      Horner(Value(base, front), Pow(base, |init|), Value(base, init), base);
    }
  }

  lemma Horner(f: int, p: int, v: int, base: int)
    ensures (f * p + v) * base == f * (base * p) + v * base
  {
  }

  function Zeros(n: nat): (z: seq<nat>)
    ensures |z| == n
  {
    seq(n, _ => 0)
  }

  lemma {:induction false} ValueOfZeros(base: nat, n: nat)
    ensures Value(base, Zeros(n)) == 0
  {
    if n != 0 {
      ValueOfZeros(base, n - 1);
      assert Zeros(n)[..n - 1] == Zeros(n - 1);
    }
  }

  /** The number of leading zero digits. */
  function LeadingZeros(ds: seq<nat>): (k: nat)
    ensures k <= |ds|
    ensures ds[..k] == Zeros(k)
    ensures k < |ds| ==> ds[k] != 0
  {
    if ds == [] || ds[0] != 0 then 0 else
      var k := LeadingZeros(ds[1..]);
      assert ds[..k + 1] == [0] + ds[1..][..k];
      k + 1
  }

  lemma {:induction false} LeadingZerosOf(k: nat, rest: seq<nat>)
    requires rest != [] ==> rest[0] != 0
    ensures LeadingZeros(Zeros(k) + rest) == k
  {
    var ds := Zeros(k) + rest;
    if k != 0 {
      LeadingZerosOf(k - 1, rest);
      assert ds[1..] == Zeros(k - 1) + rest;
    }
  }

  /**
   Rewrites a digit string in another base, keeping the count of leading zeros
   instead of dropping them: what base 58 text does with bytes, in both directions.
   */
  function Recode(from: nat, to: nat, ds: seq<nat>): (r: seq<nat>)
    requires to >= 2
    ensures Digits(to, r)
  {
    Zeros(LeadingZeros(ds)) + Numeral(to, Value(from, ds))
  }

  /** Recoding there and back is the identity, leading zeros and all-zero strings included. */
  lemma RecodeRoundTrip(from: nat, to: nat, ds: seq<nat>)
    requires from >= 2 && to >= 2 && Digits(from, ds)
    ensures Recode(to, from, Recode(from, to, ds)) == ds
  {
    var k := LeadingZeros(ds);
    var rest := ds[k..];
    assert ds == Zeros(k) + rest;
    ValueAppend(from, Zeros(k), rest);
    ValueOfZeros(from, k);
    var n := Value(from, rest);
    assert Value(from, ds) == n;
    var mid := Numeral(to, n);
    LeadingZerosOf(k, mid);
    ValueAppend(to, Zeros(k), mid);
    ValueOfZeros(to, k);
    ValueOfNumeral(to, n);
    NumeralOfValue(from, rest);
  }

  /** Recoding keeps the number and the count of leading zeros. */
  lemma RecodeKeepsValue(from: nat, to: nat, ds: seq<nat>)
    requires from >= 2 && to >= 2 && Digits(from, ds)
    ensures Value(to, Recode(from, to, ds)) == Value(from, ds)
    ensures LeadingZeros(Recode(from, to, ds)) == LeadingZeros(ds)
  {
    var k, mid := LeadingZeros(ds), Numeral(to, Value(from, ds));
    LeadingZerosOf(k, mid);
    ValueAppend(to, Zeros(k), mid);
    ValueOfZeros(to, k);
    ValueOfNumeral(to, Value(from, ds));
  }

  /** Digits are determined by their number and their leading zeros. */
  lemma SameNumeral(base: nat, a: seq<nat>, b: seq<nat>)
    requires base >= 2 && Digits(base, a) && Digits(base, b)
    requires Value(base, a) == Value(base, b) && LeadingZeros(a) == LeadingZeros(b)
    ensures a == b
  {
    WithoutZeros(base, a);
    WithoutZeros(base, b);
    var k := LeadingZeros(a);
    assert a == a[..k] + a[k..] && b == b[..k] + b[k..];
  }

  lemma WithoutZeros(base: nat, ds: seq<nat>)
    requires base >= 2 && Digits(base, ds)
    ensures ds[LeadingZeros(ds)..] == Numeral(base, Value(base, ds))
  {
    var k := LeadingZeros(ds);
    var rest := ds[k..];
    assert ds == Zeros(k) + rest;
    ValueAppend(base, Zeros(k), rest);
    ValueOfZeros(base, k);
    NumeralOfValue(base, rest);
  }
}
