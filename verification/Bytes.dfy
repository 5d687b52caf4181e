/** Base-256 digits: the little-endian serialization of the virtual machine and big-endian wire numbers. */
module Bytes {

  function Pow(base: nat, n: nat): nat {
    if n == 0 then 1 else base * Pow(base, n - 1)
  }

  lemma {:induction false} PowPositive(base: nat, n: nat)
    requires base > 0
    ensures Pow(base, n) > 0
  {
    if n > 0 {
      PowPositive(base, n - 1);
      assert base * Pow(base, n - 1) > 0;
    }
  }

  lemma {:induction false} PowAdd(base: nat, m: nat, n: nat)
    ensures Pow(base, m + n) == Pow(base, m) * Pow(base, n)
  {
    if m > 0 {
      PowAdd(base, m - 1, n);
      MulAssoc(base, Pow(base, m - 1), Pow(base, n));
    }
  }

  lemma {:induction false} PowMonotone(base: nat, m: nat, n: nat)
    requires base > 0 && m <= n
    ensures Pow(base, m) <= Pow(base, n)
  {
    PowAdd(base, m, n - m);
    PowPositive(base, m);
    PowPositive(base, n - m);
    assert Pow(base, m) * Pow(base, n - m) >= Pow(base, m) * 1;
  }

  ghost predicate AreDigits(s: seq<nat>, base: nat) {
    forall i :: 0 <= i < |s| ==> s[i] < base
  }

  /** The `n` low digits of `x`, least significant first: `serialize.bits.raw`, byte by byte. */
  function Digits(x: nat, n: nat): (s: seq<nat>)
    ensures |s| == n
    ensures AreDigits(s, 256)
  {
    if n == 0 then [] else [x % 256] + Digits(x / 256, n - 1)
  }

  /** The number whose big-endian digits in `base` are `s`. */
  function BigEndian(s: seq<nat>, base: nat): nat {
    if s == [] then 0 else BigEndian(s[..|s| - 1], base) * base + s[|s| - 1]
  }

  /** The number whose little-endian digits in `base` are `s`. */
  function LittleEndian(s: seq<nat>, base: nat): nat {
    if s == [] then 0 else s[0] + base * LittleEndian(s[1..], base)
  }

  function Reverse(s: seq<nat>): (r: seq<nat>)
    ensures |r| == |s|
    ensures forall i :: 0 <= i < |s| ==> r[i] == s[|s| - 1 - i]
  {
    if s == [] then [] else Reverse(s[1..]) + [s[0]]
  }

  lemma {:induction false} ReverseTwice(s: seq<nat>)
    ensures Reverse(Reverse(s)) == s
  {
    forall i | 0 <= i < |s| ensures Reverse(Reverse(s))[i] == s[i] {
    }
  }

  lemma {:induction false} BigEndianConcat(a: seq<nat>, b: seq<nat>, base: nat)
    ensures BigEndian(a + b, base) == BigEndian(a, base) * Pow(base, |b|) + BigEndian(b, base)
  {
    if b == [] {
      assert a + b == a;
    } else {
      var b' := b[..|b| - 1];
      BigEndianConcat(a, b', base);
      assert (a + b)[..|a + b| - 1] == a + b';
      MulAdd(BigEndian(a, base) * Pow(base, |b'|), BigEndian(b', base), base);
      MulAssoc(BigEndian(a, base), Pow(base, |b'|), base);
    }
  }

  lemma {:induction false} BigEndianBound(s: seq<nat>, base: nat)
    requires AreDigits(s, base)
    ensures BigEndian(s, base) < Pow(base, |s|)
  {
    if s != [] {
      var s' := s[..|s| - 1];
      BigEndianBound(s', base);
      MulAdd(BigEndian(s', base), 1, base);
      MulLe(BigEndian(s', base) + 1, Pow(base, |s'|), base);
    }
  }

  lemma {:induction false} ReversedIsLittleEndian(s: seq<nat>, base: nat)
    ensures BigEndian(Reverse(s), base) == LittleEndian(s, base)
  {
    if s != [] {
      ReversedIsLittleEndian(s[1..], base);
      assert Reverse(s)[..|s| - 1] == Reverse(s[1..]);
    }
  }

  /** Digits lose nothing below their bound. */
  lemma {:induction false} DigitsRoundTrip(x: nat, n: nat)
    requires x < Pow(256, n)
    ensures LittleEndian(Digits(x, n), 256) == x
  {
    if n > 0 {
      assert x / 256 < Pow(256, n - 1);
      DigitsRoundTrip(x / 256, n - 1);
    }
  }

  /** A sequence of bytes is the digits of its little-endian value. */
  lemma {:induction false} DigitsOfLittleEndian(s: seq<nat>)
    requires AreDigits(s, 256)
    ensures Digits(LittleEndian(s, 256), |s|) == s
  {
    if s != [] {
      DigitsOfLittleEndian(s[1..]);
    }
  }

  lemma DigitsInjective(x: nat, y: nat, n: nat)
    requires x < Pow(256, n) && y < Pow(256, n) && Digits(x, n) == Digits(y, n)
    ensures x == y
  {
    DigitsRoundTrip(x, n);
    DigitsRoundTrip(y, n);
  }

  /** Digit `i` is what `shr x 8i` followed by `rem 256` yields. */
  lemma {:induction false} DigitAt(x: nat, n: nat, i: nat)
    requires i < n
    ensures Pow(256, i) > 0 && Digits(x, n)[i] == x / Pow(256, i) % 256
  {
    PowPositive(256, i);
    if i > 0 {
      DigitAt(x / 256, n - 1, i - 1);
      DivDiv(x, 256, Pow(256, i - 1));
    }
  }

  lemma MulLe(a: nat, b: nat, c: nat)
    requires a <= b
    ensures a * c <= b * c
  {
  }

  lemma MulAssoc(a: int, b: int, c: int)
    ensures a * b * c == a * (b * c)
  {
  }

  lemma MulAdd(a: int, b: int, c: int)
    ensures (a + b) * c == a * c + b * c
  {
  }

  lemma SmallMultiple(k: int, d: int)
    requires -d < k * d < d
    ensures k == 0
  {
  }

  lemma DivUnique(x: nat, d: nat, q: nat, r: nat)
    requires d > 0 && r < d && x == q * d + r
    ensures x / d == q && x % d == r
  {
    var k := x / d - q;
    assert x == (x / d) * d + x % d;
    MulAdd(k, q, d);
    SmallMultiple(k, d);
  }

  lemma DivDiv(x: nat, a: nat, b: nat)
    requires a > 0 && b > 0
    ensures a * b > 0 && x / a / b == x / (a * b)
  {
    var q, r := x / a, x % a;
    var p, t := q / b, q % b;
    assert a * b > 0;
    assert x == q * a + r && q == p * b + t;
    MulAdd(p * b, t, a);
    MulAssoc(p, b, a);
    assert b * a == a * b;
    MulLe(t, b - 1, a);
    MulAdd(b, -1, a);
    DivUnique(x, a * b, p, t * a + r);
  }
}
