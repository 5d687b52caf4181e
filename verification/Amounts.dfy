/**
The amount arithmetic of the warp routers. A wire amount is a 256-bit big-endian number in two
`u128` words that are serialized least significant byte first, so the programs swap bytes,
multiply limb by limb on the way out and divide limb by limb on the way in. All checked
operations are kept as such; that none of them fails is part of what is proved.
 */
module Amounts {
  import opened Prelude
  import opened Bytes

  /** `shl x k`, kept only if no bit is lost. */
  function Shl(x: nat, factor: nat, bound: nat): Option<nat> {
    Mul(x, factor, bound)
  }

  // ---------------------------------------------------------------------------
  // Packing bytes
  // ---------------------------------------------------------------------------

  /** The unrolled chains of `shl` and `add` that put byte `i` at shift `8(n-1-i)`. */
  function PackFrom(bytes: seq<nat>, i: nat, acc: nat, bound: nat): Option<nat>
    requires i <= |bytes|
    decreases |bytes| - i
  {
    if i == |bytes| then Some(acc)
    else
      var shifted :- Shl(bytes[i], Pow(256, |bytes| - 1 - i), bound);
      var acc' :- Add(acc, shifted, bound);
      PackFrom(bytes, i + 1, acc', bound)
  }

  lemma {:induction false} PackFromIsBigEndian(bytes: seq<nat>, i: nat, acc: nat)
    requires i <= |bytes| && AreDigits(bytes, 256)
    requires acc == BigEndian(bytes[..i], 256) * Pow(256, |bytes| - i)
    ensures PackFrom(bytes, i, acc, Pow(256, |bytes|)) == Some(BigEndian(bytes, 256))
    decreases |bytes| - i
  {
    if i == |bytes| {
      assert bytes[..i] == bytes;
      assert Pow(256, 0) == 1;
    } else {
      hide Pow, BigEndian, PackFrom;
      var shifted := PackStep(bytes, i, acc);
      PackFromIsBigEndian(bytes, i + 1, acc + shifted);
      PackHead(bytes, i, acc, shifted, Pow(256, |bytes|));
    }
  }

  lemma PackHead(bytes: seq<nat>, i: nat, acc: nat, shifted: nat, bound: nat)
    requires i < |bytes| && shifted == bytes[i] * Pow(256, |bytes| - 1 - i) && acc + shifted < bound
    ensures PackFrom(bytes, i, acc, bound) == PackFrom(bytes, i + 1, acc + shifted, bound)
  {
  }

  /** One byte further, the accumulator holds one byte more and stays in range. */
  lemma PackStep(bytes: seq<nat>, i: nat, acc: nat) returns (shifted: nat)
    requires i < |bytes| && AreDigits(bytes, 256)
    requires acc == BigEndian(bytes[..i], 256) * Pow(256, |bytes| - i)
    ensures shifted == bytes[i] * Pow(256, |bytes| - 1 - i) && acc + shifted < Pow(256, |bytes|)
    ensures acc + shifted == BigEndian(bytes[..i + 1], 256) * Pow(256, |bytes| - 1 - i)
  {
    var n, p, next := |bytes|, Pow(256, |bytes| - 1 - i), bytes[..i + 1];
    assert next[..i] == bytes[..i];
    assert BigEndian(next, 256) == BigEndian(bytes[..i], 256) * 256 + bytes[i];
    assert Pow(256, n - i) == 256 * p;
    hide Pow, BigEndian;
    MulNat(bytes[i], p);
    shifted := bytes[i] * p;
    MulAdd(BigEndian(bytes[..i], 256) * 256, bytes[i], p);
    MulAssoc(BigEndian(bytes[..i], 256), 256, p);
    BigEndianBound(next, 256);
    PowAdd(256, i + 1, n - 1 - i);
    PowPositive(256, n - 1 - i);
    MulAdd(BigEndian(next, 256), 1, p);
    MulLe(BigEndian(next, 256) + 1, Pow(256, i + 1), p);
  }

  function Pack(bytes: seq<nat>, bound: nat): Option<nat> {
    PackFrom(bytes, 0, 0, bound)
  }

  /** Packing at the matching width never overflows and reads the bytes big-endian. */
  lemma PackIsBigEndian(bytes: seq<nat>, bound: nat)
    requires AreDigits(bytes, 256) && bound == Pow(256, |bytes|)
    ensures Pack(bytes, bound) == Some(BigEndian(bytes, 256))
    ensures BigEndian(bytes, 256) < bound
  {
    assert bytes[..0] == [];
    PackFromIsBigEndian(bytes, 0, 0);
    BigEndianBound(bytes, 256);
  }

  lemma Widths()
    ensures Pow(256, 8) == U64 && Pow(256, 16) == U128 && U64 * U64 == U128
  {
    PowAdd(256, 8, 8);
  }

  /** `shr x 8i` followed by `rem 256`, for each `i` below `n`. */
  function ShiftedBytes(x: nat, n: nat): seq<nat> {
    seq(n, i requires 0 <= i < n => PowPositive(256, i); x / Pow(256, i) % 256)
  }

  lemma ShiftedAreDigits(x: nat, n: nat)
    ensures ShiftedBytes(x, n) == Digits(x, n)
  {
    hide Digits, Pow;
    forall i | 0 <= i < n ensures ShiftedBytes(x, n)[i] == Digits(x, n)[i] {
      DigitAt(x, n, i);
    }
  }

  /** The byte swap of a `u128` word: the serialized bytes, read in the other order. */
  function Swap(x: nat): (r: Option<nat>)
    ensures r == Pack(Digits(x, 16), U128)
  {
    ShiftedAreDigits(x, 16);
    Pack(ShiftedBytes(x, 16), U128)
  }

  /** Swapping never fails, and the serialized result is the big-endian form of `x`. */
  lemma SwapSerializesBigEndian(x: nat)
    requires x < U128
    ensures Swap(x).Some? && Swap(x).value < U128
    ensures Digits(Swap(x).value, 16) == Reverse(Digits(x, 16))
    ensures BigEndian(Digits(Swap(x).value, 16), 256) == x
  {
    Widths();
    var d := Digits(x, 16);
    PackIsBigEndian(d, U128);
    ReverseTwice(d);
    ReversedIsLittleEndian(Reverse(d), 256);
    DigitsOfLittleEndian(Reverse(d));
    ReversedIsLittleEndian(d, 256);
    DigitsRoundTrip(x, 16);
  }

  /** Swapping twice is the identity. */
  lemma SwapInvolution(x: nat)
    requires x < U128
    ensures Swap(x).Some? && Swap(Swap(x).value) == Some(x)
  {
    SwapSerializesBigEndian(x);
    Widths();
    PackIsBigEndian(Digits(Swap(x).value, 16), U128);
  }

  // ---------------------------------------------------------------------------
  // Four-limb arithmetic
  // ---------------------------------------------------------------------------

  /** Schoolbook multiplication, least significant limb first; returns the limbs and the carry. */
  function MulLimbs(limbs: seq<nat>, m: nat, carry: nat): (r: Option<(seq<nat>, nat)>)
    ensures r.Some? ==> |r.value.0| == |limbs|
  {
    if limbs == [] then Some(([], carry))
    else
      var product :- Mul(limbs[0], m, U128);
      var sum :- Add(product, carry, U128);
      var (rest, out) :- MulLimbs(limbs[1..], m, sum / U64);
      Some(([sum % U64] + rest, out))
  }

  lemma LimbProduct(a: nat, m: nat, carry: nat)
    requires a < U64 && m < U64 && carry < U64
    ensures 0 <= a * m <= a * m + carry < U128 && (a * m + carry) / U64 < U64
  {
    MulLe(a, U64 - 1, m);
    MulLe(m, U64 - 1, U64 - 1);
    MulNat(a, m);
    SumFits(a * m, carry);
  }

  lemma MulNat(a: nat, b: nat)
    ensures a * b >= 0
  {
    MulLe(0, a, b);
  }

  lemma SumFits(product: nat, carry: nat)
    requires product <= (U64 - 1) * (U64 - 1) && carry < U64
    ensures product + carry < U128 && (product + carry) / U64 < U64
  {
  }

  /** No intermediate overflow, and the limbs with the carry are the exact product. */
  lemma {:induction false} MulLimbsExact(limbs: seq<nat>, m: nat, carry: nat)
    requires AreDigits(limbs, U64) && m < U64 && carry < U64
    ensures MulLimbs(limbs, m, carry).Some?
    ensures var (out, c) := MulLimbs(limbs, m, carry).value;
            && |out| == |limbs| && AreDigits(out, U64) && c < U64
            && LittleEndian(out, U64) + c * Pow(U64, |limbs|) == LittleEndian(limbs, U64) * m + carry
  {
    if limbs != [] {
      hide MulLimbs;
      var a, rest := limbs[0], limbs[1..];
      LimbProduct(a, m, carry);
      var sum: nat := a * m + carry;
      MulLimbsExact(rest, m, sum / U64);
      var (out, c) := MulLimbs(rest, m, sum / U64).value;
      MulHead(limbs, m, carry, sum, out, c);
      var whole := [sum % U64] + out;
      assert whole[1..] == out;
      MulStep(a, m, carry, LittleEndian(rest, U64), LittleEndian(out, U64), c, Pow(U64, |rest|), U64);
    }
  }

  lemma MulHead(limbs: seq<nat>, m: nat, carry: nat, sum: nat, out: seq<nat>, c: nat)
    requires limbs != [] && sum == limbs[0] * m + carry && 0 <= limbs[0] * m <= sum < U128
    requires MulLimbs(limbs[1..], m, sum / U64) == Some((out, c))
    ensures MulLimbs(limbs, m, carry) == Some(([sum % U64] + out, c))
  {
  }

  lemma MulStep(a: nat, m: nat, carry: nat, rest: nat, out: nat, c: nat, p: nat, base: nat)
    requires base > 0 && out + c * p == rest * m + (a * m + carry) / base
    ensures var sum := a * m + carry;
            sum % base + base * out + c * (base * p) == (a + base * rest) * m + carry
  {
    var sum := a * m + carry;
    DivParts(sum, base);
    assert c * (base * p) == base * (c * p);
    assert base * (out + c * p) == base * out + base * (c * p);
    assert base * (rest * m + sum / base) == base * (rest * m) + (sum / base) * base;
    MulAdd(a, base * rest, m);
    MulAssoc(base, rest, m);
  }

  /** Long division, most significant limb first; returns the quotient limbs and the remainder. */
  function DivLimbs(limbs: seq<nat>, d: nat, rem: nat): (r: Option<(seq<nat>, nat)>)
    requires d > 0
    ensures r.Some? ==> |r.value.0| == |limbs|
  {
    if limbs == [] then Some(([], rem))
    else
      var high :- Shl(rem, U64, U128);
      var current :- Add(high, limbs[0], U128);  // `or` with a limb below 2^64
      var _ :- Check(current / d < U64);         // `cast` to u64
      var (rest, out) :- DivLimbs(limbs[1..], d, current % d);
      Some(([current / d] + rest, out))
  }

  /** No overflow on the way, and the limbs are the exact quotient and remainder. */
  lemma {:induction false} DivLimbsExact(limbs: seq<nat>, d: nat, rem: nat)
    requires AreDigits(limbs, U64) && rem < d < U64
    ensures DivLimbs(limbs, d, rem).Some?
    ensures var (q, r) := DivLimbs(limbs, d, rem).value;
            && |q| == |limbs| && AreDigits(q, U64) && r < d
            && rem * Pow(U64, |limbs|) + BigEndian(limbs, U64) == BigEndian(q, U64) * d + r
  {
    if limbs != [] {
      hide DivLimbs;
      var a, rest := limbs[0], limbs[1..];
      var current: nat := rem * U64 + a;
      MulLe(rem, d - 1, U64);
      QuotientLimb(current, d);
      var digit: nat := current / d;
      DivLimbsExact(rest, d, current % d);
      var (q, r) := DivLimbs(rest, d, current % d).value;
      DivHead(limbs, d, rem, current, q, r);
      assert limbs == [a] + rest;
      BigEndianConcat([a], rest, U64);
      BigEndianConcat([digit], q, U64);
      BigEndianSingle(a, U64);
      BigEndianSingle(digit, U64);
      DivStep(rem, a, d, BigEndian(rest, U64), BigEndian(q, U64), r, Pow(U64, |rest|), U64);
    }
  }

  lemma DivHead(limbs: seq<nat>, d: nat, rem: nat, current: nat, q: seq<nat>, r: nat)
    requires limbs != [] && d > 0 && current == rem * U64 + limbs[0] < U128 && 0 <= current / d < U64
    requires DivLimbs(limbs[1..], d, current % d) == Some((q, r))
    ensures DivLimbs(limbs, d, rem) == Some(([current / d] + q, r))
  {
  }

  lemma DivStep(rem: nat, a: nat, d: nat, rest: nat, q: nat, r: nat, p: nat, base: nat)
    requires d > 0 && ((rem * base + a) % d) * p + rest == q * d + r
    ensures var current := rem * base + a;
            rem * (base * p) + (a * p + rest) == ((current / d) * p + q) * d + r
  {
    var current := rem * base + a;
    MulAssoc(rem, base, p);
    MulAdd(rem * base, a, p);
    DivParts(current, d);
    MulAdd((current / d) * d, current % d, p);
    assert (current / d) * d * p == (current / d) * p * d;
    MulAdd((current / d) * p, q, d);
  }

  lemma BigEndianSingle(a: nat, base: nat)
    ensures BigEndian([a], base) == a
  {
    assert [a][..0] == [];
  }

  lemma DivParts(x: nat, d: nat)
    requires d > 0
    ensures x == (x / d) * d + x % d
  {
  }

  lemma QuotientLimb(x: nat, d: nat)
    requires d > 0 && x < d * U64
    ensures 0 <= x / d < U64
  {
    DivParts(x, d);
    if x / d >= U64 {
      MulLe(U64, x / d, d);
    }
  }
}
