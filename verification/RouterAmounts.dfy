/**
`transfer_remote` and `process` of the warp routers: the words that go into a message body and
the amount that is read back from them. `Wire` is the meaning of the two amount words.
 */
module RouterAmounts {
  import opened Prelude
  import opened Bytes
  import opened Amounts

  const MAX_DECIMALS_GAP: nat := 18
  const MAX_NATIVE_SCALE: nat := 19

  /** The 256-bit number that the body words `w0`, `w1` spell on the wire. */
  function Wire(w0: nat, w1: nat): nat {
    BigEndian(Digits(w0, 16) + Digits(w1, 16), 256)
  }

  function Max(a: nat, b: nat): nat { if a < b then b else a }
  function Min(a: nat, b: nat): nat { if a < b then a else b }

  /** `pow 10 n`, checked at its width. */
  function Pow10(n: nat, bound: nat): (r: Option<nat>)
    ensures r.Some? ==> r.value > 0
  {
    PowPositive(10, n);
    if Pow(10, n) < bound then Some(Pow(10, n)) else None
  }

  lemma Pow10Fits(n: nat)
    requires n <= 19
    ensures 0 < Pow(10, n) < U64 < U128
  {
    PowPositive(10, n);
    PowMonotone(10, n, 19);
    assert Pow(10, 5) == 100_000 && Pow(10, 4) == 10_000;
    PowAdd(10, 5, 5);
    PowAdd(10, 5, 4);
    PowAdd(10, 10, 9);
  }

  // ---------------------------------------------------------------------------
  // Words and limbs
  // ---------------------------------------------------------------------------

  lemma WireParts(w0: nat, w1: nat)
    ensures Wire(w0, w1) == BigEndian(Digits(w0, 16), 256) * U128 + BigEndian(Digits(w1, 16), 256)
    ensures BigEndian(Digits(w0, 16), 256) < U128 && BigEndian(Digits(w1, 16), 256) < U128
  {
    Widths();
    BigEndianConcat(Digits(w0, 16), Digits(w1, 16), 256);
    BigEndianBound(Digits(w0, 16), 256);
    BigEndianBound(Digits(w1, 16), 256);
  }

  /** Swapped words spell the number they were swapped from. */
  lemma SwappedWords(hi: nat, lo: nat)
    requires hi < U128 && lo < U128
    ensures Swap(hi).Some? && Swap(lo).Some? && Wire(Swap(hi).value, Swap(lo).value) == hi * U128 + lo
    ensures Swap(hi).value < U128 && Swap(lo).value < U128
  {
    SwapSerializesBigEndian(hi);
    SwapSerializesBigEndian(lo);
    WireParts(Swap(hi).value, Swap(lo).value);
  }

  lemma {:induction false} BigEndianOfZero(n: nat)
    ensures BigEndian(Digits(0, n), 256) == 0
  {
    if n > 0 {
      BigEndianOfZero(n - 1);
      BigEndianConcat([0], Digits(0, n - 1), 256);
      BigEndianSingle(0, 256);
    }
  }

  lemma SwapZero()
    ensures Swap(0) == Some(0)
  {
    Widths();
    PackIsBigEndian(Digits(0, 16), U128);
    BigEndianOfZero(16);
  }

  /** Only the zero word spells zero. */
  lemma ZeroWord(w: nat)
    requires w < U128
    ensures BigEndian(Digits(w, 16), 256) == 0 <==> w == 0
  {
    Widths();
    PackIsBigEndian(Digits(w, 16), U128);
    SwapInvolution(w);
    SwapZero();
  }

  /** The four big-endian `u64` limbs of the two words. */
  function ReadLimbs(w0: nat, w1: nat): (r: Option<seq<nat>>)
    ensures r.Some? ==> |r.value| == 4
  {
    var bytes := Digits(w0, 16) + Digits(w1, 16);
    var a :- Pack(bytes[0..8], U64);
    var b :- Pack(bytes[8..16], U64);
    var c :- Pack(bytes[16..24], U64);
    var d :- Pack(bytes[24..32], U64);
    Some([a, b, c, d])
  }

  lemma TwoLimbs(a: nat, b: nat)
    ensures BigEndian([a, b], U64) == a * U64 + b
  {
    assert [a, b] == [a] + [b];
    BigEndianConcat([a], [b], U64);
    BigEndianSingle(a, U64);
    BigEndianSingle(b, U64);
    assert Pow(U64, 1) == U64 * Pow(U64, 0);
  }

  lemma FourLimbs(q: seq<nat>)
    requires |q| == 4 && AreDigits(q, U64)
    ensures BigEndian(q, U64) == (q[0] * U64 + q[1]) * U128 + (q[2] * U64 + q[3])
    ensures q[2] * U64 + q[3] < U128
  {
    Widths();
    assert q == [q[0], q[1]] + [q[2], q[3]];
    BigEndianConcat([q[0], q[1]], [q[2], q[3]], U64);
    TwoLimbs(q[0], q[1]);
    TwoLimbs(q[2], q[3]);
    assert Pow(U64, 2) == U64 * Pow(U64, 1) == U64 * (U64 * Pow(U64, 0));
  }

  lemma ReadLimbsExact(w0: nat, w1: nat)
    ensures ReadLimbs(w0, w1).Some?
    ensures var limbs := ReadLimbs(w0, w1).value;
            |limbs| == 4 && AreDigits(limbs, U64) && BigEndian(limbs, U64) == Wire(w0, w1)
  {
    hide Pack, Digits, BigEndian, Pow;
    Widths();
    var bytes := Digits(w0, 16) + Digits(w1, 16);
    assert AreDigits(bytes, 256);
    var x0, x1, x2, x3 := bytes[0..8], bytes[8..16], bytes[16..24], bytes[24..32];
    PackIsBigEndian(x0, U64);
    PackIsBigEndian(x1, U64);
    PackIsBigEndian(x2, U64);
    PackIsBigEndian(x3, U64);
    BigEndianConcat(x0, x1, 256);
    BigEndianConcat(x2, x3, 256);
    BigEndianConcat(x0 + x1, x2 + x3, 256);
    assert bytes == (x0 + x1) + (x2 + x3);
    FourLimbs(ReadLimbs(w0, w1).value);
  }

  // ---------------------------------------------------------------------------
  // hyp_synthetic and hyp_collateral
  // ---------------------------------------------------------------------------

  /** The amount word for a remote chain with `gap` fewer decimals. */
  function ScaledDown(x: nat, gap: nat): Option<nat> {
    var d :- Pow10(gap, U128);
    Swap(x / d)
  }

  /** The amount words for a remote chain with `gap` more decimals, and the carry out of the top limb. */
  function ScaledUp(x: nat, gap: nat): Option<(nat, nat, nat)> {
    var m :- Pow10(gap, U64);
    var (limbs, carry) :- MulLimbs([x % U64, x / U64, 0, 0], m, 0);
    var hi :- Add(limbs[3] * U64, limbs[2], U128);
    var lo :- Add(limbs[1] * U64, limbs[0], U128);
    var w0 :- Swap(hi);
    var w1 :- Swap(lo);
    Some((w0, w1, carry))
  }

  /** The amount words `transfer_remote` puts into the body. Every path is computed, one is selected. */
  function Outbound(local: nat, remote: nat, x: nat): Option<(nat, nat)> {
    var equal :- Swap(x);
    var less :- ScaledDown(x, Max(local, remote) - remote);
    var (more0, more1, carry) :- ScaledUp(x, remote - Min(local, remote));
    var _ :- Check(carry == 0 || remote < local || local == remote);
    Some(if local == remote then (0, equal) else if remote < local then (0, less) else (more0, more1))
  }

  /** What leaves the local chain, in wire units. */
  function ToWire(local: nat, remote: nat, x: nat): nat {
    if local <= remote then x * Pow(10, remote - local)
    else
      PowPositive(10, local - remote);
      x / Pow(10, local - remote)
  }

  /** What a wire amount is worth locally. */
  function FromWire(local: nat, remote: nat, w: nat): nat {
    if local <= remote then
      PowPositive(10, remote - local);
      w / Pow(10, remote - local)
    else w * Pow(10, local - remote)
  }

  ghost predicate DecimalsOk(local: nat, remote: nat) {
    local <= remote + MAX_DECIMALS_GAP && remote <= local + MAX_DECIMALS_GAP
  }

  lemma LittleEndianFour(q: seq<nat>)
    requires |q| == 4
    ensures LittleEndian(q, U64) == (q[3] * U64 + q[2]) * U128 + (q[1] * U64 + q[0])
  {
    Widths();
    assert q[1..][1..] == q[2..] && q[2..][1..] == q[3..] && q[3..][1..] == [];
    assert LittleEndian(q[3..], U64) == q[3];
    assert LittleEndian(q[2..], U64) == q[2] + U64 * q[3];
    assert LittleEndian(q[1..], U64) == q[1] + U64 * (q[2] + U64 * q[3]);
  }

  /** The four-limb product, as two `u128` words, is the integer product; the carry is zero. */
  lemma ProductWords(x: nat, m: nat)
    requires x < U128 && m < U64
    ensures MulLimbs([x % U64, x / U64, 0, 0], m, 0).Some?
    ensures var (limbs, carry) := MulLimbs([x % U64, x / U64, 0, 0], m, 0).value;
            && |limbs| == 4 && carry == 0 && AreDigits(limbs, U64)
            && (limbs[3] * U64 + limbs[2]) * U128 + (limbs[1] * U64 + limbs[0]) == x * m
            && limbs[3] * U64 + limbs[2] < U128 && limbs[1] * U64 + limbs[0] < U128
  {
    Widths();
    QuotientLimb(x, U64);
    var input: seq<nat> := [x % U64, x / U64, 0, 0];
    DivParts(x, U64);
    LittleEndianFour(input);
    MulLimbsExact(input, m, 0);
    var (limbs, carry) := MulLimbs(input, m, 0).value;
    LittleEndianFour(limbs);
    assert x * m < U128 * U64 by {
      MulLe(x, U128 - 1, m);
    }
    CarryIsZero(LittleEndian(limbs, U64), carry, Pow(U64, 4), x * m);
  }

  lemma CarryIsZero(low: nat, carry: nat, p: nat, product: nat)
    requires low + carry * p == product < U128 * U64 && p == Pow(U64, 4)
    ensures carry == 0
  {
    PowAdd(U64, 2, 2);
    assert Pow(U64, 2) == U64 * (U64 * Pow(U64, 0)) == U128;
    assert p == U128 * U128 >= U128 * U64;
    if carry >= 1 {
      MulLe(1, carry, p);
    }
  }

  lemma DivShrinks(x: nat, d: nat)
    requires d > 0
    ensures 0 <= x / d <= x
  {
    DivParts(x, d);
    MulLe(1, d, x / d);
  }

  lemma ScaledDownExact(x: nat, gap: nat)
    requires x < U128 && gap <= MAX_DECIMALS_GAP
    ensures Pow(10, gap) > 0
    ensures ScaledDown(x, gap).Some? && ScaledDown(x, gap).value < U128
            && Wire(0, ScaledDown(x, gap).value) == x / Pow(10, gap)
  {
    Pow10Fits(gap);
    DivShrinks(x, Pow(10, gap));
    SwapZero();
    SwappedWords(0, x / Pow(10, gap));
  }

  lemma ScaledUpExact(x: nat, gap: nat)
    requires x < U128 && gap <= MAX_DECIMALS_GAP
    ensures ScaledUp(x, gap).Some?
    ensures var (w0, w1, carry) := ScaledUp(x, gap).value;
            carry == 0 && w0 < U128 && w1 < U128 && Wire(w0, w1) == x * Pow(10, gap)
  {
    hide MulLimbs, Swap, Wire, Pow;
    Pow10Fits(gap);
    ProductWords(x, Pow(10, gap));
    var (limbs, _) := MulLimbs([x % U64, x / U64, 0, 0], Pow(10, gap), 0).value;
    var hi: nat, lo: nat := limbs[3] * U64 + limbs[2], limbs[1] * U64 + limbs[0];
    SwappedWords(hi, lo);
  }

  /**
  `transfer_remote` never fails on its arithmetic, and the words it sends spell exactly the
  scaled amount: multiplied, or divided with the rest dropped.
   */
  lemma OutboundExact(local: nat, remote: nat, x: nat)
    requires DecimalsOk(local, remote) && x < U128
    ensures Outbound(local, remote, x).Some?
    ensures var (w0, w1) := Outbound(local, remote, x).value;
            w0 < U128 && w1 < U128 && Wire(w0, w1) == ToWire(local, remote, x)
  {
    hide Wire, Swap, ScaledDown, ScaledUp, Pow;
    SwapZero();
    SwappedWords(0, x);
    ScaledDownExact(x, Max(local, remote) - remote);
    ScaledUpExact(x, remote - Min(local, remote));
    SelectWords(local, remote, x, Swap(x).value, ScaledDown(x, Max(local, remote) - remote).value,
                ScaledUp(x, remote - Min(local, remote)).value);
  }

  /** The selected words spell the selected amount. */
  lemma SelectWords(local: nat, remote: nat, x: nat, equal: nat, less: nat, more: (nat, nat, nat))
    requires Wire(0, equal) == x
    requires remote < local ==> Pow(10, local - remote) > 0 && Wire(0, less) == x / Pow(10, local - remote)
    requires local < remote ==> Wire(more.0, more.1) == x * Pow(10, remote - local)
    ensures var (w0, w1) := if local == remote then (0, equal) else if remote < local then (0, less)
            else (more.0, more.1);
            Wire(w0, w1) == ToWire(local, remote, x)
  {
    if local == remote {
      assert Pow(10, 0) == 1;
    }
  }

  /** The amount for a remote chain with `gap` fewer decimals. */
  function ReadUp(word: nat, gap: nat): Option<nat> {
    var m :- Pow10(gap, U64);
    Mul(word, m, U128)
  }

  /** The amount for a remote chain with `gap` more decimals. */
  function ReadDown(w0: nat, w1: nat, gap: nat): Option<nat> {
    var d :- Pow10(gap, U64);
    var limbs :- ReadLimbs(w0, w1);
    var (q, _) :- DivLimbs(limbs, d, 0);
    var _ :- Check(q[0] == 0 && q[1] == 0);
    Add(q[2] * U64, q[3], U128)
  }

  /** The amount `process` reads from the body. */
  function Inbound(local: nat, remote: nat, w0: nat, w1: nat): Option<nat> {
    var word :- Swap(w1);
    var _ :- Check(w0 == 0 || !(remote < local) || local == remote);
    var more :- ReadUp(word, Max(local, remote) - remote);
    var less :- ReadDown(w0, w1, remote - Min(local, remote));
    Some(if local == remote then word else if remote < local then more else less)
  }

  /** The four-limb quotient is the integer quotient; its upper limbs vanish iff it is a `u128`. */
  lemma QuotientWords(w0: nat, w1: nat, d: nat)
    requires 0 < d < U64
    ensures ReadLimbs(w0, w1).Some? && DivLimbs(ReadLimbs(w0, w1).value, d, 0).Some?
    ensures var (q, _) := DivLimbs(ReadLimbs(w0, w1).value, d, 0).value;
            && |q| == 4
            && (q[0] == 0 && q[1] == 0 <==> Wire(w0, w1) / d < U128)
            && q[2] * U64 + q[3] < U128
            && (q[0] == 0 && q[1] == 0 ==> q[2] * U64 + q[3] == Wire(w0, w1) / d)
  {
    ReadLimbsExact(w0, w1);
    var limbs := ReadLimbs(w0, w1).value;
    DivLimbsExact(limbs, d, 0);
    var (q, r) := DivLimbs(limbs, d, 0).value;
    FourLimbs(q);
    DivUnique(Wire(w0, w1), d, BigEndian(q, U64), r);
  }

  lemma ReadDownExact(w0: nat, w1: nat, gap: nat)
    requires gap <= MAX_DECIMALS_GAP
    ensures Pow(10, gap) > 0
    ensures var amount := Wire(w0, w1) / Pow(10, gap);
            ReadDown(w0, w1, gap) == if amount < U128 then Some(amount) else None
  {
    Pow10Fits(gap);
    QuotientWords(w0, w1, Pow(10, gap));
  }

  lemma ReadUpExact(word: nat, gap: nat)
    requires gap <= MAX_DECIMALS_GAP
    ensures ReadUp(word, gap) == if word * Pow(10, gap) < U128 then Some(word * Pow(10, gap)) else None
  {
    Pow10Fits(gap);
  }

  lemma PowZero(base: nat)
    ensures Pow(base, 0) == 1
  {
  }

  /** `process` succeeds on its arithmetic iff the local amount is a `u128`, and returns it. */
  lemma InboundExact(local: nat, remote: nat, w0: nat, w1: nat)
    requires DecimalsOk(local, remote) && w0 < U128 && w1 < U128
    ensures var amount := FromWire(local, remote, Wire(w0, w1));
            Inbound(local, remote, w0, w1) == if amount < U128 then Some(amount) else None
  {
    hide Wire, Digits, BigEndian, Pack, Swap, ReadDown, ReadUp, Pow;
    var w, word := Wire(w0, w1), BigEndian(Digits(w1, 16), 256);
    WireParts(w0, w1);
    ZeroWord(w0);
    Widths();
    PackIsBigEndian(Digits(w1, 16), U128);
    assert Swap(w1) == Some(word);
    ReadDownExact(w0, w1, remote - Min(local, remote));
    ReadUpExact(word, Max(local, remote) - remote);
    PowZero(10);
    if remote < local {
      PowPositive(10, local - remote);
      MulLe(1, Pow(10, local - remote), w);
    }
  }

  /** Rounding on the way out drops what the remote chain cannot represent, and only that. */
  lemma ScaleRoundTrip(local: nat, remote: nat, x: nat)
    ensures 0 < Pow(10, if local <= remote then 0 else local - remote)
    ensures FromWire(local, remote, ToWire(local, remote, x))
         == x - x % Pow(10, if local <= remote then 0 else local - remote)
  {
    if local <= remote {
      var p := Pow(10, remote - local);
      PowPositive(10, remote - local);
      DivUnique(x * p, p, x, 0);
    } else {
      PowPositive(10, local - remote);
      DivParts(x, Pow(10, local - remote));
    }
  }

  /**
  The amount round trip: what `process` reads from the words `transfer_remote` built for `x` is
  `x` less `x mod 10^max(0, local - remote)`. Both directions always succeed, and no value is
  ever created.
   */
  lemma AmountRoundTrip(local: nat, remote: nat, x: nat)
    requires DecimalsOk(local, remote) && x < U128
    ensures Outbound(local, remote, x).Some? && 0 < Pow(10, if local <= remote then 0 else local - remote)
    ensures var (w0, w1) := Outbound(local, remote, x).value;
            Inbound(local, remote, w0, w1) == Some(x - x % Pow(10, if local <= remote then 0 else local - remote))
  {
    hide Outbound, Inbound, Wire, ToWire, FromWire, Pow;
    OutboundExact(local, remote, x);
    var (w0, w1) := Outbound(local, remote, x).value;
    InboundExact(local, remote, w0, w1);
    ScaleRoundTrip(local, remote, x);
  }

  // ---------------------------------------------------------------------------
  // hyp_native
  // ---------------------------------------------------------------------------

  function NativeOutbound(scale: nat, x: nat): Option<(nat, nat)> {
    var factor :- Pow10(scale, U64);
    var amount :- Mul(x, factor, U128);
    var word :- Swap(amount);
    Some((0, word))
  }

  function NativeInbound(scale: nat, w0: nat, w1: nat): Option<nat> {
    var d :- Pow10(scale, U64);
    var limbs :- ReadLimbs(w0, w1);
    var (q, _) :- DivLimbs(limbs, d, 0);
    var _ :- Check(q[0] == 0 && q[1] == 0 && q[2] == 0);
    Some(q[3])
  }

  lemma NativeOutboundExact(scale: nat, x: nat)
    requires scale <= MAX_NATIVE_SCALE && x < U64
    ensures NativeOutbound(scale, x).Some?
    ensures var (w0, w1) := NativeOutbound(scale, x).value;
            w0 < U128 && w1 < U128 && Wire(w0, w1) == x * Pow(10, scale)
  {
    Pow10Fits(scale);
    LimbProduct(x, Pow(10, scale), 0);
    var amount: nat := x * Pow(10, scale);
    SwapZero();
    SwappedWords(0, amount);
  }

  /** `process` of `hyp_native` pays the floor of the wire amount over the scale, if that is a `u64`. */
  lemma NativeInboundExact(scale: nat, w0: nat, w1: nat)
    requires scale <= MAX_NATIVE_SCALE
    ensures Pow(10, scale) > 0
    ensures var amount := Wire(w0, w1) / Pow(10, scale);
            NativeInbound(scale, w0, w1) == if amount < U64 then Some(amount) else None
  {
    hide Wire, ReadLimbs, DivLimbs, Pow, BigEndian;
    var d := Pow(10, scale);
    Pow10Fits(scale);
    ReadLimbsExact(w0, w1);
    var limbs := ReadLimbs(w0, w1).value;
    DivLimbsExact(limbs, d, 0);
    var (q, r) := DivLimbs(limbs, d, 0).value;
    FourLimbs(q);
    DivUnique(Wire(w0, w1), d, BigEndian(q, U64), r);
  }

  /** For `hyp_native` the round trip is exact for every `u64`. */
  lemma NativeRoundTrip(scale: nat, x: nat)
    requires scale <= MAX_NATIVE_SCALE && x < U64
    ensures NativeOutbound(scale, x).Some?
    ensures var (w0, w1) := NativeOutbound(scale, x).value; NativeInbound(scale, w0, w1) == Some(x)
  {
    NativeOutboundExact(scale, x);
    var (w0, w1) := NativeOutbound(scale, x).value;
    NativeInboundExact(scale, w0, w1);
    DivUnique(x * Pow(10, scale), Pow(10, scale), x, 0);
  }
}
