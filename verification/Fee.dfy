/**
Fee parameters: basis points to the pair (maxFee, halfAmount) and back. Basis points are integers
scaled by `BPS_PRECISION`.
 */
module Fee {
  import opened Prelude
  import opened Bytes

  const MAX_BPS: nat := 10_000
  const BPS_PRECISION: nat := 10_000
  const UNIT: nat := MAX_BPS * BPS_PRECISION

  datatype RawFee = RawFee(maxFee: nat, halfAmount: nat)

  /** A zero rate, a zero maximum amount and a half amount beyond `maxInt` are refused. */
  function ToRaw(bps: nat, maxInt: nat, assumedMax: nat): Option<RawFee> {
    if bps == 0 || assumedMax == 0 then None
    else
      var maxFee := maxInt / assumedMax;
      var halfAmount := (maxFee / 2) * UNIT / bps;
      if halfAmount <= maxInt then Some(RawFee(maxFee, halfAmount)) else None
  }

  function Quotient(x: nat, d: nat): nat
    requires d > 0
  {
    x / d
  }

  function ToBps(raw: RawFee): Option<nat> {
    if raw.halfAmount == 0 then None
    else
      Some(Quotient(raw.maxFee * UNIT, raw.halfAmount * 2))
  }

  lemma DivBound(x: nat, d: nat)
    requires d > 0
    ensures (x / d) * d <= x < (x / d + 1) * d
  {
  }

  /** The quotient is at least `q` iff `q` times the divisor fits. */
  lemma DivAtLeast(x: nat, d: nat, q: nat)
    requires d > 0
    ensures x / d >= q <==> q * d <= x
  {
    DivBound(x, d);
    if x / d >= q {
      MulLe(q, x / d, d);
    } else {
      MulLe(x / d + 1, q, d);
    }
  }

  /** Rounding the half amount down can only raise the rate. */
  lemma HalfAmount(maxFee: nat, bps: nat)
    requires bps > 0
    ensures var h := (maxFee / 2) * UNIT / bps;
            2 * (h * bps) <= maxFee * UNIT < 2 * (h * bps) + 2 * bps + UNIT
  {
    var x := (maxFee / 2) * UNIT;
    DivBound(x, bps);
    MulAdd(x / bps, 1, bps);
  }

  /**
  The rate that is read back is never below the one that was set, and it is the same exactly when
  the half amount is large enough: `maxFee * UNIT < 2 * halfAmount * (bps + 1)`.
   */
  lemma FeeRoundTrip(bps: nat, maxInt: nat, assumedMax: nat)
    requires ToRaw(bps, maxInt, assumedMax).Some? && ToRaw(bps, maxInt, assumedMax).value.halfAmount > 0
    ensures var raw := ToRaw(bps, maxInt, assumedMax).value;
            && ToBps(raw).Some? && ToBps(raw).value >= bps
            && (ToBps(raw).value == bps <==> raw.maxFee * UNIT < (bps + 1) * (raw.halfAmount * 2))
            && (raw.halfAmount >= bps + UNIT / 2 ==> ToBps(raw).value == bps)
  {
    var RawFee(m, h) := ToRaw(bps, maxInt, assumedMax).value;
    HalfAmount(m, bps);
    assert bps * (h * 2) == 2 * (h * bps);
    MulAdd(bps, 1, h * 2);
    DivAtLeast(m * UNIT, h * 2, bps);
    DivAtLeast(m * UNIT, h * 2, bps + 1);
  }

  /** With a small maximum fee the rate that is read back is higher: 100% comes back as 150%. */
  lemma FeeCanBeOverstated()
    ensures ToRaw(UNIT, 3, 1) == Some(RawFee(3, 1)) && ToBps(RawFee(3, 1)) == Some(UNIT + UNIT / 2)
  {
  }

  /** What the raw parameters are: the largest multiples that fit, and when they are refused. */
  lemma RawFeeIs(bps: nat, maxInt: nat, assumedMax: nat, maxFee: nat, halfAmount: nat)
    ensures ToRaw(bps, maxInt, assumedMax) == Some(RawFee(maxFee, halfAmount))
            <==> && bps > 0 && assumedMax > 0 && halfAmount <= maxInt
                 && maxFee * assumedMax <= maxInt < (maxFee + 1) * assumedMax
                 && halfAmount * bps <= maxFee / 2 * 100_000_000 < (halfAmount + 1) * bps
  {
    if bps > 0 && assumedMax > 0 {
      DivIs(maxInt, assumedMax, maxFee);
      DivIs(maxFee / 2 * UNIT, bps, halfAmount);
    }
  }

  lemma DivIs(x: nat, d: nat, q: nat)
    requires d > 0
    ensures x / d == q <==> q * d <= x < (q + 1) * d
  {
    DivAtLeast(x, d, q);
    DivAtLeast(x, d, q + 1);
  }
}
