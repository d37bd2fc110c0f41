/** The withdrawal fee: a percentage with a floor, never more than the amount. */
module Fees {
  import opened Machine
  import opened Rounding

  const MIN_WITHDRAWAL_FEE_6DP: nat := 50_000
  const MAX_TOKEN_DECIMALS: nat := 20

  type FeeBps = x: int | 0 <= x <= 30

  function Pow10(n: nat): (p: nat)
    ensures p >= 1
  {
    if n == 0 then 1 else 10 * Pow10(n - 1)
  }

  /** The six-decimal fee floor in the token's own units; at least one unit for coarse tokens. */
  function ScaledMinFee(decimals: u8): Result<u64> {
    if decimals >= 6 then
      var scale :- Checked64(Pow10(decimals - 6));
      Checked64(MIN_WITHDRAWAL_FEE_6DP * scale)
    else
      var divisor :- Checked64(Pow10(6 - decimals));
      Ok(Max(MIN_WITHDRAWAL_FEE_6DP / divisor, 1))
  }

  function WithdrawalFee(amount: u64, feeBps: FeeBps, decimals: u8): Result<u64> {
    var minFee :- ScaledMinFee(decimals);
    var percentage :- Checked64(MulDiv(amount, feeBps, 10_000));
    Ok(Min(Max(percentage, minFee), amount))
  }

  /** For every token that can be registered the fee exists, is at least one unit, and splits the
      amount without remainder into net and fee. */
  lemma FeeAlwaysExists(amount: u64, feeBps: FeeBps, decimals: u8)
    requires decimals <= MAX_TOKEN_DECIMALS
    ensures WithdrawalFee(amount, feeBps, decimals).Ok?
    ensures var fee := WithdrawalFee(amount, feeBps, decimals).value;
            fee <= amount && (amount > 0 ==> fee > 0)
  {
    assert Pow10(0) == 1 && Pow10(3) == 1_000 && Pow10(6) == 1_000_000 && Pow10(9) == 1_000_000_000;
    assert Pow10(12) == 1_000_000_000_000 && Pow10(14) == 100_000_000_000_000;
    if decimals >= 6 {
      Pow10Grows(decimals - 6, 14);
    } else {
      Pow10Grows(6 - decimals, 6);
      Exact(MIN_WITHDRAWAL_FEE_6DP, Pow10(6 - decimals));
      MulMonotone(1, Pow10(6 - decimals), MIN_WITHDRAWAL_FEE_6DP / Pow10(6 - decimals));
    }
    MulMonotone(feeBps, 10_000, amount);
    FloorBelow(amount, feeBps, 10_000, amount);
  }

  lemma {:induction false} Pow10Grows(m: nat, n: nat)
    requires m <= n
    ensures Pow10(m) <= Pow10(n)
  {
    if m < n {
      Pow10Grows(m, n - 1);
    }
  }

  /** The fee floor of a token with `decimals` decimals: five cents' worth of a six-decimal token,
      scaled exactly to finer units and rounded down to coarser ones, but never below one unit. */
  ghost predicate IsFeeFloor(decimals: nat, f: nat) {
    && (decimals >= 6 ==> f == 50_000 * Pow10(decimals - 6))
    && (decimals < 6 ==>
          && f >= 1 && 50_000 < (f + 1) * Pow10(6 - decimals)
          && (f > 1 ==> f * Pow10(6 - decimals) <= 50_000))
  }

  lemma FeeFloorIs(decimals: u8)
    requires decimals <= MAX_TOKEN_DECIMALS
    ensures ScaledMinFee(decimals).Ok? && IsFeeFloor(decimals, ScaledMinFee(decimals).value)
    ensures forall f: nat :: IsFeeFloor(decimals, f) ==> f == ScaledMinFee(decimals).value
  {
    FeeAlwaysExists(0, 0, decimals);
    if decimals < 6 {
      var p := Pow10(6 - decimals);
      Exact(50_000, p);
      forall f: nat | IsFeeFloor(decimals, f) ensures f == ScaledMinFee(decimals).value {
        FloorIs(f, p);
      }
    }
  }

  lemma FloorIs(f: nat, p: nat)
    requires p > 0 && f >= 1 && 50_000 < (f + 1) * p && (f > 1 ==> f * p <= 50_000)
    ensures f == Max(50_000 / p, 1)
  {
    var q := 50_000 / p;
    Exact(50_000, p);
    if f < q {
      MulMonotone(f + 1, q, p);
    } else if f > q && f > 1 {
      MulMonotone(q + 1, f, p);
    }
  }

  /** With `q` the percentage rounded down and `f` the fee floor of the token, the fee is the larger of
      the two where the amount covers it, and the whole amount where it does not. */
  lemma FeeIs(amount: u64, feeBps: FeeBps, decimals: u8, q: nat, f: nat)
    requires decimals <= MAX_TOKEN_DECIMALS
    requires q * 10_000 <= amount * feeBps < (q + 1) * 10_000 && IsFeeFloor(decimals, f)
    ensures WithdrawalFee(amount, feeBps, decimals).Ok?
    ensures var fee := WithdrawalFee(amount, feeBps, decimals).value;
            && (q <= amount && f <= amount ==> fee == if q < f then f else q)
            && (q > amount || f > amount ==> fee == amount)
  {
    FeeAlwaysExists(amount, feeBps, decimals);
    FeeFloorIs(decimals);
    FloorIsLargest(amount, feeBps, 10_000, q);
    FloorBelow(amount, feeBps, 10_000, q);
  }

  /** `q` is the percentage of the amount, rounded down. */
  ghost predicate IsPercentage(amount: nat, feeBps: nat, q: nat) {
    q * 10_000 <= amount * feeBps < (q + 1) * 10_000
  }

  /** What the fee on `amount` has to be. */
  ghost predicate IsFee(amount: nat, feeBps: nat, decimals: nat, fee: nat) {
    exists q: nat, f: nat :: IsPercentage(amount, feeBps, q) && IsFeeFloor(decimals, f)
      && fee == if q > amount || f > amount then amount else if q < f then f else q
  }

  lemma FeeIsFee(amount: u64, feeBps: FeeBps, decimals: u8)
    requires decimals <= MAX_TOKEN_DECIMALS
    ensures WithdrawalFee(amount, feeBps, decimals).Ok?
    ensures IsFee(amount, feeBps, decimals, WithdrawalFee(amount, feeBps, decimals).value)
  {
    var q := MulDiv(amount, feeBps, 10_000);
    FeeFloorIs(decimals);
    var f := ScaledMinFee(decimals).value;
    assert IsPercentage(amount, feeBps, q) && IsFeeFloor(decimals, f);
    FeeIs(amount, feeBps, decimals, q, f);
  }

  /** A token of six decimals: half a million pays the floor, a thousand million at 30 bps the
      percentage, and what is below the floor goes whole. */
  lemma FeeExamples()
    ensures WithdrawalFee(500_000, 30, 6) == Ok(50_000)
    ensures WithdrawalFee(1_000_000_000, 30, 6) == Ok(3_000_000)
    ensures WithdrawalFee(40_000, 30, 6) == Ok(40_000)
    ensures WithdrawalFee(1_000, 3, 2) == Ok(5)
  {
    assert Pow10(0) == 1 && Pow10(1) == 10 && Pow10(2) == 100 && Pow10(3) == 1_000 && Pow10(4) == 10_000;
    FeeIs(500_000, 30, 6, 1_500, 50_000);
    FeeIs(1_000_000_000, 30, 6, 3_000_000, 50_000);
    FeeIs(40_000, 30, 6, 120, 50_000);
    FeeIs(1_000, 3, 2, 0, 5);
  }
}
