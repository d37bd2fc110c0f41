/** The yield-bearing handlers: accrue, round, update the counters, assert solvency. */
module YieldBearing {
  import opened Machine
  import opened Rounding
  import opened Fees
  import opened MockYield
  import opened YieldStrategies

  /** What a strategy touches outside the buckets: the reserve, its own counters, and the shares of
      the reserve that its share vault holds. */
  datatype Market = Market(reserve: ReserveState, strategy: StrategyState, shareVault: u64)

  /** The rate that `accrue` returned; later redemptions in the same handler do not refresh it. */
  datatype Snapshot = Snapshot(totalUnderlying: u64, shareSupply: u64)

  function SnapshotOf(r: ReserveState): Snapshot {
    Snapshot(r.totalUnderlying, r.shareSupply)
  }

  function CusdcToUsdc(cusdc: u64, snap: Snapshot): Result<u64> {
    if snap.shareSupply == 0 || cusdc == 0 then Ok(0)
    else Checked64(MulDiv(cusdc, snap.totalUnderlying, snap.shareSupply))
  }

  function UsdcToCusdcRoundDown(usdc: u64, snap: Snapshot): Result<u64> {
    if usdc == 0 then Ok(0)
    else
      :- Require(snap.totalUnderlying > 0, InvalidYieldStrategy);
      Checked64(MulDiv(usdc, snap.shareSupply, snap.totalUnderlying))
  }

  // ----- the steps that handlers share

  /** `accrue_strategy`. */
  function StrategyAccrued(m: Market, now: i64): Result<Market> {
    var r :- Accrued(m.reserve, now);
    var current :- CusdcToUsdc(m.shareVault, SnapshotOf(r));
    var s :- if current > m.strategy.lastSettledUnderlying
             then YieldApplied(m.strategy, current - m.strategy.lastSettledUnderlying)
             else Ok(m.strategy);
    Ok(Market(r, s.(lastSettledUnderlying := current), m.shareVault))
  }

  /** The deposit into the reserve, and the shares it buys at the current index. */
  function DepositInto(m: Market, now: i64, amount: u64): Result<(Market, u64)> {
    var (r, minted) :- Deposited(m.reserve, now, amount);
    var vault :- Checked64(m.shareVault + minted);
    var shares :- UsdcToShares(m.strategy, amount);
    :- Require(shares > 0, AmountMustBePositive);
    var total :- Checked64(m.strategy.totalUserShares + shares);
    var settled :- Checked64(m.strategy.lastSettledUnderlying + amount);
    Ok((Market(r, m.strategy.(totalUserShares := total, lastSettledUnderlying := settled), vault), shares))
  }

  /** `cpi_redeem_reserve_collateral` out of the share vault. */
  function RedeemFromVault(m: Market, now: i64, cusdc: u64): Result<(Market, u64)> {
    var (r, paid) :- Redeemed(m.reserve, now, cusdc);
    :- Require(cusdc <= m.shareVault, InsufficientTokens);
    Ok((m.(reserve := r, shareVault := m.shareVault - cusdc), paid))
  }

  function RedeemIfAny(m: Market, now: i64, requested: u64, cusdc: u64): Result<(Market, u64)> {
    if requested > 0 && cusdc > 0 then RedeemFromVault(m, now, cusdc) else Ok((m, 0))
  }

  function SaturatingSub(a: u64, b: u64): u64 {
    if a < b then 0 else a - b
  }

  // ----- handlers, without the participant's bucket

  function YieldAccrued(m: Market, now: i64): Result<Market> {
    var m1 :- StrategyAccrued(m, now);
    var _ :- RequireSolvent(m1.strategy, m1.strategy.lastSettledUnderlying);
    Ok(m1)
  }

  /** `deposit_yield_bearing`, and the market half of `opt_in_yield`. */
  function YieldDeposited(m: Market, now: i64, amount: u64): Result<(Market, u64)> {
    if amount == 0 then Err(AmountMustBePositive)
    else
      var m1 :- StrategyAccrued(m, now);
      var (m2, shares) :- DepositInto(m1, now, amount);
      var _ :- RequireSolvent(m2.strategy, m2.strategy.lastSettledUnderlying);
      Ok((m2, shares))
  }

  datatype Payout = Payout(gross: u64, fee: u64, netPaid: u64, feePaid: u64)

  /** The payment of `shares` withdrawing shares, after accrual: two redemptions at one snapshot. */
  function WithdrawFrom(m: Market, now: i64, shares: u64, feeBps: FeeBps, decimals: u8)
    : Result<(Market, Payout)>
  {
    var snap := SnapshotOf(m.reserve);
    var gross :- SharesToUsdc(m.strategy, shares);
    var fee :- WithdrawalFee(gross, feeBps, decimals);
    var net :- Checked64(gross - fee);
    var cusdcForNet :- UsdcToCusdcRoundDown(net, snap);
    var cusdcForFee :- UsdcToCusdcRoundDown(fee, snap);
    var (m1, netPaid) :- RedeemIfAny(m, now, net, cusdcForNet);
    var (m2, feePaid) :- RedeemIfAny(m1, now, fee, cusdcForFee);
    var total :- Checked64(m.strategy.totalUserShares - shares);
    var settled := SaturatingSub(m.strategy.lastSettledUnderlying, gross);
    Ok((m2.(strategy := m.strategy.(totalUserShares := total, lastSettledUnderlying := settled)),
        Payout(gross, fee, netPaid, feePaid)))
  }

  /** The rest of a withdrawal after accrual; shares that settlement drained pay nothing. */
  function YieldPaid(m: Market, now: i64, shares: u64, feeBps: FeeBps, decimals: u8): Result<(Market, Payout)> {
    if shares == 0 then
      var value :- CusdcToUsdc(m.shareVault, SnapshotOf(m.reserve));
      var _ :- RequireSolvent(m.strategy, value);
      Ok((m, Payout(0, 0, 0, 0)))
    else
      var (m', payout) :- WithdrawFrom(m, now, shares, feeBps, decimals);
      var _ :- RequireSolvent(m'.strategy, m'.strategy.lastSettledUnderlying);
      Ok((m', payout))
  }

  /** `execute_withdrawal_yield_bearing`. */
  function YieldWithdrawn(m: Market, now: i64, shares: u64, feeBps: FeeBps, decimals: u8)
    : Result<(Market, Payout)>
  {
    if decimals > MAX_TOKEN_DECIMALS then Err(InvalidTokenDecimals)
    else
      var m1 :- StrategyAccrued(m, now);
      YieldPaid(m1, now, shares, feeBps, decimals)
  }

  /** The payment of `claim_protocol_yield_fee`, after accrual. */
  function ClaimFrom(m: Market, now: i64, amount: u64): Result<(Market, u64)> {
    if amount > m.strategy.protocolOwedUnderlying then Err(InsufficientProtocolYield)
    else
      var cusdc :- UsdcToCusdcRoundDown(amount, SnapshotOf(m.reserve));
      var (m1, paid) :- RedeemFromVault(m, now, cusdc);
      Ok((m1.(strategy := m.strategy.(
                protocolOwedUnderlying := m.strategy.protocolOwedUnderlying - amount,
                lastSettledUnderlying := SaturatingSub(m.strategy.lastSettledUnderlying, amount))), paid))
  }

  /** `claim_protocol_yield_fee`. */
  function ProtocolClaimed(m: Market, now: i64, amount: u64): Result<(Market, u64)> {
    if amount == 0 then Err(AmountMustBePositive)
    else
      var m1 :- StrategyAccrued(m, now);
      var (m2, paid) :- ClaimFrom(m1, now, amount);
      var _ :- RequireSolvent(m2.strategy, m2.strategy.lastSettledUnderlying);
      Ok((m2, paid))
  }

  /** The redemption of `opt_out_yield`, after accrual: the credit computed in advance and what the
      reserve then pays. */
  function OptOutFrom(m: Market, now: i64, shares: u64): Result<(Market, u64, u64)> {
    var snap := SnapshotOf(m.reserve);
    var owed :- SharesToUsdc(m.strategy, shares);
    :- Require(owed > 0, AmountMustBePositive);
    var cusdc :- UsdcToCusdcRoundDown(owed, snap);
    :- Require(cusdc > 0, AmountMustBePositive);
    var received :- CusdcToUsdc(cusdc, snap);
    :- Require(received > 0, AmountMustBePositive);
    var (m1, paid) :- RedeemFromVault(m, now, cusdc);
    var total :- Checked64(m.strategy.totalUserShares - shares);
    var settled := SaturatingSub(m.strategy.lastSettledUnderlying, received);
    Ok((m1.(strategy := m.strategy.(totalUserShares := total, lastSettledUnderlying := settled)), received, paid))
  }

  /** The market half of `opt_out_yield`. */
  function OptedOut(m: Market, now: i64, shares: u64): Result<(Market, u64, u64)> {
    if shares == 0 then Err(AmountMustBePositive)
    else
      var m1 :- StrategyAccrued(m, now);
      var (m2, received, paid) :- OptOutFrom(m1, now, shares);
      var _ :- RequireSolvent(m2.strategy, m2.strategy.lastSettledUnderlying);
      Ok((m2, received, paid))
  }
}
