/** The yield-bearing handlers as they run, on the reserve, the strategy and the share vault. */
module YieldMarkets {
  import opened Machine
  import opened Rounding
  import opened Fees
  import opened MockYield
  import opened YieldStrategies
  import opened YieldBearing

  class YieldMarket {
    const reserve: Reserve
    const strategy: YieldStrategy
    var shareVault: u64

    ghost function State(): Market
      reads this, reserve, strategy
    {
      Market(reserve.State(), strategy.State(), shareVault)
    }

    constructor (reserve: Reserve, strategy: YieldStrategy)
      ensures State() == Market(reserve.State(), strategy.State(), 0)
      ensures this.reserve == reserve && this.strategy == strategy
    {
      this.reserve, this.strategy, shareVault := reserve, strategy, 0;
    }

    /** `accrue_strategy`: the rate it returns is not refreshed later in the handler. */
    method AccrueStrategy(now: i64) returns (r: Result<Snapshot>)
      modifies this, reserve, strategy
      ensures r.Ok? ==> StrategyAccrued(old(State()), now) == Ok(State()) && r.value == SnapshotOf(State().reserve)
      ensures r.Err? ==> StrategyAccrued(old(State()), now) == Err(r.error)
    {
      hide MulDiv, YieldApplied, Accrued;
      var _ :- reserve.Accrue(now);
      var snap := Snapshot(reserve.totalUnderlying, reserve.shareSupply);
      var current :- CusdcToUsdc(shareVault, snap);
      if current > strategy.lastSettledUnderlying {
        var _ :- strategy.ApplyYieldDelta(current - strategy.lastSettledUnderlying);
      }
      strategy.lastSettledUnderlying := current;
      return Ok(snap);
    }

    /** `require_solvent`. */
    method CheckSolvency(value: u64) returns (r: Result<()>)
      ensures r == RequireSolvent(State().strategy, value)
    {
      var scaled :- Checked128(strategy.totalUserShares * strategy.userIndex);
      var userOwed :- Checked64(MulDiv(strategy.totalUserShares, strategy.userIndex, TWO64));
      var totalOwed :- Checked64(userOwed + strategy.protocolOwedUnderlying);
      :- Require(value >= totalOwed, SolvencyInvariantBroken);
      return Ok(());
    }

    /** The reserve deposit of `deposit_yield_bearing` and `opt_in_yield`, and the shares it buys. */
    method DepositLiquidity(now: i64, amount: u64) returns (r: Result<u64>)
      modifies this, reserve, strategy
      ensures r.Ok? ==> DepositInto(old(State()), now, amount) == Ok((State(), r.value))
      ensures r.Err? ==> DepositInto(old(State()), now, amount) == Err(r.error)
    {
      hide MulDiv, Deposited;
      var minted :- reserve.DepositReserveLiquidity(now, amount);
      shareVault :- Checked64(shareVault + minted);
      var shares :- Checked64(MulDiv(amount, TWO64, strategy.userIndex));
      :- Require(shares > 0, AmountMustBePositive);
      strategy.totalUserShares :- Checked64(strategy.totalUserShares + shares);
      strategy.lastSettledUnderlying :- Checked64(strategy.lastSettledUnderlying + amount);
      return Ok(shares);
    }

    /** `cpi_redeem_reserve_collateral`, burning from the share vault. */
    method RedeemCollateral(now: i64, cusdc: u64) returns (r: Result<u64>)
      modifies this, reserve
      ensures r.Ok? ==> RedeemFromVault(old(State()), now, cusdc) == Ok((State(), r.value))
      ensures r.Err? ==> RedeemFromVault(old(State()), now, cusdc) == Err(r.error)
    {
      hide MulDiv, Redeemed;
      var paid :- reserve.RedeemReserveCollateral(now, cusdc);
      :- Require(cusdc <= shareVault, InsufficientTokens);
      shareVault := shareVault - cusdc;
      return Ok(paid);
    }

    method AccrueYield(now: i64) returns (r: Result<()>)
      modifies this, reserve, strategy
      ensures r.Ok? ==> YieldAccrued(old(State()), now) == Ok(State())
      ensures r.Err? ==> YieldAccrued(old(State()), now) == Err(r.error)
    {
      hide StrategyAccrued;
      var _ :- AccrueStrategy(now);
      var _ :- CheckSolvency(strategy.lastSettledUnderlying);
      return Ok(());
    }

    /** The two redemptions of a withdrawal, both priced at the rate `snap`. */
    method PayWithdrawal(now: i64, shares: u64, feeBps: FeeBps, decimals: u8, snap: Snapshot) returns (r: Result<Payout>)
      requires snap == SnapshotOf(reserve.State())
      modifies this, reserve, strategy
      ensures r.Ok? ==> WithdrawFrom(old(State()), now, shares, feeBps, decimals) == Ok((State(), r.value))
      ensures r.Err? ==> WithdrawFrom(old(State()), now, shares, feeBps, decimals) == Err(r.error)
    {
      hide MulDiv, RedeemFromVault, ScaledMinFee, SharesToUsdc, UsdcToCusdcRoundDown;
      var gross :- SharesToUsdc(StrategyState(strategy.protocolYieldShareBps, strategy.userIndex,
                                              strategy.lastSettledUnderlying, strategy.totalUserShares,
                                              strategy.protocolOwedUnderlying), shares);
      var fee :- WithdrawalFee(gross, feeBps, decimals);
      var net := gross - fee;
      var cusdcForNet :- UsdcToCusdcRoundDown(net, snap);
      var cusdcForFee :- UsdcToCusdcRoundDown(fee, snap);
      var netPaid, feePaid := 0, 0;
      if net > 0 && cusdcForNet > 0 {
        netPaid :- RedeemCollateral(now, cusdcForNet);
      }
      if fee > 0 && cusdcForFee > 0 {
        feePaid :- RedeemCollateral(now, cusdcForFee);
      }
      strategy.totalUserShares :- Checked64(strategy.totalUserShares - shares);
      strategy.lastSettledUnderlying := SaturatingSub(strategy.lastSettledUnderlying, gross);
      return Ok(Payout(gross, fee, netPaid, feePaid));
    }

    /** The rest of a withdrawal after accrual. */
    method PayAccrued(now: i64, shares: u64, feeBps: FeeBps, decimals: u8, snap: Snapshot) returns (r: Result<Payout>)
      requires snap == SnapshotOf(reserve.State())
      modifies this, reserve, strategy
      ensures r.Ok? ==> YieldPaid(old(State()), now, shares, feeBps, decimals) == Ok((State(), r.value))
      ensures r.Err? ==> YieldPaid(old(State()), now, shares, feeBps, decimals) == Err(r.error)
    {
      hide WithdrawFrom, RequireSolvent, CusdcToUsdc;
      if shares == 0 {
        var value :- CusdcToUsdc(shareVault, snap);
        var _ :- CheckSolvency(value);
        return Ok(Payout(0, 0, 0, 0));
      }
      var payout :- PayWithdrawal(now, shares, feeBps, decimals, snap);
      var _ :- CheckSolvency(strategy.lastSettledUnderlying);
      return Ok(payout);
    }

    method ClaimProtocolYield(now: i64, amount: u64) returns (r: Result<u64>)
      modifies this, reserve, strategy
      ensures r.Ok? ==> ProtocolClaimed(old(State()), now, amount) == Ok((State(), r.value))
      ensures r.Err? ==> ProtocolClaimed(old(State()), now, amount) == Err(r.error)
    {
      hide StrategyAccrued, RedeemFromVault, RequireSolvent, UsdcToCusdcRoundDown;
      :- Require(amount > 0, AmountMustBePositive);
      var snap :- AccrueStrategy(now);
      :- Require(amount <= strategy.protocolOwedUnderlying, InsufficientProtocolYield);
      var cusdc :- UsdcToCusdcRoundDown(amount, snap);
      var paid :- RedeemCollateral(now, cusdc);
      strategy.protocolOwedUnderlying := strategy.protocolOwedUnderlying - amount;
      strategy.lastSettledUnderlying := SaturatingSub(strategy.lastSettledUnderlying, amount);
      var _ :- CheckSolvency(strategy.lastSettledUnderlying);
      return Ok(paid);
    }

    /** The redemption of `opt_out_yield`: the credit computed in advance, and what was paid. */
    method RedeemShares(now: i64, shares: u64, snap: Snapshot) returns (r: Result<(u64, u64)>)
      requires snap == SnapshotOf(reserve.State())
      modifies this, reserve, strategy
      ensures r.Ok? ==> OptOutFrom(old(State()), now, shares) == Ok((State(), r.value.0, r.value.1))
      ensures r.Err? ==> OptOutFrom(old(State()), now, shares) == Err(r.error)
    {
      hide MulDiv, RedeemFromVault, SharesToUsdc, UsdcToCusdcRoundDown, CusdcToUsdc;
      var owed :- SharesToUsdc(StrategyState(strategy.protocolYieldShareBps, strategy.userIndex,
                                             strategy.lastSettledUnderlying, strategy.totalUserShares,
                                             strategy.protocolOwedUnderlying), shares);
      :- Require(owed > 0, AmountMustBePositive);
      var cusdc :- UsdcToCusdcRoundDown(owed, snap);
      :- Require(cusdc > 0, AmountMustBePositive);
      var received :- CusdcToUsdc(cusdc, snap);
      :- Require(received > 0, AmountMustBePositive);
      var paid :- RedeemCollateral(now, cusdc);
      strategy.totalUserShares :- Checked64(strategy.totalUserShares - shares);
      strategy.lastSettledUnderlying := SaturatingSub(strategy.lastSettledUnderlying, received);
      return Ok((received, paid));
    }
  }
}
