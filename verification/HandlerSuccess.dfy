/** When the yield handlers succeed: from a covered market, once accrual does, exactly on conditions
    that the caller can check. */
module HandlerSuccess {
  import opened Machine
  import opened Rounding
  import opened Fees
  import opened MockYield
  import opened ReservePrice
  import opened YieldStrategies
  import opened YieldBearing
  import opened Redemption
  import opened Solvency

  // ----- the steps that cannot fail

  lemma SolventPasses(s: StrategyState, v: u64)
    requires Owed(s) <= v
    ensures RequireSolvent(s, v).Ok?
  {
    SharesConvert(s, s.totalUserShares);
  }

  lemma SharesConvert(s: StrategyState, shares: u64)
    requires Owed(s) < TWO64 && shares <= s.totalUserShares
    ensures SharesToUsdc(s, shares) == Ok(Worth(shares, s.userIndex))
    ensures Worth(shares, s.userIndex) + s.protocolOwedUnderlying <= Owed(s)
  {
    WorthSplits(shares, s.totalUserShares - shares, s.userIndex);
    FitsWide(shares, s.userIndex);
  }

  lemma FitsWide(shares: nat, index: Index)
    requires Worth(shares, index) < TWO64
    ensures 0 <= shares * index < TWO128
  {
    MulMonotone(Worth(shares, index) + 1, TWO64, TWO64);
  }

  /** A positive request within the vault's value can be priced, and burns shares exactly when it is
      worth at least one. */
  lemma PricedRequest(m: Market, request: u64)
    requires Sane(m) && 0 < request <= VaultValue(m)
    ensures var t, p := m.reserve.totalUnderlying, m.reserve.shareSupply;
            && t > 0 && p > 0 && 0 <= MulDiv(request, p, t) <= m.shareVault
            && UsdcToCusdcRoundDown(request, SnapshotOf(m.reserve)) == Ok(MulDiv(request, p, t))
            && (MulDiv(request, p, t) > 0 <==> request * p >= t)
  {
    VaultValueFits(m);
    var t, p := m.reserve.totalUnderlying, m.reserve.shareSupply;
    BurnFits(m.shareVault, t, p, request, MulDiv(request, p, t));
    if request * p >= t {
      FloorIsLargest(request, p, t, 1);
    } else {
      FloorBelow(request, p, t, 0);
    }
  }

  lemma BurnSucceeds(m: Market, now: i64, cusdc: u64)
    requires Sane(m) && Accrued(m.reserve, now) == Ok(m.reserve) && 0 < cusdc <= m.shareVault
    ensures RedeemFromVault(m, now, cusdc).Ok?
  {
    RedemptionSucceeds(m, now, cusdc, cusdc);
  }

  // ----- the protocol's claim

  lemma ClaimFromSucceeds(m: Market, now: i64, amount: u64)
    requires Covered(m) && Accrued(m.reserve, now) == Ok(m.reserve) && amount > 0
    ensures ClaimFrom(m, now, amount).Ok? <==>
              amount <= m.strategy.protocolOwedUnderlying
              && amount * m.reserve.shareSupply >= m.reserve.totalUnderlying
  {
    hide MulDiv, Value, Redeemed;
    if amount <= m.strategy.protocolOwedUnderlying {
      PricedRequest(m, amount);
      var cusdc := MulDiv(amount, m.reserve.shareSupply, m.reserve.totalUnderlying);
      if cusdc > 0 {
        BurnSucceeds(m, now, cusdc);
      } else {
        NothingToBurn(m, now);
      }
    }
  }

  lemma NothingToBurn(m: Market, now: i64)
    ensures RedeemFromVault(m, now, 0).Err?
  {
  }

  /** A claim succeeds exactly when it is within what the protocol is owed and worth at least one
      share of the reserve: a smaller one would burn nothing, and is refused. */
  lemma ClaimSucceedsExactlyWhen(m: Market, now: i64, amount: u64)
    requires Covered(m) && StrategyAccrued(m, now).Ok?
    ensures var m1 := StrategyAccrued(m, now).value;
            ProtocolClaimed(m, now, amount).Ok? <==>
              && 0 < amount <= m1.strategy.protocolOwedUnderlying
              && amount * m1.reserve.shareSupply >= m1.reserve.totalUnderlying
  {
    hide ClaimFrom, StrategyAccrued, VaultValue, Owed;
    AccrualKeepsCovered(m, now);
    AccrualOutcome(m, now);
    var m1 := StrategyAccrued(m, now).value;
    if amount > 0 {
      ClaimFromSucceeds(m1, now, amount);
      if ClaimFrom(m1, now, amount).Ok? {
        ClaimOutcome(m1, now, amount);
        var m2 := ClaimFrom(m1, now, amount).value.0;
        SolventPasses(m2.strategy, m2.strategy.lastSettledUnderlying);
      }
    }
  }

  // ----- opt-out

  lemma CreditIsPositive(t: u64, p: u64, cusdc: u64)
    requires 0 < p <= t && 0 < cusdc <= p
    ensures CusdcToUsdc(cusdc, Snapshot(t, p)).Ok? && CusdcToUsdc(cusdc, Snapshot(t, p)).value > 0
  {
    RedemptionKeepsBacking(t, p, cusdc);
  }

  lemma OptOutFromSucceeds(m: Market, now: i64, shares: u64)
    requires Covered(m) && Accrued(m.reserve, now) == Ok(m.reserve)
    ensures OptOutFrom(m, now, shares).Ok? <==>
              && shares <= m.strategy.totalUserShares
              && Worth(shares, m.strategy.userIndex) > 0
              && Worth(shares, m.strategy.userIndex) * m.reserve.shareSupply >= m.reserve.totalUnderlying
  {
    hide RedeemFromVault, CusdcToUsdc, UsdcToCusdcRoundDown, SharesToUsdc, Worth, Value, MulDiv;
    if shares <= m.strategy.totalUserShares {
      SharesConvert(m.strategy, shares);
      var owed := Worth(shares, m.strategy.userIndex);
      if owed > 0 {
        PricedRequest(m, owed);
        var cusdc := MulDiv(owed, m.reserve.shareSupply, m.reserve.totalUnderlying);
        if cusdc > 0 {
          BurnSucceeds(m, now, cusdc);
          CreditIsPositive(m.reserve.totalUnderlying, m.reserve.shareSupply, cusdc);
        }
      }
    }
  }

  /** An opt-out succeeds exactly for shares the strategy counts that are worth at least one unit and
      at least one share of the reserve. */
  lemma OptOutSucceedsExactlyWhen(m: Market, now: i64, shares: u64)
    requires Covered(m) && StrategyAccrued(m, now).Ok?
    ensures var m1 := StrategyAccrued(m, now).value;
            OptedOut(m, now, shares).Ok? <==>
              && shares <= m1.strategy.totalUserShares
              && Worth(shares, m1.strategy.userIndex) > 0
              && Worth(shares, m1.strategy.userIndex) * m1.reserve.shareSupply >= m1.reserve.totalUnderlying
  {
    hide OptOutFrom, StrategyAccrued, VaultValue, Owed, Worth;
    AccrualKeepsCovered(m, now);
    AccrualOutcome(m, now);
    var m1 := StrategyAccrued(m, now).value;
    OptOutFromSucceeds(m1, now, shares);
    NoSharesNoWorth(m1.strategy.userIndex);
    if OptOutFrom(m1, now, shares).Ok? {
      OptOutOutcome(m1, now, shares);
      var m2 := OptOutFrom(m1, now, shares).value.0;
      SolventPasses(m2.strategy, m2.strategy.lastSettledUnderlying);
    }
  }

  lemma NoSharesNoWorth(index: Index)
    ensures Worth(0, index) == 0
  {
    FloorBelow(0, index, TWO64, 0);
  }

  // ----- withdrawal

  lemma PartSucceeds(m: Market, now: i64, request: u64, cusdc: u64, m': Market, left: u64)
    requires Sane(m) && Accrued(m.reserve, now) == Ok(m.reserve) && cusdc + left <= m.shareVault
    requires RedeemIfAny(m, now, request, cusdc).Ok? && m' == RedeemIfAny(m, now, request, cusdc).value.0
    ensures Sane(m') && Accrued(m'.reserve, now) == Ok(m'.reserve) && left <= m'.shareVault
  {
    if request > 0 && cusdc > 0 {
      RedemptionKeepsSound(m.reserve, now, cusdc);
    }
  }

  lemma BothRedeem(m: Market, now: i64, net: u64, fee: u64, cusdcForNet: u64, cusdcForFee: u64)
    requires Sane(m) && Accrued(m.reserve, now) == Ok(m.reserve) && cusdcForNet + cusdcForFee <= m.shareVault
    ensures RedeemIfAny(m, now, net, cusdcForNet).Ok?
    ensures RedeemIfAny(RedeemIfAny(m, now, net, cusdcForNet).value.0, now, fee, cusdcForFee).Ok?
  {
    hide RedeemIfAny, Accrued;
    RedemptionSucceeds(m, now, net, cusdcForNet);
    var m1 := RedeemIfAny(m, now, net, cusdcForNet).value.0;
    PartSucceeds(m, now, net, cusdcForNet, m1, cusdcForFee);
    RedemptionSucceeds(m1, now, fee, cusdcForFee);
  }

  /** Net and fee are priced, and the vault holds what both of them burn. */
  lemma BothPriced(m: Market, net: u64, fee: u64)
    requires Sane(m) && net + fee <= VaultValue(m)
    ensures UsdcToCusdcRoundDown(net, SnapshotOf(m.reserve)).Ok? && UsdcToCusdcRoundDown(fee, SnapshotOf(m.reserve)).Ok?
    ensures UsdcToCusdcRoundDown(net, SnapshotOf(m.reserve)).value
            + UsdcToCusdcRoundDown(fee, SnapshotOf(m.reserve)).value <= m.shareVault
  {
    hide MulDiv, Value;
    var t, p := m.reserve.totalUnderlying, m.reserve.shareSupply;
    if net > 0 { PricedRequest(m, net); }
    if fee > 0 { PricedRequest(m, fee); }
    if net > 0 && fee > 0 {
      BothBurnsCost(t, p, net, fee);
      VaultIsQuotient(m);
      BurnFits(m.shareVault, t, p, net + fee, MulDiv(net, p, t) + MulDiv(fee, p, t));
    }
  }

  lemma VaultIsQuotient(m: Market)
    ensures m.reserve.shareSupply > 0 ==>
              VaultValue(m) == MulDiv(m.shareVault, m.reserve.totalUnderlying, m.reserve.shareSupply)
  {
  }

  lemma WithdrawFromSucceeds(m: Market, now: i64, shares: u64, feeBps: FeeBps, decimals: u8)
    requires Covered(m) && Accrued(m.reserve, now) == Ok(m.reserve) && decimals <= MAX_TOKEN_DECIMALS
    ensures WithdrawFrom(m, now, shares, feeBps, decimals).Ok? <==> shares <= m.strategy.totalUserShares
  {
    hide RedeemIfAny, UsdcToCusdcRoundDown, SharesToUsdc, WithdrawalFee, Worth, Value, MulDiv, Accrued;
    if shares <= m.strategy.totalUserShares {
      SharesConvert(m.strategy, shares);
      var gross := Worth(shares, m.strategy.userIndex);
      FeeAlwaysExists(gross, feeBps, decimals);
      var fee := WithdrawalFee(gross, feeBps, decimals).value;
      BothPriced(m, gross - fee, fee);
      BothRedeem(m, now, gross - fee, fee,
                 UsdcToCusdcRoundDown(gross - fee, SnapshotOf(m.reserve)).value,
                 UsdcToCusdcRoundDown(fee, SnapshotOf(m.reserve)).value);
    }
  }

  /** A withdrawal of a registrable token succeeds exactly for shares the strategy counts, however
      little they are worth. */
  lemma WithdrawalSucceedsExactlyWhen(m: Market, now: i64, shares: u64, feeBps: FeeBps, decimals: u8)
    requires Covered(m) && StrategyAccrued(m, now).Ok? && decimals <= MAX_TOKEN_DECIMALS
    ensures YieldWithdrawn(m, now, shares, feeBps, decimals).Ok? <==> shares <= m.strategy.totalUserShares
  {
    hide WithdrawFrom, StrategyAccrued, VaultValue, Owed, CusdcToUsdc;
    AccrualKeepsCovered(m, now);
    AccrualOutcome(m, now);
    var m1 := StrategyAccrued(m, now).value;
    VaultValueFits(m1);
    SolventPasses(m1.strategy, m1.strategy.lastSettledUnderlying);
    WithdrawFromSucceeds(m1, now, shares, feeBps, decimals);
    if WithdrawFrom(m1, now, shares, feeBps, decimals).Ok? {
      WithdrawalOutcome(m1, now, shares, feeBps, decimals);
      var m2 := WithdrawFrom(m1, now, shares, feeBps, decimals).value.0;
      SolventPasses(m2.strategy, m2.strategy.lastSettledUnderlying);
    }
  }
}
