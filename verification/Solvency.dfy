/** Solvency of a yield-bearing token: for the sole holder of a reserve over every run, and with
    other holders present, exactly how far it can slip. */
module Solvency {
  import opened Machine
  import opened Rounding
  import opened Fees
  import opened MockYield
  import opened ReservePrice
  import opened YieldStrategies
  import opened YieldBearing
  import opened Redemption

  /** What the share vault is really worth. */
  function VaultValue(m: Market): nat {
    Value(m.reserve, m.shareVault)
  }

  ghost predicate Sane(m: Market) {
    Sound(m.reserve) && m.shareVault <= m.reserve.shareSupply
  }

  /** The tracked value covers what is owed. */
  ghost predicate Tracked(m: Market) {
    Sane(m) && m.strategy.lastSettledUnderlying >= Owed(m.strategy)
  }

  /** The tracked and the real value both cover what is owed. */
  ghost predicate Covered(m: Market) {
    Tracked(m) && VaultValue(m) >= Owed(m.strategy)
  }

  /** The tracked value lies within the reserve. */
  ghost predicate Within(m: Market) {
    m.strategy.lastSettledUnderlying <= m.reserve.totalUnderlying
  }

  /** Straight after an accrual the tracked value is the real one. */
  ghost predicate Fresh(m: Market) {
    m.strategy.lastSettledUnderlying == VaultValue(m)
  }

  // ----- accrual

  lemma VaultValueFits(m: Market)
    requires Sane(m)
    ensures VaultValue(m) <= m.reserve.totalUnderlying
    ensures CusdcToUsdc(m.shareVault, SnapshotOf(m.reserve)) == Ok(VaultValue(m))
  {
    var c, t, p := m.shareVault, m.reserve.totalUnderlying, m.reserve.shareSupply;
    if p > 0 {
      MulMonotone(c, p, t);
      FloorBelow(c, t, p, t);
    }
  }

  /** After an accrual the tracked value is the real value, new value is owed at most once, and
      without new value nothing new is owed. */
  lemma AccrualOutcome(m: Market, now: i64)
    requires Sane(m) && StrategyAccrued(m, now).Ok?
    ensures var m1 := StrategyAccrued(m, now).value;
            && Sane(m1) && Fresh(m1) && Within(m1)
            && m1.shareVault == m.shareVault
            && m1.reserve.shareSupply == m.reserve.shareSupply
            && Accrued(m1.reserve, now) == Ok(m1.reserve)
            && VaultValue(m1) >= VaultValue(m)
            && m1.strategy.totalUserShares == m.strategy.totalUserShares
            && m1.strategy.userIndex >= m.strategy.userIndex
            && (VaultValue(m1) <= m.strategy.lastSettledUnderlying ==>
                  Owed(m1.strategy) == Owed(m.strategy))
            && (VaultValue(m1) > m.strategy.lastSettledUnderlying ==>
                  Owed(m1.strategy) <= Owed(m.strategy) + VaultValue(m1) - m.strategy.lastSettledUnderlying)
  {
    AccrualKeepsSound(m.reserve, now);
    var r := Accrued(m.reserve, now).value;
    VaultValueFits(m.(reserve := r));
    if r.shareSupply > 0 {
      ValueMonotone(r, m.reserve, m.shareVault);
    }
    var current := Value(r, m.shareVault);
    if current > m.strategy.lastSettledUnderlying {
      YieldAttributionIsTight(m.strategy, current - m.strategy.lastSettledUnderlying);
    }
  }

  /** What an accrual finds beyond the tracked value is split by the registered share; a loss, or no
      change, is attributed to nobody. */
  lemma AccrualSplitsYield(m: Market, now: i64)
    requires StrategyAccrued(m, now).Ok?
    ensures var s, s' := m.strategy, StrategyAccrued(m, now).value.strategy;
            && (s'.lastSettledUnderlying > s.lastSettledUnderlying ==>
                  SplitByShare(s, s', s'.lastSettledUnderlying - s.lastSettledUnderlying))
            && (s'.lastSettledUnderlying <= s.lastSettledUnderlying ==>
                  s' == s.(lastSettledUnderlying := s'.lastSettledUnderlying))
            && s'.totalUserShares == s.totalUserShares && s'.protocolYieldShareBps == s.protocolYieldShareBps
  {
    hide MulDiv, SplitByShare, Accrued;
    var s, s' := m.strategy, StrategyAccrued(m, now).value.strategy;
    if s'.lastSettledUnderlying > s.lastSettledUnderlying {
      var delta := s'.lastSettledUnderlying - s.lastSettledUnderlying;
      YieldIsSplit(s, delta);
      SplitIgnoresTracked(s, YieldApplied(s, delta).value, s', delta);
    }
  }

  lemma SplitIgnoresTracked(s: StrategyState, s1: StrategyState, s2: StrategyState, delta: nat)
    requires SplitByShare(s, s1, delta)
    requires s2.protocolOwedUnderlying == s1.protocolOwedUnderlying && s2.userIndex == s1.userIndex
    ensures SplitByShare(s, s2, delta)
  {
  }

  lemma AccrualKeepsCovered(m: Market, now: i64)
    requires Covered(m) && StrategyAccrued(m, now).Ok?
    ensures Covered(StrategyAccrued(m, now).value)
  {
    AccrualOutcome(m, now);
  }

  /** An accrual is refused for insolvency exactly when the real value is below what was owed. */
  lemma AccrualRefusedExactlyWhen(m: Market, now: i64)
    requires Tracked(m) && StrategyAccrued(m, now).Ok?
    requires m.strategy.totalUserShares * m.strategy.userIndex < TWO128 && Owed(m.strategy) < TWO64
    ensures YieldAccrued(m, now) == Err(SolvencyInvariantBroken)
            <==> VaultValue(StrategyAccrued(m, now).value) < Owed(m.strategy)
  {
    AccrualOutcome(m, now);
    var m1 := StrategyAccrued(m, now).value;
    SolvencyVerdict(m1.strategy, m1.strategy.lastSettledUnderlying);
    if VaultValue(m1) < Owed(m.strategy) {
      assert m1.strategy == m.strategy.(lastSettledUnderlying := VaultValue(m1));
    }
  }

  // ----- deposits

  /** A deposit keeps the tracked value above what is owed; the real value trails the tracked one
      by less than the price of one share plus one. */
  lemma DepositOutcome(m: Market, now: i64, amount: u64)
    requires Sane(m) && Fresh(m) && Accrued(m.reserve, now) == Ok(m.reserve)
    requires amount > 0 && DepositInto(m, now, amount).Ok?
    ensures var (m', shares) := DepositInto(m, now, amount).value;
            && Sane(m') && Within(m') && (Tracked(m) ==> Tracked(m'))
            && m'.strategy.userIndex == m.strategy.userIndex
            && Owed(m'.strategy) <= Owed(m.strategy) + amount
            && m'.strategy.lastSettledUnderlying == m.strategy.lastSettledUnderlying + amount
            && (m.reserve.shareSupply > 0 ==>
                  (m'.strategy.lastSettledUnderlying - VaultValue(m')) * m.reserve.shareSupply
                  < m.reserve.totalUnderlying + m.reserve.shareSupply)
            && (m.shareVault == m.reserve.shareSupply ==>
                  m'.shareVault == m'.reserve.shareSupply && Fresh(m'))
  {
    var (m', shares) := DepositInto(m, now, amount).value;
    var (r, minted) := Deposited(m.reserve, now, amount).value;
    var c, t, p := m.shareVault, m.reserve.totalUnderlying, m.reserve.shareSupply;
    VaultValueFits(m);
    DepositKeepsSound(m.reserve, now, amount);
    DepositNeverConvertsBackToMore(m.strategy, amount);
    WorthOfAdded(m.strategy.totalUserShares, shares, m.strategy.userIndex, amount);
    if p > 0 {
      DepositBuysEnough(c, t, p, amount, minted, VaultValue(m'));
    }
    if c == p {
      WholeValue(m);
      WholeValue(m');
    }
  }

  /** After a deposit of `amount` at the present rate and index the vault would still be worth what
      is then owed: only quantities known before the call. */
  ghost predicate DepositFits(m: Market, amount: u64) {
    var index := m.strategy.userIndex;
    var minted, shares := SharesFor(m.reserve, amount), MulDiv(amount, TWO64, index);
    (Worth(m.strategy.totalUserShares + shares, index) + m.strategy.protocolOwedUnderlying)
    * (m.reserve.shareSupply + minted)
    <= (m.shareVault + minted) * (m.reserve.totalUnderlying + amount)
  }

  /** The real value after a deposit covers what is owed exactly when the deposit fits. */
  lemma DepositCoversExactlyWhen(m: Market, now: i64, amount: u64)
    requires Accrued(m.reserve, now) == Ok(m.reserve) && DepositInto(m, now, amount).Ok?
    ensures var m' := DepositInto(m, now, amount).value.0;
            VaultValue(m') >= Owed(m'.strategy) <==> DepositFits(m, amount)
  {
    hide MulDiv;
    var m' := DepositInto(m, now, amount).value.0;
    var minted := SharesFor(m.reserve, amount);
    CoversExactlyWhen(m.shareVault + minted, m.reserve.totalUnderlying + amount, m.reserve.shareSupply + minted,
                      Owed(m'.strategy));
  }

  lemma CoversExactlyWhen(c: nat, t: nat, p: nat, owed: nat)
    requires p > 0
    ensures MulDiv(c, t, p) >= owed <==> owed * p <= c * t
  {
    if owed * p <= c * t {
      FloorIsLargest(c, t, p, owed);
    } else {
      FloorBelow(c, t, p, owed - 1);
    }
  }

  /** Whoever holds every share holds everything. */
  lemma WholeValue(m: Market)
    requires Sane(m) && m.shareVault == m.reserve.shareSupply
    ensures VaultValue(m) == m.reserve.totalUnderlying
  {
    var t, p := m.reserve.totalUnderlying, m.reserve.shareSupply;
    if p > 0 {
      FloorIsLargest(p, t, p, t);
      FloorBelow(p, t, p, t);
    }
  }

  // ----- redemptions

  /** `request` was paid out by burning `burnt` shares priced at the snapshot `t`/`p`. */
  ghost predicate Redeemed1(m: Market, m': Market, request: nat, burnt: nat, paid: nat, t: nat, p: nat) {
    && Sane(m') && m'.strategy == m.strategy
    && m'.shareVault == m.shareVault - burnt
    && m'.reserve.shareSupply == m.reserve.shareSupply - burnt
    && m'.reserve.totalUnderlying == m.reserve.totalUnderlying - paid
    && paid <= request && (request - paid) * p < t + p
    && PriceAtLeast(m'.reserve, m.reserve)
    && (burnt == 0 ==> paid == 0)
    && (burnt > 0 ==> paid == MulDiv(burnt, m.reserve.totalUnderlying, m.reserve.shareSupply))
  }

  /** One redemption for `request`, at the snapshot `t`/`p` taken earlier in the same handler. */
  lemma RedemptionOutcome(m: Market, now: i64, request: u64, cusdc: u64, t: nat, p: nat)
    requires Sane(m) && Accrued(m.reserve, now) == Ok(m.reserve)
    requires t > 0 && p > 0 && cusdc == MulDiv(request, p, t)
    requires SlightlyLater(t, p, m.reserve.totalUnderlying, m.reserve.shareSupply)
    requires RedeemIfAny(m, now, request, cusdc).Ok?
    ensures var (m', paid) := RedeemIfAny(m, now, request, cusdc).value;
            Redeemed1(m, m', request, cusdc, paid, t, p) && Accrued(m'.reserve, now) == Ok(m'.reserve)
  {
    if request > 0 && cusdc > 0 {
      RedemptionKeepsSound(m.reserve, now, cusdc);
      PayoutBounds(t, p, request, m.reserve.totalUnderlying, m.reserve.shareSupply);
    } else {
      assert request * p < t;
      if request == 0 {
        FloorBelow(0, p, t, 0);
      }
    }
  }

  /** A redemption of what the vault holds is never refused for lack of shares. */
  lemma RedemptionSucceeds(m: Market, now: i64, request: u64, cusdc: u64)
    requires Sane(m) && Accrued(m.reserve, now) == Ok(m.reserve) && cusdc <= m.shareVault
    ensures RedeemIfAny(m, now, request, cusdc).Ok?
  {
    if request > 0 && cusdc > 0 {
      RedemptionKeepsBacking(m.reserve.totalUnderlying, m.reserve.shareSupply, cusdc);
    }
  }

  /** Burning at most `request` worth leaves a vault that lost at most `request`. */
  lemma VaultLosesAtMost(m: Market, m': Market, request: nat)
    requires Sane(m) && Sane(m') && m'.shareVault <= m.shareVault
    requires m.reserve.shareSupply > 0 && PriceAtLeast(m'.reserve, m.reserve)
    requires (m.shareVault - m'.shareVault) * m.reserve.totalUnderlying <= request * m.reserve.shareSupply
    ensures VaultValue(m') + request >= VaultValue(m)
  {
    RedeemLeavesEnough(m.shareVault, m.reserve.totalUnderlying, m.reserve.shareSupply,
                       m.shareVault - m'.shareVault, request,
                       m'.reserve.totalUnderlying, m'.reserve.shareSupply);
  }

  /** Paying out shares releases at least what they were worth from what is owed. */
  lemma SharesLeave(s: StrategyState, shares: u64, s': StrategyState)
    requires shares <= s.totalUserShares
    requires s'.totalUserShares == s.totalUserShares - shares && s'.userIndex == s.userIndex
    requires s'.protocolOwedUnderlying == s.protocolOwedUnderlying
    ensures Owed(s') + Worth(shares, s.userIndex) <= Owed(s)
  {
    WorthSplits(s.totalUserShares - shares, shares, s.userIndex);
  }

  /** The two redemptions of a withdrawal. */
  ghost predicate PaidOut(m: Market, m': Market, p: Payout) {
    var t, s := m.reserve.totalUnderlying, m.reserve.shareSupply;
    && p.fee <= p.gross
    && p.netPaid <= p.gross - p.fee && p.feePaid <= p.fee
    && (p.gross > 0 ==>
          && (p.gross - p.fee - p.netPaid) * s < t + s
          && (p.fee - p.feePaid) * s < t + s)
    && m'.reserve.totalUnderlying == t - p.netPaid - p.feePaid
    && m.shareVault - m'.shareVault == s - m'.reserve.shareSupply
  }

  /** Both burns together cost at most the sum of the requests. */
  lemma BothBurnsCost(t: nat, s: nat, net: nat, fee: nat)
    requires t > 0
    ensures (MulDiv(net, s, t) + MulDiv(fee, s, t)) * t <= (net + fee) * s
  {
    var burnNet, burnFee := MulDiv(net, s, t), MulDiv(fee, s, t);
    assert (burnNet + burnFee) * t == burnNet * t + burnFee * t;
    assert (net + fee) * s == net * s + fee * s;
  }

  lemma TwoRedemptions(m: Market, now: i64, net: u64, fee: u64, m1: Market, m2: Market, p: Payout)
    requires Sane(m) && Accrued(m.reserve, now) == Ok(m.reserve)
    requires 0 < net + fee && p.gross == net + fee && p.fee == fee
    requires m.reserve.totalUnderlying > 0 && m.reserve.shareSupply > 0
    requires var t, s := m.reserve.totalUnderlying, m.reserve.shareSupply;
             && MulDiv(net, s, t) < TWO64 && MulDiv(fee, s, t) < TWO64
             && RedeemIfAny(m, now, net, MulDiv(net, s, t)) == Ok((m1, p.netPaid))
             && RedeemIfAny(m1, now, fee, MulDiv(fee, s, t)) == Ok((m2, p.feePaid))
    ensures Sane(m2) && PaidOut(m, m2, p) && m2.strategy == m.strategy
    ensures VaultValue(m2) + p.gross >= VaultValue(m)
  {
    hide RedeemIfAny, Accrued, SlightlyLater, MulDiv, Redeemed1, PaidOut;
    var t, s := m.reserve.totalUnderlying, m.reserve.shareSupply;
    var burnNet, burnFee := MulDiv(net, s, t), MulDiv(fee, s, t);
    BothBurnsCost(t, s, net, fee);
    SameRateIsSlightlyLater(t, s);
    RedemptionOutcome(m, now, net, burnNet, t, s);
    AfterFirst(m, m1, net, burnNet, p.netPaid);
    RedemptionOutcome(m1, now, fee, burnFee, t, s);
    AfterBoth(m, m1, m2, burnNet, burnFee, p);
  }

  lemma AfterFirst(m: Market, m1: Market, net: nat, burnNet: nat, paid: nat)
    requires Sane(m) && m.reserve.shareSupply > 0
    requires Redeemed1(m, m1, net, burnNet, paid, m.reserve.totalUnderlying, m.reserve.shareSupply)
    ensures Sane(m1) && m1.shareVault == m.shareVault - burnNet
    ensures SlightlyLater(m.reserve.totalUnderlying, m.reserve.shareSupply,
                          m1.reserve.totalUnderlying, m1.reserve.shareSupply)
  {
    if burnNet > 0 {
      RateAfterRedemption(m.reserve.totalUnderlying, m.reserve.shareSupply, burnNet);
    }
  }

  lemma AfterBoth(m: Market, m1: Market, m2: Market, burnNet: nat, burnFee: nat, p: Payout)
    requires Sane(m) && m.reserve.shareSupply > 0 && p.fee <= p.gross
    requires (burnNet + burnFee) * m.reserve.totalUnderlying <= p.gross * m.reserve.shareSupply
    requires var t, s := m.reserve.totalUnderlying, m.reserve.shareSupply;
             && Redeemed1(m, m1, p.gross - p.fee, burnNet, p.netPaid, t, s)
             && Redeemed1(m1, m2, p.fee, burnFee, p.feePaid, t, s)
    ensures Sane(m2) && PaidOut(m, m2, p) && m2.strategy == m.strategy
    ensures VaultValue(m2) + p.gross >= VaultValue(m)
  {
    hide MulDiv, VaultValue;
    assert m.shareVault - m2.shareVault == burnNet + burnFee;
    PricesChain(m, m1, m2);
    VaultLosesAtMost(m, m2, p.gross);
  }

  lemma PricesChain(m: Market, m1: Market, m2: Market)
    requires PriceAtLeast(m1.reserve, m.reserve) && PriceAtLeast(m2.reserve, m1.reserve)
    requires Sane(m1) && Sane(m2) && m2.reserve.shareSupply <= m1.reserve.shareSupply
    ensures PriceAtLeast(m2.reserve, m.reserve)
  {
    if m1.reserve.shareSupply > 0 {
      PriceTransitive(m2.reserve, m1.reserve, m.reserve);
    }
  }

  /** What a withdrawal does to any market: each of its two recipients gets at most what was
      computed and is short of it by less than t/p + 1, the vault loses at most the gross amount, and
      the tracked value falls by it, to zero at the least. */
  lemma WithdrawalEffect(m: Market, now: i64, shares: u64, feeBps: FeeBps, decimals: u8)
    requires Sane(m) && Accrued(m.reserve, now) == Ok(m.reserve)
    requires WithdrawFrom(m, now, shares, feeBps, decimals).Ok?
    ensures var (m', p) := WithdrawFrom(m, now, shares, feeBps, decimals).value;
            && Sane(m') && PaidOut(m, m', p) && VaultValue(m') + p.gross >= VaultValue(m)
            && p.gross == Worth(shares, m.strategy.userIndex)
            && m'.strategy.lastSettledUnderlying == SaturatingSub(m.strategy.lastSettledUnderlying, p.gross)
            && m'.strategy.userIndex == m.strategy.userIndex
            && m'.strategy.totalUserShares == m.strategy.totalUserShares - shares
            && m'.strategy.protocolOwedUnderlying == m.strategy.protocolOwedUnderlying
            && Owed(m'.strategy) + p.gross <= Owed(m.strategy)
  {
    hide RedeemIfAny, Accrued, PaidOut, MulDiv, Value;
    var (m', p) := WithdrawFrom(m, now, shares, feeBps, decimals).value;
    SharesLeave(m.strategy, shares, m'.strategy);
    if p.gross == 0 {
      NothingToRedeem(m, now, UsdcToCusdcRoundDown(0, SnapshotOf(m.reserve)).value);
      NothingPaid(m, m', p);
    } else {
      var t, s := m.reserve.totalUnderlying, m.reserve.shareSupply;
      var net := p.gross - p.fee;
      assert net > 0 || p.fee > 0;
      ZeroBurn(net, s, t);
      ZeroBurn(p.fee, s, t);
      var (m1, netPaid) := RedeemIfAny(m, now, net, MulDiv(net, s, t)).value;
      var (m2, feePaid) := RedeemIfAny(m1, now, p.fee, MulDiv(p.fee, s, t)).value;
      TwoRedemptions(m, now, net, p.fee, m1, m2, p);
      SamePayout(m, m2, m', p);
    }
  }

  /** A withdrawal from a covered market stays covered, never saturates, and pays each of its two
      recipients at most what it computed and short of it by less than t/p + 1. */
  lemma WithdrawalOutcome(m: Market, now: i64, shares: u64, feeBps: FeeBps, decimals: u8)
    requires Covered(m) && Fresh(m) && Accrued(m.reserve, now) == Ok(m.reserve)
    requires WithdrawFrom(m, now, shares, feeBps, decimals).Ok?
    ensures var (m', p) := WithdrawFrom(m, now, shares, feeBps, decimals).value;
            && Covered(m') && Within(m') && PaidOut(m, m', p)
            && p.gross == Worth(shares, m.strategy.userIndex) <= m.strategy.lastSettledUnderlying
            && m'.strategy.lastSettledUnderlying == m.strategy.lastSettledUnderlying - p.gross <= VaultValue(m')
            && m'.strategy.userIndex == m.strategy.userIndex
            && m'.strategy.totalUserShares == m.strategy.totalUserShares - shares
            && m'.strategy.protocolOwedUnderlying == m.strategy.protocolOwedUnderlying
  {
    hide WithdrawFrom, PaidOut, VaultValue, Owed, Worth;
    WithdrawalEffect(m, now, shares, feeBps, decimals);
    WithinVault(WithdrawFrom(m, now, shares, feeBps, decimals).value.0);
  }

  lemma WithinVault(m: Market)
    ensures Sane(m) && m.strategy.lastSettledUnderlying <= VaultValue(m) ==> Within(m)
  {
    if Sane(m) {
      VaultValueFits(m);
    }
  }

  lemma ZeroBurn(request: u64, s: u64, t: u64)
    requires t > 0
    ensures UsdcToCusdcRoundDown(request, Snapshot(t, s)).Ok? ==>
              UsdcToCusdcRoundDown(request, Snapshot(t, s)).value == MulDiv(request, s, t)
  {
    if request == 0 {
      FloorBelow(0, s, t, 0);
    }
  }

  lemma SamePayout(m: Market, m2: Market, m': Market, p: Payout)
    requires PaidOut(m, m2, p) && m'.reserve == m2.reserve && m'.shareVault == m2.shareVault
    ensures PaidOut(m, m', p) && VaultValue(m') == VaultValue(m2) && (Sane(m2) <==> Sane(m'))
  {
  }

  lemma NothingToRedeem(m: Market, now: i64, cusdc: u64)
    ensures RedeemIfAny(m, now, 0, cusdc) == Ok((m, 0))
  {
  }

  lemma NothingPaid(m: Market, m': Market, p: Payout)
    requires p.gross == 0 && p.fee == 0 && p.netPaid == 0 && p.feePaid == 0
    requires m'.reserve == m.reserve && m'.shareVault == m.shareVault
    ensures PaidOut(m, m', p) && VaultValue(m') == VaultValue(m) && (Sane(m) <==> Sane(m'))
  {
  }

  /** One redemption out of the vault, refused unless it burns shares that the vault holds. */
  lemma ClaimPaid(m: Market, now: i64, request: u64, cusdc: u64)
    requires Sane(m) && Accrued(m.reserve, now) == Ok(m.reserve)
    requires request > 0
    requires UsdcToCusdcRoundDown(request, SnapshotOf(m.reserve)) == Ok(cusdc)
    requires RedeemFromVault(m, now, cusdc).Ok?
    ensures var (m', paid) := RedeemFromVault(m, now, cusdc).value;
            && Redeemed1(m, m', request, cusdc, paid, m.reserve.totalUnderlying, m.reserve.shareSupply)
            && Sane(m') && VaultValue(m') + request >= VaultValue(m)
            && m.reserve.shareSupply > 0 && cusdc > 0
            && paid == MulDiv(cusdc, m.reserve.totalUnderlying, m.reserve.shareSupply)
  {
    hide MulDiv, VaultValue;
    SameRateIsSlightlyLater(m.reserve.totalUnderlying, m.reserve.shareSupply);
    RedemptionOutcome(m, now, request, cusdc, m.reserve.totalUnderlying, m.reserve.shareSupply);
    VaultLosesAtMost(m, RedeemFromVault(m, now, cusdc).value.0, request);
  }

  // ----- whole handlers, from a covered market

  lemma AccrualErrors(m: Market, now: i64)
    ensures StrategyAccrued(m, now) != Err(SolvencyInvariantBroken)
  {
    hide MulDiv;
  }

  lemma AccrualIsSafe(m: Market, now: i64)
    requires Covered(m)
    ensures YieldAccrued(m, now) != Err(SolvencyInvariantBroken)
    ensures YieldAccrued(m, now).Ok? ==>
              Covered(YieldAccrued(m, now).value) && Within(YieldAccrued(m, now).value)
  {
    hide Owed, VaultValue, StrategyAccrued;
    AccrualErrors(m, now);
    if StrategyAccrued(m, now).Ok? {
      AccrualKeepsCovered(m, now);
      AccrualOutcome(m, now);
      var m1 := StrategyAccrued(m, now).value;
      SolvencyVerdict(m1.strategy, m1.strategy.lastSettledUnderlying);
    }
  }

  /** A withdrawal by any holder keeps the market covered and is never refused for insolvency. */
  lemma WithdrawalIsSafe(m: Market, now: i64, shares: u64, feeBps: FeeBps, decimals: u8)
    requires Covered(m)
    ensures YieldWithdrawn(m, now, shares, feeBps, decimals) != Err(SolvencyInvariantBroken)
    ensures YieldWithdrawn(m, now, shares, feeBps, decimals).Ok? ==>
              var m' := YieldWithdrawn(m, now, shares, feeBps, decimals).value.0;
              Covered(m') && Within(m')
  {
    hide WithdrawFrom, Owed;
    if StrategyAccrued(m, now).Ok? {
      AccrualKeepsCovered(m, now);
      AccrualOutcome(m, now);
      var m1 := StrategyAccrued(m, now).value;
      VaultValueFits(m1);
      SolvencyVerdict(m1.strategy, m1.strategy.lastSettledUnderlying);
      WithdrawFromErrors(m1, now, shares, feeBps, decimals);
      if WithdrawFrom(m1, now, shares, feeBps, decimals).Ok? {
        WithdrawalOutcome(m1, now, shares, feeBps, decimals);
        var m2 := WithdrawFrom(m1, now, shares, feeBps, decimals).value.0;
        SolvencyVerdict(m2.strategy, m2.strategy.lastSettledUnderlying);
      }
    }
  }

  lemma WithdrawFromErrors(m: Market, now: i64, shares: u64, feeBps: FeeBps, decimals: u8)
    ensures WithdrawFrom(m, now, shares, feeBps, decimals) != Err(SolvencyInvariantBroken)
  {
  }

  /** The payment of a claim takes exactly the claimed amount off what is owed and off the tracked
      value, without saturating. */
  lemma ClaimOutcome(m: Market, now: i64, amount: u64)
    requires Covered(m) && Fresh(m) && Accrued(m.reserve, now) == Ok(m.reserve)
    requires amount > 0 && ClaimFrom(m, now, amount).Ok?
    ensures var (m', paid) := ClaimFrom(m, now, amount).value;
            && Covered(m') && Within(m')
            && m'.strategy == m.strategy.(
                 protocolOwedUnderlying := m.strategy.protocolOwedUnderlying - amount,
                 lastSettledUnderlying := m.strategy.lastSettledUnderlying - amount)
            && paid <= amount
            && (amount - paid) * m.reserve.shareSupply < m.reserve.totalUnderlying + m.reserve.shareSupply
  {
    hide RedeemFromVault, UsdcToCusdcRoundDown, Value, MulDiv;
    var cusdc := UsdcToCusdcRoundDown(amount, SnapshotOf(m.reserve)).value;
    ClaimPaid(m, now, amount, cusdc);
    SameReserve(RedeemFromVault(m, now, cusdc).value.0, ClaimFrom(m, now, amount).value.0);
    WithinVault(ClaimFrom(m, now, amount).value.0);
  }

  lemma ClaimErrors(m: Market, now: i64, amount: u64)
    ensures ClaimFrom(m, now, amount) != Err(SolvencyInvariantBroken)
  {
  }

  lemma ClaimIsSafe(m: Market, now: i64, amount: u64)
    requires Covered(m)
    ensures ProtocolClaimed(m, now, amount) != Err(SolvencyInvariantBroken)
    ensures ProtocolClaimed(m, now, amount).Ok? ==>
              var m' := ProtocolClaimed(m, now, amount).value.0;
              Covered(m') && Within(m')
  {
    hide ClaimFrom, Owed;
    if amount > 0 && StrategyAccrued(m, now).Ok? {
      AccrualKeepsCovered(m, now);
      AccrualOutcome(m, now);
      var m1 := StrategyAccrued(m, now).value;
      ClaimErrors(m1, now, amount);
      if ClaimFrom(m1, now, amount).Ok? {
        ClaimOutcome(m1, now, amount);
        var m2 := ClaimFrom(m1, now, amount).value.0;
        SolvencyVerdict(m2.strategy, m2.strategy.lastSettledUnderlying);
      }
    }
  }

  lemma SameReserve(m: Market, m': Market)
    requires m'.reserve == m.reserve && m'.shareVault == m.shareVault
    ensures VaultValue(m') == VaultValue(m) && (Sane(m) <==> Sane(m'))
  {
  }

  /** How an opt-out is put together. */
  lemma OptOutParts(m: Market, now: i64, shares: u64)
    requires OptOutFrom(m, now, shares).Ok?
    ensures var owed := Worth(shares, m.strategy.userIndex);
            && 0 < owed < TWO64 && shares <= m.strategy.totalUserShares
            && UsdcToCusdcRoundDown(owed, SnapshotOf(m.reserve)).Ok?
            && var cusdc := UsdcToCusdcRoundDown(owed, SnapshotOf(m.reserve)).value;
            && cusdc > 0 && RedeemFromVault(m, now, cusdc).Ok?
            && var (m1, paid) := RedeemFromVault(m, now, cusdc).value;
            && var (m', received, paid') := OptOutFrom(m, now, shares).value;
            && CusdcToUsdc(cusdc, SnapshotOf(m.reserve)) == Ok(received) && paid' == paid
            && m' == m1.(strategy := m.strategy.(
                 totalUserShares := m.strategy.totalUserShares - shares,
                 lastSettledUnderlying := SaturatingSub(m.strategy.lastSettledUnderlying, received)))
  {
    hide RedeemFromVault, UsdcToCusdcRoundDown, CusdcToUsdc, MulDiv;
  }

  /** The credit an opt-out computes in advance is what the reserve pays; the tracked value falls by
      exactly that, and at most by what the shares were worth. */
  lemma OptOutOutcome(m: Market, now: i64, shares: u64)
    requires Covered(m) && Fresh(m) && Accrued(m.reserve, now) == Ok(m.reserve)
    requires OptOutFrom(m, now, shares).Ok?
    ensures var (m', received, paid) := OptOutFrom(m, now, shares).value;
            && Covered(m') && Within(m')
            && received == paid <= Worth(shares, m.strategy.userIndex)
            && (Worth(shares, m.strategy.userIndex) - paid) * m.reserve.shareSupply
               < m.reserve.totalUnderlying + m.reserve.shareSupply
            && m'.strategy.totalUserShares == m.strategy.totalUserShares - shares
            && m'.strategy.lastSettledUnderlying == m.strategy.lastSettledUnderlying - received
            && m'.strategy.userIndex == m.strategy.userIndex
            && m'.strategy.protocolOwedUnderlying == m.strategy.protocolOwedUnderlying
  {
    hide RedeemFromVault, VaultValue, MulDiv, OptOutFrom, UsdcToCusdcRoundDown, Redeemed1, Worth, Owed, Sane;
    OptOutParts(m, now, shares);
    var (m', received, paid) := OptOutFrom(m, now, shares).value;
    SharesLeave(m.strategy, shares, m'.strategy);
    var owed := Worth(shares, m.strategy.userIndex);
    var cusdc := UsdcToCusdcRoundDown(owed, SnapshotOf(m.reserve)).value;
    var m1 := RedeemFromVault(m, now, cusdc).value.0;
    assert owed <= VaultValue(m);
    ClaimPaid(m, now, owed, cusdc);
    SameReserve(m1, m');
    PaidWithin(m, m1, owed, cusdc, paid);
    VaultValueFits(m);
    StaysCovered(m, m', owed, received);
  }

  lemma PaidWithin(m: Market, m1: Market, owed: nat, cusdc: nat, paid: nat)
    requires Redeemed1(m, m1, owed, cusdc, paid, m.reserve.totalUnderlying, m.reserve.shareSupply)
    ensures paid <= owed && m1.reserve.totalUnderlying == m.reserve.totalUnderlying - paid
    ensures (owed - paid) * m.reserve.shareSupply < m.reserve.totalUnderlying + m.reserve.shareSupply
  {
  }

  lemma StaysCovered(m: Market, m': Market, owed: nat, received: u64)
    requires Covered(m) && Sane(m') && received <= owed
    requires Owed(m'.strategy) + owed <= Owed(m.strategy) && VaultValue(m') + owed >= VaultValue(m)
    requires m'.strategy.lastSettledUnderlying == SaturatingSub(m.strategy.lastSettledUnderlying, received)
    ensures Covered(m') && received <= m.strategy.lastSettledUnderlying
  {
  }

  lemma OptOutErrors(m: Market, now: i64, shares: u64)
    ensures OptOutFrom(m, now, shares) != Err(SolvencyInvariantBroken)
  {
  }

  lemma OptOutIsSafe(m: Market, now: i64, shares: u64)
    requires Covered(m)
    ensures OptedOut(m, now, shares) != Err(SolvencyInvariantBroken)
    ensures OptedOut(m, now, shares).Ok? ==>
              var (m', received, paid) := OptedOut(m, now, shares).value;
              Covered(m') && Within(m') && received == paid
  {
    hide OptOutFrom, Owed;
    if shares > 0 && StrategyAccrued(m, now).Ok? {
      AccrualKeepsCovered(m, now);
      AccrualOutcome(m, now);
      var m1 := StrategyAccrued(m, now).value;
      OptOutErrors(m1, now, shares);
      if OptOutFrom(m1, now, shares).Ok? {
        OptOutOutcome(m1, now, shares);
        var m2 := OptOutFrom(m1, now, shares).value.0;
        SolvencyVerdict(m2.strategy, m2.strategy.lastSettledUnderlying);
      }
    }
  }

  /** The real value exceeds what is owed by at least the price of a share plus one. */
  ghost predicate Cushioned(m: Market) {
    && m.reserve.shareSupply > 0
    && (VaultValue(m) - Owed(m.strategy)) * m.reserve.shareSupply
       >= m.reserve.totalUnderlying + m.reserve.shareSupply
  }

  /** A deposit or opt-in into a covered market keeps what is tracked above what is owed and is never
      refused for insolvency. It keeps the market covered exactly when it fits, which it does for
      the sole holder and with a cushion of one share price plus one. */
  lemma DepositIsSafe(m: Market, now: i64, amount: u64)
    requires Covered(m)
    ensures YieldDeposited(m, now, amount) != Err(SolvencyInvariantBroken)
    ensures YieldDeposited(m, now, amount).Ok? ==>
              var m1 := StrategyAccrued(m, now).value;
              var m' := YieldDeposited(m, now, amount).value.0;
              && Tracked(m') && Within(m')
              && (m1.reserve.shareSupply > 0 ==>
                    (m'.strategy.lastSettledUnderlying - VaultValue(m')) * m1.reserve.shareSupply
                    < m1.reserve.totalUnderlying + m1.reserve.shareSupply)
              && (Covered(m') <==> DepositFits(m1, amount))
              && (Cushioned(m1) ==> Covered(m'))
              && (m1.shareVault == m1.reserve.shareSupply ==>
                    Covered(m') && m'.shareVault == m'.reserve.shareSupply)
  {
    hide DepositInto, VaultValue, Owed, DepositFits;
    if amount > 0 && StrategyAccrued(m, now).Ok? {
      AccrualKeepsCovered(m, now);
      AccrualOutcome(m, now);
      var m1 := StrategyAccrued(m, now).value;
      DepositErrors(m1, now, amount);
      if DepositInto(m1, now, amount).Ok? {
        DepositOutcome(m1, now, amount);
        DepositCoversExactlyWhen(m1, now, amount);
        var m2 := DepositInto(m1, now, amount).value.0;
        SolvencyVerdict(m2.strategy, m2.strategy.lastSettledUnderlying);
        Cushion(m1, m2, amount);
      }
    }
  }

  lemma Cushion(m1: Market, m2: Market, amount: nat)
    requires Fresh(m1) && m1.reserve.shareSupply > 0 ==>
               (VaultValue(m1) + amount - VaultValue(m2)) * m1.reserve.shareSupply
               < m1.reserve.totalUnderlying + m1.reserve.shareSupply
    requires Fresh(m1) && Owed(m2.strategy) <= Owed(m1.strategy) + amount
    ensures Cushioned(m1) ==> VaultValue(m2) >= Owed(m2.strategy)
  {
    hide VaultValue, Owed;
    var p := m1.reserve.shareSupply;
    if p > 0 && VaultValue(m2) < Owed(m2.strategy) {
      MulMonotone(VaultValue(m1) - Owed(m1.strategy), VaultValue(m1) + amount - VaultValue(m2), p);
    }
  }

  lemma DepositErrors(m: Market, now: i64, amount: u64)
    ensures DepositInto(m, now, amount) != Err(SolvencyInvariantBroken)
  {
  }
}
