/** Other holders in the reserve: how far the real value of the share vault can fall below what is
    owed, over every run. */
module Slippage {
  import opened Machine
  import opened Rounding
  import opened Fees
  import opened MockYield
  import opened ReservePrice
  import opened YieldStrategies
  import opened YieldBearing
  import opened Redemption
  import opened Solvency
  import opened SolvencyRuns

  /** What is owed exceeds `value` by less than the price of one share of `t`/`p` plus one. */
  ghost predicate NearlyWorth(value: nat, owed: nat, t: nat, p: nat) {
    value < owed ==> (owed - value) * p < t + p
  }

  /** The tracked value covers what is owed, and the real value misses it by less than T/P + 1. */
  ghost predicate Slight(m: Market) {
    && Tracked(m)
    && NearlyWorth(VaultValue(m), Owed(m.strategy), m.reserve.totalUnderlying, m.reserve.shareSupply)
    && (VaultValue(m) < Owed(m.strategy) ==> m.shareVault > 0)
  }

  lemma CoveredIsSlight(m: Market)
    ensures Covered(m) ==> Slight(m)
  {
  }

  /** The bound is kept by a higher value at a price that has not fallen. */
  lemma NearnessKept(v: nat, owed: nat, t: nat, p: nat, v': nat, owed': nat, t': nat, p': nat)
    requires p > 0 && p' > 0 && t * p' <= t' * p
    requires owed - v >= owed' - v' && NearlyWorth(v, owed, t, p)
    ensures NearlyWorth(v', owed', t', p')
  {
    if v' < owed' {
      var d := owed' - v';
      MulMonotone(d, owed - v, p);
      assert (d - 1) * p < t;
      Strictly(d - 1, t, p, t', p');
    }
  }

  lemma Strictly(x: nat, t: nat, p: nat, t': nat, p': nat)
    requires p' > 0 && x * p < t && t * p' <= t' * p
    ensures x * p' < t'
  {
    StrictlyMore(x * p, t, p');
    Shuffle(x, p, p');
    if x * p' >= t' {
      MulMonotone(t', x * p', p);
    }
  }

  // ----- handlers, from any sane market

  lemma SolventMeans(s: StrategyState, v: u64)
    ensures RequireSolvent(s, v).Ok? ==> v >= Owed(s)
  {
    SolvencyVerdict(s, v);
  }

  /** Whatever the market was, a successful accrual leaves it covered. */
  lemma AccrualEndsCovered(m: Market, now: i64)
    requires Sane(m) && YieldAccrued(m, now).Ok?
    ensures Covered(YieldAccrued(m, now).value)
  {
    hide Owed, VaultValue, StrategyAccrued;
    AccrualOutcome(m, now);
    var m1 := StrategyAccrued(m, now).value;
    SolventMeans(m1.strategy, m1.strategy.lastSettledUnderlying);
  }

  /** Whatever the market was, a successful withdrawal leaves it covered. Its subtraction saturates
      exactly when the shares are worth more than the vault, and then nothing stays owed. */
  lemma WithdrawalEndsCovered(m: Market, now: i64, shares: u64, feeBps: FeeBps, decimals: u8)
    requires Sane(m) && YieldWithdrawn(m, now, shares, feeBps, decimals).Ok?
    ensures var m1 := StrategyAccrued(m, now).value;
            var (m', p) := YieldWithdrawn(m, now, shares, feeBps, decimals).value;
            && Covered(m')
            && (shares > 0 ==> p.gross == Worth(shares, m1.strategy.userIndex))
            && (p.gross <= VaultValue(m1) <==>
                  m'.strategy.lastSettledUnderlying + p.gross == m1.strategy.lastSettledUnderlying)
            && (p.gross > VaultValue(m1) ==>
                  m'.strategy.lastSettledUnderlying == 0 && Owed(m'.strategy) == 0)
  {
    hide WithdrawFrom, Owed, StrategyAccrued, VaultValue;
    AccrualOutcome(m, now);
    var m1 := StrategyAccrued(m, now).value;
    VaultValueFits(m1);
    SolventMeans(m1.strategy, m1.strategy.lastSettledUnderlying);
    if shares > 0 {
      WithdrawalEffect(m1, now, shares, feeBps, decimals);
      var m2 := WithdrawFrom(m1, now, shares, feeBps, decimals).value.0;
      SolventMeans(m2.strategy, m2.strategy.lastSettledUnderlying);
    }
  }

  lemma ClaimEffect(m: Market, now: i64, amount: u64)
    requires Sane(m) && Accrued(m.reserve, now) == Ok(m.reserve) && amount > 0 && ClaimFrom(m, now, amount).Ok?
    ensures var m' := ClaimFrom(m, now, amount).value.0;
            && Sane(m') && VaultValue(m') + amount >= VaultValue(m)
            && m'.strategy.lastSettledUnderlying == SaturatingSub(m.strategy.lastSettledUnderlying, amount)
            && Owed(m'.strategy) + amount == Owed(m.strategy)
  {
    hide RedeemFromVault, UsdcToCusdcRoundDown, Value, MulDiv;
    var cusdc := UsdcToCusdcRoundDown(amount, SnapshotOf(m.reserve)).value;
    ClaimPaid(m, now, amount, cusdc);
    SameReserve(RedeemFromVault(m, now, cusdc).value.0, ClaimFrom(m, now, amount).value.0);
  }

  /** Whatever the market was, a successful claim leaves it covered; it saturates exactly when it
      exceeds the vault's value, and then nothing stays owed. */
  lemma ClaimEndsCovered(m: Market, now: i64, amount: u64)
    requires Sane(m) && ProtocolClaimed(m, now, amount).Ok?
    ensures var m1 := StrategyAccrued(m, now).value;
            var m' := ProtocolClaimed(m, now, amount).value.0;
            && Covered(m')
            && (amount <= VaultValue(m1) <==>
                  m'.strategy.lastSettledUnderlying + amount == m1.strategy.lastSettledUnderlying)
            && (amount > VaultValue(m1) ==>
                  m'.strategy.lastSettledUnderlying == 0 && Owed(m'.strategy) == 0)
  {
    hide ClaimFrom, Owed, StrategyAccrued, VaultValue;
    AccrualOutcome(m, now);
    var m1 := StrategyAccrued(m, now).value;
    ClaimEffect(m1, now, amount);
    var m2 := ClaimFrom(m1, now, amount).value.0;
    SolventMeans(m2.strategy, m2.strategy.lastSettledUnderlying);
  }

  /** A deposit into any market leaves it slight. */
  lemma DepositEndsSlight(m: Market, now: i64, amount: u64)
    requires Sane(m) && YieldDeposited(m, now, amount).Ok?
    ensures Slight(YieldDeposited(m, now, amount).value.0)
  {
    hide DepositInto, Owed, StrategyAccrued, VaultValue;
    AccrualOutcome(m, now);
    var m1 := StrategyAccrued(m, now).value;
    DepositOutcome(m1, now, amount);
    var m2 := DepositInto(m1, now, amount).value.0;
    SolventMeans(m2.strategy, m2.strategy.lastSettledUnderlying);
    DepositRaisesPrice(m1, now, amount);
    var (t, p) := (m1.reserve.totalUnderlying, m1.reserve.shareSupply);
    if p > 0 {
      NearnessKept(VaultValue(m2), m2.strategy.lastSettledUnderlying, t, p, VaultValue(m2), Owed(m2.strategy),
                   m2.reserve.totalUnderlying, m2.reserve.shareSupply);
    }
  }

  lemma DepositRaisesPrice(m: Market, now: i64, amount: u64)
    requires Sane(m) && Accrued(m.reserve, now) == Ok(m.reserve) && DepositInto(m, now, amount).Ok?
    ensures var m' := DepositInto(m, now, amount).value.0;
            && PriceAtLeast(m'.reserve, m.reserve) && m'.shareVault > 0 && m'.reserve.shareSupply > 0
            && m.reserve.totalUnderlying * m'.reserve.shareSupply <= m'.reserve.totalUnderlying * m.reserve.shareSupply
  {
    hide MulDiv, UsdcToShares;
    DepositKeepsSound(m.reserve, now, amount);
  }

  /** Burning shares for what they are worth at the present rate costs the vault at most one unit
      more than was paid. */
  lemma BurnCostsOneMore(c: nat, t: nat, p: nat, burn: nat, t2: nat, p2: nat)
    requires p > 0 && burn <= c && c - burn <= p2 && p2 > 0 && t * p2 <= t2 * p
    ensures MulDiv(c, t, p) <= MulDiv(burn, t, p) + 1 + MulDiv(c - burn, t2, p2)
  {
    var v, paid := MulDiv(c, t, p), MulDiv(burn, t, p);
    if v > paid + 1 {
      assert (v - paid - 1) * p == v * p - paid * p - p;
      assert (c - burn) * t == c * t - burn * t;
      CrossTransitive(v - paid - 1, c - burn, t, p, t2, p2);
      FloorIsLargest(c - burn, t2, p2, v - paid - 1);
    }
  }

  /** An opt-out from any market is credited what is paid, never saturates, and costs the vault at
      most one unit more. */
  lemma OptOutEffect(m: Market, now: i64, shares: u64)
    requires Sane(m) && Fresh(m) && Accrued(m.reserve, now) == Ok(m.reserve) && OptOutFrom(m, now, shares).Ok?
    ensures var (m', received, paid) := OptOutFrom(m, now, shares).value;
            && Sane(m') && received == paid <= VaultValue(m)
            && m'.strategy.lastSettledUnderlying == m.strategy.lastSettledUnderlying - received
            && (m'.shareVault == 0 ==> received == VaultValue(m))
            && VaultValue(m') + received + 1 >= VaultValue(m)
  {
    hide RedeemFromVault, VaultValue, MulDiv, OptOutFrom, UsdcToCusdcRoundDown, Worth, Owed, Sane, Redeemed1;
    OptOutParts(m, now, shares);
    var (m', received, paid) := OptOutFrom(m, now, shares).value;
    var owed := Worth(shares, m.strategy.userIndex);
    var cusdc := UsdcToCusdcRoundDown(owed, SnapshotOf(m.reserve)).value;
    var m1 := RedeemFromVault(m, now, cusdc).value.0;
    ClaimPaid(m, now, owed, cusdc);
    SameReserve(m1, m');
    BurnFromVault(m, m1, owed, cusdc, paid);
  }

  lemma BurnFromVault(m: Market, m1: Market, owed: nat, cusdc: nat, paid: nat)
    requires Sane(m) && m.reserve.shareSupply > 0 && cusdc > 0
    requires Redeemed1(m, m1, owed, cusdc, paid, m.reserve.totalUnderlying, m.reserve.shareSupply)
    ensures paid == MulDiv(cusdc, m.reserve.totalUnderlying, m.reserve.shareSupply) <= VaultValue(m)
    ensures m1.shareVault == 0 ==> paid == VaultValue(m)
    ensures VaultValue(m1) + paid + 1 >= VaultValue(m)
  {
    var c, t, p := m.shareVault, m.reserve.totalUnderlying, m.reserve.shareSupply;
    MulMonotone(cusdc, c, t);
    FloorIsLargest(c, t, p, paid);
    if m1.shareVault > 0 {
      BurnCostsOneMore(c, t, p, cusdc, m1.reserve.totalUnderlying, m1.reserve.shareSupply);
    }
  }

  /** A successful opt-out from any market leaves a deficit of at most one unit. */
  lemma OptOutEndsSlight(m: Market, now: i64, shares: u64)
    requires Sane(m) && OptedOut(m, now, shares).Ok?
    ensures var (m', received, paid) := OptedOut(m, now, shares).value;
            Slight(m') && received == paid && Owed(m'.strategy) <= VaultValue(m') + 1
  {
    hide OptOutFrom, Owed, StrategyAccrued, VaultValue;
    AccrualOutcome(m, now);
    var m1 := StrategyAccrued(m, now).value;
    OptOutEffect(m1, now, shares);
    var m2 := OptOutFrom(m1, now, shares).value.0;
    SolventMeans(m2.strategy, m2.strategy.lastSettledUnderlying);
    OneUnitIsSlight(m2);
  }

  lemma OneUnitIsSlight(m: Market)
    requires Tracked(m) && Owed(m.strategy) <= VaultValue(m) + 1
    requires m.shareVault == 0 ==> Owed(m.strategy) == 0
    ensures Slight(m)
  {
  }

  // ----- other holders

  lemma OutsideKeepsSlight(m: Market, call: MarketCall)
    requires Slight(m) && (call.Outside? || call.Donate?) && Called(m, call).Ok?
    ensures Slight(Called(m, call).value)
  {
    match call
    case Outside(c) =>
      var m' := Called(m, call).value;
      CallKeepsSound(m.reserve, c);
      SupplyStays(m.reserve, c);
      if m'.shareVault > 0 {
        ValueMonotone(m'.reserve, m.reserve, m.shareVault);
        NearnessKept(VaultValue(m), Owed(m.strategy), m.reserve.totalUnderlying, m.reserve.shareSupply,
                     VaultValue(m'), Owed(m.strategy), m'.reserve.totalUnderlying, m'.reserve.shareSupply);
      }
    case Donate(cusdc) =>
      DonationKeepsSlight(m, cusdc);
  }

  lemma DonationKeepsSlight(m: Market, cusdc: u64)
    requires Slight(m) && Called(m, Donate(cusdc)).Ok?
    ensures Slight(Called(m, Donate(cusdc)).value)
  {
    var c, t, p := m.shareVault, m.reserve.totalUnderlying, m.reserve.shareSupply;
    if p > 0 {
      MulMonotone(c, c + cusdc, t);
      FloorIsLargest(c + cusdc, t, p, MulDiv(c, t, p));
      NearnessKept(VaultValue(m), Owed(m.strategy), t, p, MulDiv(c + cusdc, t, p), Owed(m.strategy), t, p);
    }
  }

  // ----- runs

  /** Every call leaves a slight market slight. */
  lemma CallKeepsSlight(m: Market, call: MarketCall)
    requires Slight(m)
    ensures Slight(MarketNext(m, call))
    ensures Called(m, call).Ok? && (call.Accrue? || call.Withdraw? || call.Claim?) ==> Covered(MarketNext(m, call))
  {
    hide Slight, Covered, YieldAccrued, YieldDeposited, YieldWithdrawn, ProtocolClaimed, OptedOut;
    if Called(m, call).Ok? {
      SlightIsSane(m);
      match call
      case Accrue(now) => AccrualEndsCovered(m, now); CoveredIsSlight(MarketNext(m, call));
      case Deposit(now, amount) => DepositEndsSlight(m, now, amount);
      case Withdraw(now, shares, feeBps, decimals) =>
        WithdrawalEndsCovered(m, now, shares, feeBps, decimals);
        CoveredIsSlight(MarketNext(m, call));
      case Claim(now, amount) => ClaimEndsCovered(m, now, amount); CoveredIsSlight(MarketNext(m, call));
      case OptOut(now, shares) => OptOutEndsSlight(m, now, shares);
      case Outside(_) => OutsideKeepsSlight(m, call);
      case Donate(_) => OutsideKeepsSlight(m, call);
    }
  }

  lemma SlightIsSane(m: Market)
    ensures Slight(m) ==> Sane(m)
  {
  }

  lemma {:induction false} SlightOverRuns(m: Market, calls: seq<MarketCall>)
    requires Slight(m)
    ensures Slight(MarketReached(m, calls))
    decreases |calls|
  {
    hide Slight, MarketNext;
    if calls != [] {
      CallKeepsSlight(m, calls[0]);
      SlightOverRuns(MarketNext(m, calls[0]), calls[1..]);
    }
  }

  /** From registration on, on a reserve that anyone may use, over every run of deposits, opt-ins,
      withdrawals, claims, opt-outs, accruals and steps of other holders: L covers what is owed, and
      V misses it by less than T/P + 1. */
  lemma SlipIsBounded(r: ReserveState, bps: SkimBps, calls: seq<MarketCall>)
    requires Sound(r)
    ensures var m := MarketReached(Registered(r, bps), calls);
            && m.strategy.lastSettledUnderlying >= Owed(m.strategy)
            && m.shareVault <= m.reserve.shareSupply
            && (VaultValue(m) < Owed(m.strategy) ==>
                  && m.shareVault > 0
                  && (Owed(m.strategy) - VaultValue(m)) * m.reserve.shareSupply
                     < m.reserve.totalUnderlying + m.reserve.shareSupply)
  {
    var m0 := Registered(r, bps);
    assert Worth(0, TWO64) == 0;
    assert Covered(m0);
    SlightOverRuns(m0, calls);
  }
}
