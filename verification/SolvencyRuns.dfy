/** Runs of a yield-bearing token: its own handlers, and whatever other holders do to the reserve. */
module SolvencyRuns {
  import opened Machine
  import opened Rounding
  import opened Fees
  import opened MockYield
  import opened ReservePrice
  import opened YieldStrategies
  import opened YieldBearing
  import opened Solvency

  /** `Outside` is an instruction of another account on the reserve; it can redeem only shares that
      the share vault does not hold. `Donate` moves such shares into the vault. */
  datatype MarketCall =
    | Accrue(now: i64)
    | Deposit(now: i64, amount: u64)
    | Withdraw(now: i64, shares: u64, feeBps: FeeBps, decimals: u8)
    | Claim(now: i64, amount: u64)
    | OptOut(now: i64, shares: u64)
    | Outside(call: ReserveCall)
    | Donate(cusdc: u64)

  function Called(m: Market, call: MarketCall): Result<Market> {
    match call
    case Accrue(now) => YieldAccrued(m, now)
    case Deposit(now, amount) =>
      var r :- YieldDeposited(m, now, amount);
      Ok(r.0)
    case Withdraw(now, shares, feeBps, decimals) =>
      var r :- YieldWithdrawn(m, now, shares, feeBps, decimals);
      Ok(r.0)
    case Claim(now, amount) =>
      var r :- ProtocolClaimed(m, now, amount);
      Ok(r.0)
    case OptOut(now, shares) =>
      var r :- OptedOut(m, now, shares);
      Ok(r.0)
    case Outside(c) =>
      :- Require(c.CallRedeem? ==> c.shares <= m.reserve.shareSupply - m.shareVault, InsufficientTokens);
      var r :- ReserveCalled(m.reserve, c);
      Ok(m.(reserve := r))
    case Donate(cusdc) =>
      :- Require(cusdc <= m.reserve.shareSupply - m.shareVault, InsufficientTokens);
      var vault :- Checked64(m.shareVault + cusdc);
      Ok(m.(shareVault := vault))
  }

  function MarketNext(m: Market, call: MarketCall): Market {
    match Called(m, call)
    case Ok(m') => m'
    case Err(_) => m
  }

  function MarketReached(m: Market, calls: seq<MarketCall>): Market
    decreases |calls|
  {
    if calls == [] then m else MarketReached(MarketNext(m, calls[0]), calls[1..])
  }

  // ----- what other holders can do

  lemma OutsideKeepsCovered(m: Market, call: MarketCall)
    requires Covered(m) && (call.Outside? || call.Donate?)
    ensures Covered(MarketNext(m, call)) && Called(m, call) != Err(SolvencyInvariantBroken)
  {
    match call
    case Outside(c) =>
      if Called(m, call).Ok? {
        CallKeepsSound(m.reserve, c);
        SupplyStays(m.reserve, c);
        var m' := MarketNext(m, call);
        if m'.reserve.shareSupply > 0 {
          ValueMonotone(m'.reserve, m.reserve, m.shareVault);
        } else if m.reserve.shareSupply > 0 {
          FloorBelow(0, m.reserve.totalUnderlying, m.reserve.shareSupply, 0);
        }
      }
    case Donate(cusdc) =>
      if Called(m, call).Ok? && m.reserve.shareSupply > 0 {
        var c, t, p := m.shareVault, m.reserve.totalUnderlying, m.reserve.shareSupply;
        MulMonotone(c, c + cusdc, t);
        FloorIsLargest(c + cusdc, t, p, MulDiv(c, t, p));
      }
  }

  lemma SupplyStays(r: ReserveState, c: ReserveCall)
    ensures var r' := ReservePrice.After(r, c);
            r'.shareSupply >= r.shareSupply - if c.CallRedeem? then c.shares else 0
  {
  }

  // ----- one call

  /** Every call but a deposit keeps a covered market covered, and no call from a covered market is
      refused for insolvency. */
  lemma CallFromCovered(m: Market, call: MarketCall)
    requires Covered(m)
    ensures Called(m, call) != Err(SolvencyInvariantBroken)
    ensures !call.Deposit? ==> Covered(MarketNext(m, call))
    ensures Tracked(MarketNext(m, call))
    ensures Within(m) && !call.Outside? ==> Within(MarketNext(m, call))
  {
    hide Covered, YieldAccrued, YieldDeposited, YieldWithdrawn, ProtocolClaimed, OptedOut;
    assert Covered(m) ==> Tracked(m) by { CoveredIsTracked(m); }
    CoveredIsTracked(MarketNext(m, call));
    match call
    case Accrue(now) => AccrualIsSafe(m, now);
    case Deposit(now, amount) => DepositIsSafe(m, now, amount);
    case Withdraw(now, shares, feeBps, decimals) => WithdrawalIsSafe(m, now, shares, feeBps, decimals);
    case Claim(now, amount) => ClaimIsSafe(m, now, amount);
    case OptOut(now, shares) => OptOutIsSafe(m, now, shares);
    case Outside(_) => OutsideKeepsCovered(m, call);
    case Donate(_) => OutsideKeepsCovered(m, call);
  }

  lemma CoveredIsTracked(m: Market)
    ensures Covered(m) ==> Tracked(m)
  {
  }

  ghost predicate NoDeposits(calls: seq<MarketCall>) {
    forall call :: call in calls ==> !call.Deposit?
  }

  /** With any other holders around a covered market is lost to a deposit only: until then it stays
      covered, whatever the handlers and the other holders do, and nothing is refused for
      insolvency. */
  lemma {:induction false} CoveredUntilDeposit(m: Market, calls: seq<MarketCall>, next: MarketCall)
    requires Covered(m)
    ensures Covered(MarketReached(m, calls)) || !NoDeposits(calls)
    ensures Called(MarketReached(m, calls), next) != Err(SolvencyInvariantBroken) || !NoDeposits(calls)
    decreases |calls|
  {
    if calls == [] {
      CallFromCovered(m, next);
    } else {
      CallFromCovered(m, calls[0]);
      if !calls[0].Deposit? {
        CoveredUntilDeposit(MarketNext(m, calls[0]), calls[1..], next);
      }
    }
  }

  // ----- the sole holder

  /** Nobody else deposits into the reserve. */
  ghost predicate OneDepositor(calls: seq<MarketCall>) {
    forall call :: call in calls ==> !(call.Outside? && call.call.CallDeposit?)
  }

  ghost predicate Sole(m: Market) {
    Covered(m) && Within(m) && m.shareVault == m.reserve.shareSupply
  }

  /** The strategy and the vault on the day the token is registered, on a reserve nobody uses yet. */
  function Registered(r: ReserveState, bps: SkimBps): Market {
    Market(r, StrategyState(bps, TWO64, 0, 0, 0), 0)
  }

  /** The handlers change the supply and the vault by the same number of shares. */
  lemma HandlersMoveSharesTogether(m: Market, call: MarketCall)
    requires m.shareVault == m.reserve.shareSupply
    requires !(call.Outside? && call.call.CallDeposit?)
    ensures MarketNext(m, call).shareVault == MarketNext(m, call).reserve.shareSupply
  {
    hide YieldApplied, WithdrawalFee, RequireSolvent, UsdcToCusdcRoundDown, CusdcToUsdc, SharesToUsdc, MulDiv;
    match call
    case Withdraw(now, shares, feeBps, decimals) =>
      if YieldWithdrawn(m, now, shares, feeBps, decimals).Ok? {
        WithdrawalMovesSharesTogether(m, now, shares, feeBps, decimals);
      }
    case _ =>
  }

  lemma WithdrawalMovesSharesTogether(m: Market, now: i64, shares: u64, feeBps: FeeBps, decimals: u8)
    requires m.shareVault == m.reserve.shareSupply && YieldWithdrawn(m, now, shares, feeBps, decimals).Ok?
    ensures var m' := YieldWithdrawn(m, now, shares, feeBps, decimals).value.0;
            m'.shareVault == m'.reserve.shareSupply
  {
    hide YieldApplied, WithdrawalFee, RequireSolvent, UsdcToCusdcRoundDown, CusdcToUsdc, SharesToUsdc, MulDiv;
  }

  lemma CallFromSole(m: Market, call: MarketCall)
    requires Sole(m) && !(call.Outside? && call.call.CallDeposit?)
    ensures Sole(MarketNext(m, call)) && Called(m, call) != Err(SolvencyInvariantBroken)
  {
    hide Covered, YieldDeposited;
    HandlersMoveSharesTogether(m, call);
    CallFromCovered(m, call);
    if call.Outside? && Called(m, call).Ok? && !(call.call.CallRedeem? && call.call.shares > 0) {
      NothingTaken(m.reserve, call.call);
    }
    if call.Deposit? {
      DepositIsSafe(m, call.now, call.amount);
      if YieldDeposited(m, call.now, call.amount).Ok? {
        AccruedFirst(m, call.now, call.amount);
        SoleAfterAccrual(m, call.now);
      }
    }
  }

  lemma NothingTaken(r: ReserveState, c: ReserveCall)
    requires c.CallRedeem? ==> c.shares == 0
    ensures ReservePrice.After(r, c).totalUnderlying >= r.totalUnderlying
  {
    match c
    case CallAccrue(now) => InterestIsPositive(r, now);
    case CallUpdateApy(_, now, _) => InterestIsPositive(r, now);
    case CallDeposit(now, _) => InterestIsPositive(r, now);
    case CallRedeem(_, _) =>
  }

  lemma InterestIsPositive(r: ReserveState, now: i64)
    ensures Accrued(r, now).Ok? ==> Accrued(r, now).value.totalUnderlying >= r.totalUnderlying
  {
    if r.lastAccrualTs < now {
      var yearly: nat := r.totalUnderlying * r.apyBps;
      NotNegative(yearly, now - r.lastAccrualTs);
    }
  }

  lemma NotNegative(yearly: nat, dt: nat)
    ensures (yearly * dt) / INTEREST_DENOM >= 0
  {
    Exact(yearly * dt, INTEREST_DENOM);
  }

  lemma SoleAfterAccrual(m: Market, now: i64)
    requires m.shareVault == m.reserve.shareSupply && StrategyAccrued(m, now).Ok?
    ensures var m1 := StrategyAccrued(m, now).value; m1.shareVault == m1.reserve.shareSupply
  {
  }

  lemma AccruedFirst(m: Market, now: i64, amount: u64)
    requires YieldDeposited(m, now, amount).Ok?
    ensures StrategyAccrued(m, now).Ok?
  {
  }

  lemma {:induction false} SoleHolderRun(m: Market, calls: seq<MarketCall>)
    requires Sole(m) && OneDepositor(calls)
    ensures Sole(MarketReached(m, calls))
    decreases |calls|
  {
    if calls != [] {
      CallFromSole(m, calls[0]);
      SoleHolderRun(MarketNext(m, calls[0]), calls[1..]);
    }
  }

  /** While the share vault holds the whole supply, every state a run reaches from registration
      has T >= L >= owed, and no call is ever refused for insolvency. */
  lemma SoleHolderIsAlwaysSolvent(r: ReserveState, bps: SkimBps, calls: seq<MarketCall>, next: MarketCall)
    requires r.totalUnderlying == 0 && r.shareSupply == 0
    requires OneDepositor(calls) && OneDepositor([next])
    ensures var m := MarketReached(Registered(r, bps), calls);
            && m.reserve.totalUnderlying >= m.strategy.lastSettledUnderlying >= Owed(m.strategy)
            && m.shareVault == m.reserve.shareSupply
            && Called(m, next) != Err(SolvencyInvariantBroken)
  {
    assert Sole(Registered(r, bps));
    SoleHolderRun(Registered(r, bps), calls);
    var m := MarketReached(Registered(r, bps), calls);
    CallFromSole(m, next);
  }

  // ----- where the invariant can slip

  const EMPTY_RESERVE: ReserveState := ReserveState(DEFAULT_KEY, MAX_APY_BPS, 0, 0, 0)

  /** A reserve of three units over two shares, held by others. */
  const OTHERS_RESERVE: ReserveState := ReserveState(DEFAULT_KEY, MAX_APY_BPS, SECONDS_PER_YEAR, 3, 2)

  /** Two units deposited by somebody else, and a year at the highest rate. */
  lemma OthersReserveIsReached()
    ensures Run(EMPTY_RESERVE, [CallDeposit(0, 2), CallAccrue(SECONDS_PER_YEAR)]) == OTHERS_RESERVE
  {
    hide ReservePrice.After;
    var calls := [CallDeposit(0, 2), CallAccrue(SECONDS_PER_YEAR)];
    var one := ReserveState(DEFAULT_KEY, MAX_APY_BPS, 0, 2, 2);
    TwoPutIn();
    YearOfInterest();
    assert calls[1..] == [calls[1]] && calls[1..][1..] == [];
    assert Run(one, calls[1..]) == Run(OTHERS_RESERVE, []);
  }

  lemma TwoPutIn()
    ensures ReservePrice.After(EMPTY_RESERVE, CallDeposit(0, 2)) == ReserveState(DEFAULT_KEY, MAX_APY_BPS, 0, 2, 2)
  {
  }

  lemma YearOfInterest()
    ensures ReservePrice.After(ReserveState(DEFAULT_KEY, MAX_APY_BPS, 0, 2, 2), CallAccrue(SECONDS_PER_YEAR))
            == OTHERS_RESERVE
  {
    assert Accrued(ReserveState(DEFAULT_KEY, MAX_APY_BPS, 0, 2, 2), SECONDS_PER_YEAR) == Ok(OTHERS_RESERVE);
  }

  /** After a deposit of two units: one more share, two owed, and two tracked. */
  const SLIPPED: Market :=
    Market(ReserveState(DEFAULT_KEY, MAX_APY_BPS, SECONDS_PER_YEAR, 5, 3),
           StrategyState(DEFAULT_PROTOCOL_YIELD_SHARE_BPS, TWO64, 2, 2, 0), 1)

  /** The same with the one unit tracked that the share is worth. */
  const NOTICED: Market :=
    SLIPPED.(strategy := StrategyState(DEFAULT_PROTOCOL_YIELD_SHARE_BPS, TWO64, 1, 2, 0))

  function Joined(): Market {
    Registered(OTHERS_RESERVE, DEFAULT_PROTOCOL_YIELD_SHARE_BPS)
  }

  lemma DepositOfTwo()
    ensures Covered(Joined())
    ensures YieldDeposited(Joined(), SECONDS_PER_YEAR, 2) == Ok((SLIPPED, 2))
  {
    assert StrategyAccrued(Joined(), SECONDS_PER_YEAR) == Ok(Joined());
  }

  lemma SlippedValue()
    ensures Owed(SLIPPED.strategy) == 2 && VaultValue(SLIPPED) == 1 && Owed(NOTICED.strategy) == 2
  {
    hide Owed, VaultValue;
    TwoOwed();
    OneThere();
  }

  lemma TwoOwed()
    ensures Owed(SLIPPED.strategy) == 2 && Owed(NOTICED.strategy) == 2
  {
    hide Owed;
    OwesTwo(SLIPPED.strategy);
    OwesTwo(NOTICED.strategy);
  }

  lemma OwesTwo(s: StrategyState)
    requires s.totalUserShares == 2 && s.userIndex == TWO64 && s.protocolOwedUnderlying == 0
    ensures Owed(s) == 2
  {
    hide Worth;
    WorthOfTwo();
  }

  lemma OneThere()
    ensures VaultValue(SLIPPED) == 1
  {
    ThirdOfFive();
  }

  lemma WorthOfTwo()
    ensures Worth(2, TWO64) == 2
  {
  }

  lemma ThirdOfFive()
    ensures MulDiv(1, 5, 3) == 1
  {
  }

  lemma SlippedIsTracked()
    ensures Tracked(SLIPPED) && !Covered(SLIPPED)
  {
    hide Owed, VaultValue;
    SlippedValue();
  }

  lemma SlippedAccrual()
    ensures StrategyAccrued(SLIPPED, SECONDS_PER_YEAR) == Ok(NOTICED)
  {
    assert MulDiv(1, 5, 3) == 1;
  }

  lemma NextAccrual()
    ensures YieldAccrued(SLIPPED, SECONDS_PER_YEAR) == Err(SolvencyInvariantBroken)
  {
    hide StrategyAccrued, Owed;
    SlippedAccrual();
    SlippedValue();
    SolvencyVerdict(NOTICED.strategy, 1);
  }

  lemma FullWithdrawal()
    ensures WithdrawFrom(NOTICED, SECONDS_PER_YEAR, 2, 3, 6).Ok? && YieldPaid(NOTICED, SECONDS_PER_YEAR, 2, 3, 6).Ok?
            && YieldPaid(NOTICED, SECONDS_PER_YEAR, 2, 3, 6).value.1.gross == 2
  {
    FeeAlwaysExists(2, 3, 6);
    assert Pow10(0) == 1;
    assert WithdrawalFee(2, 3, 6) == Ok(2);
  }

  /** With other holders a deposit can leave the real value below what is owed: the deposit
      succeeds, the next accrual in the same second is refused, and a full withdrawal then succeeds
      only because its subtraction of two from one saturates. */
  lemma DepositCanSlip()
    ensures Run(EMPTY_RESERVE, [CallDeposit(0, 2), CallAccrue(SECONDS_PER_YEAR)]) == Joined().reserve
    ensures var now := SECONDS_PER_YEAR;
            && Covered(Joined())
            && YieldDeposited(Joined(), now, 2).Ok?
            && var m := YieldDeposited(Joined(), now, 2).value.0;
            && !Covered(m) && Tracked(m)
            && YieldAccrued(m, now) == Err(SolvencyInvariantBroken)
            && StrategyAccrued(m, now).Ok?
            && StrategyAccrued(m, now).value.strategy.lastSettledUnderlying == 1
            && YieldWithdrawn(m, now, 2, 3, 6).Ok?
            && YieldWithdrawn(m, now, 2, 3, 6).value.1.gross == 2
  {
    hide YieldDeposited, StrategyAccrued, YieldAccrued, YieldPaid, Covered, Tracked, Run;
    OthersReserveIsReached();
    DepositOfTwo();
    SlippedIsTracked();
    SlippedAccrual();
    NextAccrual();
    FullWithdrawal();
  }

  // ----- where a redemption loses two units

  /** The sole holder of four shares after three years at the highest rate. */
  const GROWN: Market :=
    Market(ReserveState(DEFAULT_KEY, MAX_APY_BPS, 3 * SECONDS_PER_YEAR, 10, 4),
           StrategyState(DEFAULT_PROTOCOL_YIELD_SHARE_BPS, TWO64 + 5 * (TWO64 / 4), 10, 4, 1), 4)

  const PLANTED: Market :=
    Market(ReserveState(DEFAULT_KEY, MAX_APY_BPS, 0, 4, 4),
           StrategyState(DEFAULT_PROTOCOL_YIELD_SHARE_BPS, TWO64, 4, 4, 0), 4)

  lemma Plant()
    ensures YieldDeposited(Registered(EMPTY_RESERVE, DEFAULT_PROTOCOL_YIELD_SHARE_BPS), 0, 4) == Ok((PLANTED, 4))
  {
    var m0 := Registered(EMPTY_RESERVE, DEFAULT_PROTOCOL_YIELD_SHARE_BPS);
    assert StrategyAccrued(m0, 0) == Ok(m0);
    assert Worth(4, TWO64) == 4;
  }

  lemma Grow()
    ensures StrategyAccrued(PLANTED, 3 * SECONDS_PER_YEAR) == Ok(GROWN)
  {
    assert Accrued(PLANTED.reserve, 3 * SECONDS_PER_YEAR) == Ok(GROWN.reserve);
    assert MulDiv(4, 10, 4) == 10;
    assert MulDiv(6, DEFAULT_PROTOCOL_YIELD_SHARE_BPS, 10_000) == 1;
    assert MulDiv(5, TWO64, 4) == 5 * (TWO64 / 4);
  }

  /** An opt-out of two shares worth four units, in a run from registration, pays two. */
  lemma OptOutLosesTwo()
    ensures YieldDeposited(Registered(EMPTY_RESERVE, DEFAULT_PROTOCOL_YIELD_SHARE_BPS), 0, 4) == Ok((PLANTED, 4))
    ensures StrategyAccrued(PLANTED, 3 * SECONDS_PER_YEAR) == Ok(GROWN)
    ensures Worth(2, GROWN.strategy.userIndex) == 4
    ensures OptedOut(PLANTED, 3 * SECONDS_PER_YEAR, 2).Ok?
    ensures OptedOut(PLANTED, 3 * SECONDS_PER_YEAR, 2).value.2 == 2
  {
    Plant();
    Grow();
    LosingRedemption();
  }

  lemma LosingRedemption()
    ensures Worth(2, GROWN.strategy.userIndex) == 4
    ensures OptOutFrom(GROWN, 3 * SECONDS_PER_YEAR, 2).Ok? && OptOutFrom(GROWN, 3 * SECONDS_PER_YEAR, 2).value.2 == 2
    ensures var s := OptOutFrom(GROWN, 3 * SECONDS_PER_YEAR, 2).value.0.strategy;
            RequireSolvent(s, s.lastSettledUnderlying).Ok?
  {
    assert MulDiv(4, 4, 10) == 1 && MulDiv(1, 10, 4) == 2;
  }

  // ----- nobody's claim is lowered

  lemma IndexNeverFalls(m: Market, call: MarketCall)
    ensures MarketNext(m, call).strategy.userIndex >= m.strategy.userIndex
  {
    hide Redeemed, Deposited, Accrued, WithdrawalFee, RequireSolvent, UsdcToCusdcRoundDown, CusdcToUsdc, UsdcToShares,
         SharesToUsdc, MulDiv, WithdrawFrom, YieldApplied;
    match call
    case Accrue(now) => AccrualRaisesIndex(m, now);
    case Deposit(now, _) => AccrualRaisesIndex(m, now);
    case Claim(now, _) => AccrualRaisesIndex(m, now);
    case OptOut(now, _) => AccrualRaisesIndex(m, now);
    case Withdraw(now, shares, feeBps, decimals) =>
      AccrualRaisesIndex(m, now);
      if StrategyAccrued(m, now).Ok? {
        WithdrawalKeepsIndex(StrategyAccrued(m, now).value, now, shares, feeBps, decimals);
      }
    case Outside(_) =>
    case Donate(_) =>
  }

  lemma AccrualRaisesIndex(m: Market, now: i64)
    ensures StrategyAccrued(m, now).Ok? ==> StrategyAccrued(m, now).value.strategy.userIndex >= m.strategy.userIndex
  {
  }

  lemma WithdrawalKeepsIndex(m: Market, now: i64, shares: u64, feeBps: FeeBps, decimals: u8)
    ensures WithdrawFrom(m, now, shares, feeBps, decimals).Ok? ==>
              WithdrawFrom(m, now, shares, feeBps, decimals).value.0.strategy.userIndex == m.strategy.userIndex
  {
    hide RedeemIfAny, WithdrawalFee, UsdcToCusdcRoundDown, SharesToUsdc, MulDiv;
  }

  /** No run of handlers and other holders lowers what `shares` left untouched convert to. */
  lemma {:induction false} UntouchedClaimNeverFalls(m: Market, calls: seq<MarketCall>, shares: nat)
    ensures Worth(shares, MarketReached(m, calls).strategy.userIndex) >= Worth(shares, m.strategy.userIndex)
    decreases |calls|
  {
    if calls != [] {
      IndexNeverFalls(m, calls[0]);
      WorthGrowsWithIndex(shares, m.strategy.userIndex, MarketNext(m, calls[0]).strategy.userIndex);
      UntouchedClaimNeverFalls(MarketNext(m, calls[0]), calls[1..], shares);
    }
  }
}
