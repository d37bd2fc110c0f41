/** The tokens in the vaults and the counted shares back what the ledger owes, over every run. */
module Backing {
  import opened Machine
  import opened Rounding
  import opened Fees
  import opened MockYield
  import opened Ledgers
  import opened SettleIndividual
  import opened ClearingRound
  import opened SettleCommitmentBundle
  import opened YieldStrategies
  import opened YieldBearing
  import opened Instructions
  import opened Measures
  import opened Conservation

  function Held(w: World, k: Key): nat {
    if k in w.wallets then w.wallets[k] else 0
  }

  /** What the vault of `t` holds beyond what the ledger owes in `t`. */
  ghost function Surplus(w: World, t: u16): int
    requires t in w.vaults
  {
    Held(w, w.vaults[t]) - Measured(Liability(t), w.ledger)
  }

  function At(account: Key, k: Key, amount: nat): nat {
    if account == k then amount else 0
  }

  /** What an instruction sends to the vault of `t` as if it were any other destination. */
  function Gift(w: World, call: Call, t: u16): nat
    requires t in w.vaults && Executed(w, call).Ok?
  {
    var k := w.vaults[t];
    match call
    case ExecuteWithdrawal(_, p, t0, destination, feeAccount) =>
      var amount := BalanceOf(w.ledger, Account(p, t0)).withdrawing;
      if amount == 0 then 0
      else
        var fee := WithdrawalFee(amount, w.config.feeBps, w.registry[t0].decimals).value;
        At(destination, k, amount - fee) + At(feeAccount, k, fee)
    case ExecuteYieldWithdrawal(now, p, t0, destination, feeAccount) =>
      var payout := YieldWithdrawalExecuted(w, now, p, t0, destination, feeAccount).value.1;
      At(destination, k, payout.netPaid) + At(feeAccount, k, payout.feePaid)
    case ClaimProtocolFee(now, t0, amount, recipient, destination) =>
      At(destination, k, ProtocolFeeClaimed(w, now, t0, amount, recipient, destination).value.1)
    case OutsideTransfer(destination, amount) => At(destination, k, amount)
    case _ => 0
  }

  // ----- token accounts

  lemma TransferMoves(ws: Wallets, source: Key, destination: Key, amount: nat)
    requires TransferredIfAny(ws, source, destination, amount).Ok?
    ensures var ws' := TransferredIfAny(ws, source, destination, amount).value;
            && ws'.Keys == ws.Keys
            && (forall k :: k in ws ==> ws'[k] == ws[k] - At(source, k, amount) + At(destination, k, amount))
  {
  }

  lemma GiftArrives(ws: Wallets, destination: Key, amount: nat)
    requires Given(ws, destination, amount).Ok?
    ensures var ws' := Given(ws, destination, amount).value;
            && ws'.Keys == ws.Keys
            && (forall k :: k in ws ==> ws'[k] == ws[k] + At(destination, k, amount))
  {
  }

  // ----- what each instruction does to the vault of a plain token

  lemma {:induction false} SumOfAmounts(ps: seq<u32>, t: u16, amounts: seq<u64>)
    requires |ps| == |amounts| && Summed(amounts).Ok?
    ensures SeenAll(Liability(t), ps, t, amounts) == Summed(amounts).value
    ensures forall u :: u != t ==> SeenAll(Liability(u), ps, t, amounts) == 0
    decreases |ps|
  {
    if ps != [] {
      SumOfAmounts(ps[..|ps| - 1], t, amounts[..|ps| - 1]);
    }
  }

  lemma DepositBacked(w: World, call: Call, t: u16)
    requires WellFormed(w) && t in w.vaults && Executed(w, call).Ok? && (call.Deposit? || call.DepositFor?)
    ensures Held(Next(w, call), w.vaults[t]) - Held(w, w.vaults[t]) == Inflow(w, call, Liability(t))
  {
    hide DeltaApplied, AllCredited, Given, Taken, Transferred;
    var into := w.vaults[call.token];
    if call.Deposit? {
      TransferMoves(w.wallets, call.source, into, call.amount);
    } else {
      TransferMoves(w.wallets, call.source, into, Summed(call.amounts).value);
      SumOfAmounts(call.participants, call.token, call.amounts);
    }
  }

  lemma YieldDepositBacked(w: World, call: Call, t: u16)
    requires WellFormed(w) && t in w.vaults && Executed(w, call).Ok? && call.DepositYield?
    ensures Held(Next(w, call), w.vaults[t]) - Held(w, w.vaults[t]) == Inflow(w, call, Liability(t))
  {
    hide StrategyAccrued, DepositInto, RequireSolvent, DeltaApplied;
  }

  lemma FeeWithinAmount(amount: u64, feeBps: FeeBps, decimals: u8)
    ensures WithdrawalFee(amount, feeBps, decimals).Ok? ==> WithdrawalFee(amount, feeBps, decimals).value <= amount
  {
    hide ScaledMinFee, MulDiv;
  }

  lemma WithdrawalBacked(w: World, call: Call, t: u16)
    requires WellFormed(w) && t in w.vaults && call.ExecuteWithdrawal? && Executed(w, call).Ok?
    ensures Held(Next(w, call), w.vaults[t]) - Held(w, w.vaults[t])
            == Inflow(w, call, Liability(t)) + Gift(w, call, t)
  {
    hide WithdrawalFee, TransferredIfAny;
    var source := w.vaults[call.token];
    var amount := BalanceOf(w.ledger, Account(call.participant, call.token)).withdrawing;
    if amount > 0 {
      FeeWithinAmount(amount, w.config.feeBps, w.registry[call.token].decimals);
      var fee := WithdrawalFee(amount, w.config.feeBps, w.registry[call.token].decimals).value;
      TransferMoves(w.wallets, source, call.destination, amount - fee);
      var ws := TransferredIfAny(w.wallets, source, call.destination, amount - fee).value;
      TransferMoves(ws, source, call.feeAccount, fee);
    }
  }

  /** A due withdrawal takes exactly the withdrawing amount out of the vault, pays the net part to
      the recorded destination and the fee to the fee account, and clears the request; no other
      token account and no other balance moves. */
  lemma WithdrawalPays(w: World, call: Call)
    requires WellFormed(w) && call.ExecuteWithdrawal? && Executed(w, call).Ok?
    ensures var a := Account(call.participant, call.token);
            && a in w.ledger.balances && call.token in w.vaults && call.token in w.registry
            && var b, w' := w.ledger.balances[a], Next(w, call);
            && b.destination == call.destination && b.unlockAt != 0 && b.unlockAt <= call.now
            && w'.ledger == w.ledger.(balances := w.ledger.balances[a := Balance(b.available, 0, 0, DEFAULT_KEY)])
            && WithdrawalFee(b.withdrawing, w.config.feeBps, w.registry[call.token].decimals).Ok?
            && var fee := WithdrawalFee(b.withdrawing, w.config.feeBps, w.registry[call.token].decimals).value;
            && IsFee(b.withdrawing, w.config.feeBps, w.registry[call.token].decimals, fee)
            && fee <= b.withdrawing && w'.wallets.Keys == w.wallets.Keys
            && forall k :: k in w.wallets ==>
                 w'.wallets[k] == w.wallets[k] - At(w.vaults[call.token], k, b.withdrawing)
                                  + At(call.destination, k, b.withdrawing - fee) + At(call.feeAccount, k, fee)
  {
    hide WithdrawalFee, TransferredIfAny, IsFee;
    var source := w.vaults[call.token];
    var amount := w.ledger.balances[Account(call.participant, call.token)].withdrawing;
    FeeAlwaysExists(amount, w.config.feeBps, w.registry[call.token].decimals);
    FeeIsFee(amount, w.config.feeBps, w.registry[call.token].decimals);
    if amount > 0 {
      var fee := WithdrawalFee(amount, w.config.feeBps, w.registry[call.token].decimals).value;
      TransferMoves(w.wallets, source, call.destination, amount - fee);
      var ws := TransferredIfAny(w.wallets, source, call.destination, amount - fee).value;
      TransferMoves(ws, source, call.feeAccount, fee);
    }
  }

  /** The gross amount of a withdrawal of shares and its fee. */
  lemma YieldFee(m: Market, now: i64, shares: u64, feeBps: FeeBps, decimals: u8)
    requires decimals <= MAX_TOKEN_DECIMALS && YieldPaid(m, now, shares, feeBps, decimals).Ok? && shares > 0
    ensures var p := YieldPaid(m, now, shares, feeBps, decimals).value.1;
            && p.gross * TWO64 <= shares * m.strategy.userIndex < (p.gross + 1) * TWO64
            && IsFee(p.gross, feeBps, decimals, p.fee)
  {
    hide IsFee, WithdrawalFee, RedeemIfAny, RequireSolvent, UsdcToCusdcRoundDown, SharesToUsdc;
    var p := YieldPaid(m, now, shares, feeBps, decimals).value.1;
    SharesFetchMost(m.strategy, shares);
    FeeIsFee(p.gross, feeBps, decimals);
  }

  /** A due withdrawal of shares pays what the two redemptions yield, each to its own account. */
  lemma YieldWithdrawalPays(w: World, call: Call)
    requires WellFormed(w) && call.ExecuteYieldWithdrawal? && Executed(w, call).Ok?
    ensures var a := Account(call.participant, call.token);
            && a in w.ledger.balances && call.token in w.markets && call.token in w.registry
            && var b, w' := w.ledger.balances[a], Next(w, call);
            && b.destination == call.destination && b.unlockAt != 0 && b.unlockAt <= call.now
            && w'.ledger == w.ledger.(balances := w.ledger.balances[a := Balance(b.available, 0, 0, DEFAULT_KEY)])
            && YieldWithdrawn(w.markets[call.token], call.now, b.withdrawing, w.config.feeBps,
                              w.registry[call.token].decimals).Ok?
            && var p := YieldWithdrawn(w.markets[call.token], call.now, b.withdrawing, w.config.feeBps,
                                       w.registry[call.token].decimals).value.1;
            && StrategyAccrued(w.markets[call.token], call.now).Ok?
            && (b.withdrawing > 0 ==>
                  && var index := StrategyAccrued(w.markets[call.token], call.now).value.strategy.userIndex;
                  && p.gross * TWO64 <= b.withdrawing * index < (p.gross + 1) * TWO64
                  && IsFee(p.gross, w.config.feeBps, w.registry[call.token].decimals, p.fee))
            && w'.wallets.Keys == w.wallets.Keys
            && forall k :: k in w.wallets ==>
                 w'.wallets[k] == w.wallets[k] + At(call.destination, k, p.netPaid) + At(call.feeAccount, k, p.feePaid)
  {
    hide StrategyAccrued, YieldPaid, Given, IsFee;
    var payout := YieldWithdrawalExecuted(w, call.now, call.participant, call.token, call.destination,
                                          call.feeAccount).value.1;
    if w.ledger.balances[Account(call.participant, call.token)].withdrawing > 0 {
      YieldFee(StrategyAccrued(w.markets[call.token], call.now).value, call.now,
               w.ledger.balances[Account(call.participant, call.token)].withdrawing,
               w.config.feeBps, w.registry[call.token].decimals);
    }
    GiftArrives(w.wallets, call.destination, payout.netPaid);
    GiftArrives(Given(w.wallets, call.destination, payout.netPaid).value, call.feeAccount, payout.feePaid);
  }

  /** The credit of an opt-out is what the reserve pays into the vault. */
  lemma OptOutPaysCredit(m: Market, now: i64, shares: u64)
    requires OptOutFrom(m, now, shares).Ok? && Accrued(m.reserve, now) == Ok(m.reserve)
    ensures OptOutFrom(m, now, shares).value.1 == OptOutFrom(m, now, shares).value.2
  {
    hide SharesToUsdc, UsdcToCusdcRoundDown, MulDiv;
  }

  lemma AccruedAtOnce(m: Market, now: i64)
    requires StrategyAccrued(m, now).Ok?
    ensures var m1 := StrategyAccrued(m, now).value;
            && Accrued(m1.reserve, now) == Ok(m1.reserve)
            && m1.strategy.totalUserShares == m.strategy.totalUserShares
  {
    hide MulDiv;
  }

  lemma OptInBacked(w: World, call: Call, t: u16)
    requires WellFormed(w) && t in w.vaults && Executed(w, call).Ok? && call.OptIn?
    ensures Held(Next(w, call), w.vaults[t]) - Held(w, w.vaults[t]) == Inflow(w, call, Liability(t))
  {
    hide StrategyAccrued, DepositInto, RequireSolvent, DeltaApplied, AvailableDebited;
  }

  lemma OptOutBacked(w: World, call: Call, t: u16)
    requires WellFormed(w) && t in w.vaults && Executed(w, call).Ok? && call.OptOut?
    ensures Held(Next(w, call), w.vaults[t]) - Held(w, w.vaults[t]) == Inflow(w, call, Liability(t))
  {
    hide StrategyAccrued, OptOutFrom, RequireSolvent, DeltaApplied, AvailableDebited;
    AccruedAtOnce(w.markets[call.token], call.now);
    OptOutPaysCredit(StrategyAccrued(w.markets[call.token], call.now).value, call.now, call.shares);
  }

  lemma YieldPayoutBacked(w: World, call: Call, t: u16)
    requires WellFormed(w) && t in w.vaults && Executed(w, call).Ok? && call.ExecuteYieldWithdrawal?
    ensures Held(Next(w, call), w.vaults[t]) - Held(w, w.vaults[t])
            == Inflow(w, call, Liability(t)) + Gift(w, call, t)
  {
    hide StrategyAccrued, YieldPaid, Given, WithdrawalCleared, DueWithdrawal;
    var payout := YieldWithdrawalExecuted(w, call.now, call.participant, call.token, call.destination,
                                          call.feeAccount).value.1;
    GiftArrives(w.wallets, call.destination, payout.netPaid);
    GiftArrives(Given(w.wallets, call.destination, payout.netPaid).value, call.feeAccount, payout.feePaid);
  }

  lemma PayoutBacked(w: World, call: Call, t: u16)
    requires WellFormed(w) && t in w.vaults && Executed(w, call).Ok?
    requires call.ClaimProtocolFee? || call.OutsideTransfer?
    ensures Held(Next(w, call), w.vaults[t]) - Held(w, w.vaults[t])
            == Inflow(w, call, Liability(t)) + Gift(w, call, t)
  {
    hide ProtocolClaimed, Given;
    if call.OutsideTransfer? {
      GiftArrives(w.wallets, call.destination, call.amount);
    } else {
      GiftArrives(w.wallets, call.destination,
                  ProtocolFeeClaimed(w, call.now, call.token, call.amount, call.recipient, call.destination).value.1);
    }
  }

  ghost predicate MovesTokens(call: Call) {
    || call.Deposit? || call.DepositFor? || call.DepositYield? || call.ExecuteWithdrawal? || call.OptIn?
    || call.OptOut? || call.ExecuteYieldWithdrawal? || call.ClaimProtocolFee? || call.OutsideTransfer?
  }

  lemma OthersMoveNothing(w: World, call: Call)
    requires Executed(w, call).Ok? && !MovesTokens(call)
    ensures Next(w, call).wallets == w.wallets && Inflow(w, call, Liability(0)) == 0
  {
    hide Settled, BundleSettled, RoundSettled, YieldAccrued, AvailableDebited, LockAdded, DeltaApplied,
         UnlockExecuted, CooperativelyUnlocked, UnlockRequested, WithdrawalInitiated, WithdrawalCancelled, LaneCreated;
  }

  lemma InstructionBacked(w: World, call: Call, t: u16)
    requires WellFormed(w) && t in w.vaults && Executed(w, call).Ok?
    ensures Surplus(w.(wallets := Next(w, call).wallets, ledger := Next(w, call).ledger), t)
            == Surplus(w, t) + Gift(w, call, t)
  {
    hide Executed, Next, WellFormed, Measured;
    InstructionMeasured(Liability(t), w, call);
    if call.Deposit? || call.DepositFor? {
      DepositBacked(w, call, t);
    } else if call.DepositYield? {
      YieldDepositBacked(w, call, t);
    } else if call.ExecuteWithdrawal? {
      WithdrawalBacked(w, call, t);
    } else if call.OptIn? {
      OptInBacked(w, call, t);
    } else if call.OptOut? {
      OptOutBacked(w, call, t);
    } else if call.ExecuteYieldWithdrawal? {
      YieldPayoutBacked(w, call, t);
    } else if MovesTokens(call) {
      PayoutBacked(w, call, t);
    } else {
      OthersMoveNothing(w, call);
    }
  }

  // ----- the frame

  /** Configuration, registry and vaults are fixed; no token account and no market disappears. */
  ghost predicate SameFrame(w: World, w': World) {
    && w'.config == w.config && w'.registry == w.registry && w'.vaults == w.vaults && w'.mints == w.mints
    && w'.wallets.Keys == w.wallets.Keys && w'.markets.Keys == w.markets.Keys
  }

  lemma FrameStays(w: World, call: Call)
    requires WellFormed(w)
    ensures SameFrame(w, Next(w, call)) && WellFormed(Next(w, call))
  {
    hide WellFormed;
    if MovesTokens(call) {
      if call.Deposit? || call.DepositFor? || call.ExecuteWithdrawal? || call.OutsideTransfer? {
        PlainFrameStays(w, call);
      } else {
        YieldFrameStays(w, call);
      }
    } else {
      LedgerFrameStays(w, call);
    }
    FrameKeepsForm(w, Next(w, call));
  }

  lemma FrameKeepsForm(w: World, w': World)
    requires WellFormed(w) && SameFrame(w, w')
    ensures WellFormed(w')
  {
  }

  lemma LedgerFrameStays(w: World, call: Call)
    requires !MovesTokens(call)
    ensures SameFrame(w, Next(w, call))
  {
    if call.Lock? || call.CooperativeUnlock? || call.RequestUnlock? || call.ExecuteUnlock? {
      CollateralFrameStays(w, call);
    } else if call.RequestWithdrawal? || call.RequestYieldWithdrawal? {
      RequestFrameStays(w, call);
    } else {
      hide Settled, BundleSettled, RoundSettled, YieldAccrued, WithdrawalCancelled, LaneCreated;
    }
  }

  lemma RequestFrameStays(w: World, call: Call)
    requires call.RequestWithdrawal? || call.RequestYieldWithdrawal?
    ensures SameFrame(w, Next(w, call))
  {
    hide WithdrawalRequested;
    if call.RequestWithdrawal? {
      RequestFrame(w, call.now, call.participant, call.token, call.amount, call.destination);
    } else {
      RequestFrame(w, call.now, call.participant, call.token, call.shares, call.destination);
    }
  }

  lemma CollateralFrameStays(w: World, call: Call)
    requires call.Lock? || call.CooperativeUnlock? || call.RequestUnlock? || call.ExecuteUnlock?
    ensures SameFrame(w, Next(w, call))
  {
    hide Locked, UnlockedTogether, ReleaseRequested, ReleaseExecuted;
    match call
    case Lock(id, amount) => LockFrame(w, id, amount);
    case CooperativeUnlock(id, amount, payeeOwner) => UnlockFrame(w, id, amount, payeeOwner);
    case RequestUnlock(now, id, amount) => ReleaseFrame(w, now, id, amount);
    case ExecuteUnlock(now, id) => ReleaseFrame(w, now, id, 0);
  }

  lemma LockFrame(w: World, id: LaneId, amount: u64)
    ensures Locked(w, id, amount).Ok? ==> SameFrame(w, Locked(w, id, amount).value)
  {
    hide AvailableDebited, LockAdded;
  }

  lemma UnlockFrame(w: World, id: LaneId, amount: u64, payeeOwner: Key)
    ensures UnlockedTogether(w, id, amount, payeeOwner).Ok? ==>
              SameFrame(w, UnlockedTogether(w, id, amount, payeeOwner).value)
  {
    hide CooperativelyUnlocked, DeltaApplied;
  }

  lemma ReleaseFrame(w: World, now: i64, id: LaneId, amount: u64)
    ensures ReleaseRequested(w, now, id, amount).Ok? ==> SameFrame(w, ReleaseRequested(w, now, id, amount).value)
    ensures ReleaseExecuted(w, now, id).Ok? ==> SameFrame(w, ReleaseExecuted(w, now, id).value.0)
  {
    hide UnlockRequested, UnlockExecuted, DeltaApplied;
  }

  lemma RequestFrame(w: World, now: i64, p: u32, t: u16, amount: u64, destination: Key)
    ensures forall mint: Key :: WithdrawalRequested(w, now, p, t, amount, destination, mint).Ok? ==>
              SameFrame(w, WithdrawalRequested(w, now, p, t, amount, destination, mint).value)
  {
    hide WithdrawalInitiated;
  }

  lemma TransfersKeepAccounts()
    ensures forall ws: Wallets, k: Key, n: nat :: Given(ws, k, n).Ok? ==> Given(ws, k, n).value.Keys == ws.Keys
    ensures forall ws: Wallets, k: Key, n: nat :: Taken(ws, k, n).Ok? ==> Taken(ws, k, n).value.Keys == ws.Keys
    ensures forall ws: Wallets, j: Key, k: Key, n: nat :: Transferred(ws, j, k, n).Ok? ==>
              Transferred(ws, j, k, n).value.Keys == ws.Keys
    ensures forall ws: Wallets, j: Key, k: Key, n: nat :: TransferredIfAny(ws, j, k, n).Ok? ==>
              TransferredIfAny(ws, j, k, n).value.Keys == ws.Keys
  {
  }

  lemma PlainFrameStays(w: World, call: Call)
    requires call.Deposit? || call.DepositFor? || call.ExecuteWithdrawal? || call.OutsideTransfer?
    ensures SameFrame(w, Next(w, call))
  {
    hide DeltaApplied, AllCredited, WithdrawalCleared, ScaledMinFee, MulDiv, Summed, DueWithdrawal, Given, Taken,
         Transferred, TransferredIfAny;
    TransfersKeepAccounts();
  }

  lemma YieldFrameStays(w: World, call: Call)
    requires call.DepositYield? || call.OptIn? || call.OptOut? || call.ExecuteYieldWithdrawal? || call.ClaimProtocolFee?
    ensures SameFrame(w, Next(w, call))
  {
    hide DeltaApplied, AvailableDebited, WithdrawalCleared, StrategyAccrued, DepositInto, OptOutFrom, YieldPaid,
         ProtocolClaimed, RequireSolvent, DueWithdrawal;
  }

  // ----- the shares of a yield-bearing token

  ghost predicate SharesCounted(w: World, t: u16)
    requires t in w.markets
  {
    w.markets[t].strategy.totalUserShares == Measured(Liability(t), w.ledger)
  }

  lemma DepositCounts(m: Market, now: i64, amount: u64)
    requires DepositInto(m, now, amount).Ok?
    ensures var (m', shares) := DepositInto(m, now, amount).value;
            m'.strategy.totalUserShares == m.strategy.totalUserShares + shares
  {
  }

  lemma WithdrawalCounts(m: Market, now: i64, shares: u64, feeBps: FeeBps, decimals: u8)
    requires YieldWithdrawn(m, now, shares, feeBps, decimals).Ok?
    ensures YieldWithdrawn(m, now, shares, feeBps, decimals).value.0.strategy.totalUserShares
            == m.strategy.totalUserShares - shares
  {
    hide StrategyAccrued, RedeemIfAny, WithdrawalFee, SharesToUsdc, UsdcToCusdcRoundDown, RequireSolvent, CusdcToUsdc;
    AccruedAtOnce(m, now);
  }

  lemma OptOutCounts(m: Market, now: i64, shares: u64)
    requires OptOutFrom(m, now, shares).Ok?
    ensures OptOutFrom(m, now, shares).value.0.strategy.totalUserShares == m.strategy.totalUserShares - shares
  {
    hide RedeemFromVault, SharesToUsdc, UsdcToCusdcRoundDown, CusdcToUsdc;
  }

  lemma AccrualCounts(m: Market, now: i64, amount: u64)
    ensures YieldAccrued(m, now).Ok? ==>
              YieldAccrued(m, now).value.strategy.totalUserShares == m.strategy.totalUserShares
    ensures ProtocolClaimed(m, now, amount).Ok? ==>
              ProtocolClaimed(m, now, amount).value.0.strategy.totalUserShares == m.strategy.totalUserShares
  {
    hide StrategyAccrued, RequireSolvent, RedeemFromVault, UsdcToCusdcRoundDown;
    if StrategyAccrued(m, now).Ok? {
      AccruedAtOnce(m, now);
    }
  }

  ghost predicate MovesShares(call: Call) {
    || call.DepositYield? || call.ExecuteYieldWithdrawal? || call.OptIn? || call.OptOut? || call.AccrueYield?
    || call.ClaimProtocolFee? || call.ReserveStep?
  }

  lemma SharesDeposited(w: World, call: Call, t: u16)
    requires t in w.markets && Executed(w, call).Ok? && (call.DepositYield? || call.OptIn?)
    requires WellFormed(w)
    ensures t in Next(w, call).markets
    ensures Next(w, call).markets[t].strategy.totalUserShares - w.markets[t].strategy.totalUserShares
            == Inflow(w, call, Liability(t))
  {
    hide StrategyAccrued, DepositInto, RequireSolvent, DeltaApplied, AvailableDebited, Taken;
    AccruedAtOnce(w.markets[call.token], call.now);
    DepositCounts(StrategyAccrued(w.markets[call.token], call.now).value, call.now, call.amount);
  }

  lemma SharesPaidOut(w: World, call: Call, t: u16)
    requires t in w.markets && Executed(w, call).Ok? && (call.ExecuteYieldWithdrawal? || call.OptOut?)
    requires WellFormed(w)
    ensures t in Next(w, call).markets
    ensures Next(w, call).markets[t].strategy.totalUserShares - w.markets[t].strategy.totalUserShares
            == Inflow(w, call, Liability(t))
  {
    hide StrategyAccrued, OptOutFrom, RequireSolvent, DeltaApplied, AvailableDebited, Given, YieldPaid;
    var m := w.markets[call.token];
    if call.OptOut? {
      AccruedAtOnce(m, call.now);
      OptOutCounts(StrategyAccrued(m, call.now).value, call.now, call.shares);
    } else {
      WithdrawalCounts(m, call.now, BalanceOf(w.ledger, Account(call.participant, call.token)).withdrawing,
                       w.config.feeBps, w.registry[call.token].decimals);
    }
  }

  /** The counter of a market moves with what the ledger owes in its shares. */
  lemma SharesMove(w: World, call: Call, t: u16)
    requires WellFormed(w) && t in w.markets && Executed(w, call).Ok? && MovesShares(call)
    ensures t in Next(w, call).markets
    ensures Next(w, call).markets[t].strategy.totalUserShares - w.markets[t].strategy.totalUserShares
            == Inflow(w, call, Liability(t))
  {
    if call.DepositYield? || call.OptIn? {
      SharesDeposited(w, call, t);
    } else if call.ExecuteYieldWithdrawal? || call.OptOut? {
      SharesPaidOut(w, call, t);
    } else if !call.ReserveStep? {
      hide ProtocolClaimed, YieldAccrued, Given;
      AccrualCounts(w.markets[call.token], call.now, if call.ClaimProtocolFee? then call.amount else 0);
    }
  }

  lemma OthersKeepShares(w: World, call: Call, t: u16)
    requires WellFormed(w) && t in w.markets && Executed(w, call).Ok? && !MovesShares(call)
    ensures Next(w, call).markets == w.markets && Inflow(w, call, Liability(t)) == 0
  {
    hide Settled, BundleSettled, RoundSettled, AvailableDebited, LockAdded, DeltaApplied, AllCredited, Transferred,
         TransferredIfAny, UnlockExecuted, CooperativelyUnlocked, UnlockRequested, WithdrawalInitiated,
         WithdrawalCancelled, LaneCreated, WithdrawalCleared, WithdrawalFee, Given;
    if call.DepositFor? {
      SumOfAmounts(call.participants, call.token, call.amounts);
    }
  }

  lemma InstructionCountsShares(w: World, call: Call, t: u16)
    requires WellFormed(w) && t in w.markets && SharesCounted(w, t)
    ensures t in Next(w, call).markets && SharesCounted(Next(w, call), t)
  {
    hide Executed, WellFormed, Measured, Inflow;
    if Executed(w, call).Ok? {
      InstructionMeasured(Liability(t), w, call);
      hide Next;
      if MovesShares(call) {
        SharesMove(w, call, t);
      } else {
        OthersKeepShares(w, call, t);
      }
    } else {
      FailureChangesNothing(w, call);
    }
  }

  // ----- runs

  /** What a run sends to the vault of `t` as if it were any other destination. */
  function TotalGifts(w: World, calls: seq<Call>, t: u16): nat
    decreases |calls|
  {
    if calls == [] then 0
    else (if t in w.vaults && Executed(w, calls[0]).Ok? then Gift(w, calls[0], t) else 0)
         + TotalGifts(Next(w, calls[0]), calls[1..], t)
  }

  lemma {:induction false} FrameStaysOverRuns(w: World, calls: seq<Call>)
    requires WellFormed(w)
    ensures SameFrame(w, Reached(w, calls)) && WellFormed(Reached(w, calls))
    decreases |calls|
  {
    hide Next, WellFormed;
    if calls != [] {
      FrameStays(w, calls[0]);
      FrameStaysOverRuns(Next(w, calls[0]), calls[1..]);
    }
  }

  /** Over any run of all instructions the vault of a plain token holds what the ledger owes in it,
      plus exactly what transfers and withdrawals directed at the vault have added. */
  lemma {:induction false} VaultBacksLedger(w: World, calls: seq<Call>, t: u16)
    requires WellFormed(w) && t in w.vaults
    ensures t in Reached(w, calls).vaults
    ensures Surplus(Reached(w, calls), t) == Surplus(w, t) + TotalGifts(w, calls, t)
    decreases |calls|
  {
    hide Next, WellFormed, Measured, Executed, Gift;
    if calls != [] {
      FrameStays(w, calls[0]);
      if Executed(w, calls[0]).Ok? {
        InstructionBacked(w, calls[0], t);
      } else {
        FailureChangesNothing(w, calls[0]);
      }
      VaultBacksLedger(Next(w, calls[0]), calls[1..], t);
    }
  }

  /** Over any run the counter of a yield-bearing token is the sum of the shares that balances and
      lanes hold. */
  lemma {:induction false} CounterIsSumOfShares(w: World, calls: seq<Call>, t: u16)
    requires WellFormed(w) && t in w.markets && SharesCounted(w, t)
    ensures t in Reached(w, calls).markets && SharesCounted(Reached(w, calls), t)
    decreases |calls|
  {
    hide Next, WellFormed, SharesCounted;
    if calls != [] {
      FrameStays(w, calls[0]);
      InstructionCountsShares(w, calls[0], t);
      CounterIsSumOfShares(Next(w, calls[0]), calls[1..], t);
    }
  }
}
