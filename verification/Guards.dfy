/** What must hold for an instruction to succeed, spelled out. */
module Guards {
  import opened Machine
  import opened Fees
  import opened Ledgers
  import opened BalanceDeltas
  import opened ClearingRound
  import opened SettleCommitmentBundle
  import opened YieldStrategies
  import opened YieldBearing
  import opened Instructions

  ghost predicate IsPlain(w: World, t: u16) {
    t in w.registry && !w.registry[t].yieldBearing
  }

  ghost predicate IsShares(w: World, t: u16) {
    t in w.registry && w.registry[t].yieldBearing && t in w.markets
  }

  ghost predicate HoldsToken(w: World, account: Key, t: u16) {
    t in w.registry && account in w.mints && w.mints[account] == w.registry[t].mint
  }

  ghost predicate IsPair(w: World, plain: u16, t: u16) {
    plain != t && IsPlain(w, plain) && IsShares(w, t) && w.registry[plain].mint == w.registry[t].mint
  }

  /** Positive amounts, the right kind of token, token accounts of the right mint, no lane to oneself,
      consent where it is due, and the configured recipient of fees. */
  ghost predicate Allowed(w: World, call: Call) {
    match call
    case CreateLane(id, _) => id.payer != id.payee && id !in w.ledger.lanes
    case Deposit(_, t, amount, source) => amount > 0 && IsPlain(w, t) && HoldsToken(w, source, t)
    case DepositFor(ps, t, amounts, source) =>
      1 <= |ps| == |amounts| <= 16 && IsPlain(w, t) && HoldsToken(w, source, t)
    case RequestWithdrawal(_, _, t, amount, destination) =>
      amount > 0 && IsPlain(w, t) && destination != DEFAULT_KEY && HoldsToken(w, destination, t)
    case CancelWithdrawal(p, t) => BalanceOf(w.ledger, Account(p, t)).unlockAt != 0
    case ExecuteWithdrawal(_, _, t, destination, _) =>
      IsPlain(w, t) && w.registry[t].decimals <= 20 && HoldsToken(w, destination, t)
    case Lock(id, amount) =>
      amount > 0 && id.payer != id.payee && id.token in w.registry && id in w.ledger.lanes
    case CooperativeUnlock(id, amount, payeeOwner) =>
      && amount > 0 && id.payer != id.payee && id.token in w.registry && id in w.ledger.lanes
      && id.payee in w.ledger.slots && payeeOwner == w.ledger.slots[id.payee].owner
    case RequestUnlock(_, id, amount) =>
      id.payer != id.payee && id in w.ledger.lanes && 0 < amount <= w.ledger.lanes[id].lockedBalance
    case ExecuteUnlock(_, id) =>
      && id.payer != id.payee && id in w.ledger.lanes
      && w.ledger.lanes[id].pendingUnlockAmount > 0 && w.ledger.lanes[id].unlockRequestedAt != 0
    case SettleOne(s) => s.commitment.token in w.registry && s.commitment.payer != s.commitment.payee
    case SettleBundle(_, items) => items != [] && items[0].commitment.token in w.registry
    case SettleRound(t, _, signatureValid) => t in w.registry && signatureValid
    case AccrueYield(_, t) => t in w.markets
    case DepositYield(_, _, t, amount, source) => amount > 0 && IsShares(w, t) && HoldsToken(w, source, t)
    case RequestYieldWithdrawal(_, _, t, shares, destination) =>
      && shares > 0 && t in w.registry && w.registry[t].yieldBearing
      && destination != DEFAULT_KEY && HoldsToken(w, destination, t)
    case ExecuteYieldWithdrawal(_, _, t, destination, _) =>
      IsShares(w, t) && w.registry[t].decimals <= 20 && HoldsToken(w, destination, t)
    case ClaimProtocolFee(_, t, amount, recipient, _) =>
      amount > 0 && t in w.markets && recipient == w.config.feeRecipient
    case OptIn(_, _, plain, t, amount) => amount > 0 && IsPair(w, plain, t)
    case OptOut(_, _, plain, t, shares) => shares > 0 && IsPair(w, plain, t)
    case OutsideTransfer(destination, _) => destination in w.wallets
    case ReserveStep(t, step) =>
      t in w.markets
      && (step.CallRedeem? ==> w.markets[t].shareVault + step.shares <= w.markets[t].reserve.shareSupply)
  }

  lemma LedgerCallsAllowed(w: World, call: Call)
    requires Executed(w, call).Ok?
    requires call.CreateLane? || call.CancelWithdrawal? || call.Lock? || call.CooperativeUnlock? || call.RequestUnlock?
             || call.ExecuteUnlock?
    ensures Allowed(w, call)
  {
    hide DeltaApplied;
  }

  lemma SettlementsAllowed(w: World, call: Call)
    requires Executed(w, call).Ok? && (call.SettleOne? || call.SettleBundle? || call.SettleRound?)
    ensures Allowed(w, call)
  {
    hide DeltaApplied, ItemsApplied, RoundBody, ParticipantsLoaded, Uniform, PositionsApplied;
  }

  lemma PlainCallsAllowed(w: World, call: Call)
    requires Executed(w, call).Ok?
    requires call.Deposit? || call.DepositFor? || call.RequestWithdrawal? || call.ExecuteWithdrawal? || call.OutsideTransfer?
    ensures Allowed(w, call)
  {
    hide DeltaApplied, AllCredited, Summed, Transferred, TransferredIfAny, WithdrawalFee, WithdrawalCleared,
         WithdrawalInitiated, DueWithdrawal;
  }

  lemma YieldCallsAllowed(w: World, call: Call)
    requires Executed(w, call).Ok?
    requires call.AccrueYield? || call.DepositYield? || call.RequestYieldWithdrawal? || call.ExecuteYieldWithdrawal?
             || call.ClaimProtocolFee? || call.ReserveStep?
    ensures Allowed(w, call)
  {
    hide DeltaApplied, StrategyAccrued, DepositInto, YieldPaid, ClaimFrom, RequireSolvent, WithdrawalCleared,
         WithdrawalInitiated, DueWithdrawal, Given, Taken;
  }

  lemma OptsAllowed(w: World, call: Call)
    requires Executed(w, call).Ok? && (call.OptIn? || call.OptOut?)
    ensures Allowed(w, call)
  {
    hide DeltaApplied, AvailableDebited, StrategyAccrued, DepositInto, OptOutFrom, RequireSolvent, Given, Taken;
  }

  /** No instruction succeeds unless it is allowed. */
  lemma OnlyAllowedSucceeds(w: World, call: Call)
    requires Executed(w, call).Ok?
    ensures Allowed(w, call)
  {
    hide Executed, Allowed;
    if call.SettleOne? || call.SettleBundle? || call.SettleRound? {
      SettlementsAllowed(w, call);
    } else if call.OptIn? || call.OptOut? {
      OptsAllowed(w, call);
    } else if call.Deposit? || call.DepositFor? || call.RequestWithdrawal? || call.ExecuteWithdrawal?
              || call.OutsideTransfer? {
      PlainCallsAllowed(w, call);
    } else if call.CreateLane? || call.CancelWithdrawal? || call.Lock? || call.CooperativeUnlock? || call.RequestUnlock?
              || call.ExecuteUnlock? {
      LedgerCallsAllowed(w, call);
    } else {
      YieldCallsAllowed(w, call);
    }
  }

  // ----- constants that decide

  /** A lane is born empty, with the signer it names and nothing pending; no other lane changes. */
  lemma LaneIsBornEmpty(l: Ledger, id: LaneId, signer: Key)
    requires LaneCreated(l, id, signer).Ok?
    ensures var l' := LaneCreated(l, id, signer).value;
            && id in l'.lanes && l'.lanes[id].settledCumulative == 0 && l'.lanes[id].lockedBalance == 0
            && l'.lanes[id].authorizedSigner == signer
            && l'.lanes[id].pendingUnlockAmount == 0 && l'.lanes[id].unlockRequestedAt == 0
            && (forall x :: x in l.lanes ==> x in l'.lanes && l'.lanes[x] == l.lanes[x])
            && l'.balances == l.balances && l'.slots == l.slots
  {
  }

  /** A participant holds at most 16 tokens: a credit in a new one succeeds exactly below that. */
  lemma AtMostSixteenTokens(l: Ledger, p: u32, t: u16, amount: u64)
    requires p in l.slots && amount > 0 && Account(p, t) !in l.balances
    ensures DeltaApplied(l, p, t, amount).Ok? <==> |set a | a in l.balances && a.participant == p| < 16
  {
  }

  /** A stored timelock counts if it is positive; otherwise the chain decides: three days on mainnet,
      devnet and testnet, two seconds on localnet, and no other chain is known. */
  lemma ChannelTimelocks(c: Config)
    ensures c.unlockTimelock > 0 ==> EffectiveUnlockTimelock(c) == Ok(c.unlockTimelock)
    ensures c.unlockTimelock <= 0 && c.chainId <= 2 ==> EffectiveUnlockTimelock(c) == Ok(3 * 24 * 3600)
    ensures c.unlockTimelock <= 0 && c.chainId == 3 ==> EffectiveUnlockTimelock(c) == Ok(2)
    ensures c.unlockTimelock <= 0 && c.chainId > 3 ==> EffectiveUnlockTimelock(c) == Err(InvalidChainId)
  {
  }
}
