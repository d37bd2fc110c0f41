/** One transaction: dispatch to the handler, and undo everything it wrote when it fails. */
module Transactions {
  import opened Machine
  import opened YieldBearing
  import opened Ledgers
  import opened SettleIndividual
  import opened ClearingRound
  import opened SettleCommitmentBundle
  import opened SettlementHandlers
  import opened RoundHandler
  import opened Instructions
  import opened Handlers

  ghost predicate OnLedger(call: Call) {
    || call.CreateLane? || call.CancelWithdrawal? || call.RequestWithdrawal? || call.RequestYieldWithdrawal?
    || call.Lock? || call.CooperativeUnlock? || call.RequestUnlock? || call.ExecuteUnlock?
    || call.SettleOne? || call.SettleBundle? || call.SettleRound?
  }

  ghost predicate Settles(call: Call) {
    call.SettleOne? || call.SettleBundle? || call.SettleRound?
  }

  method RunSettlement(p: Program, call: Call) returns (r: Result<()>)
    requires Settles(call)
    modifies p.buckets
    ensures r.Ok? ==> Executed(old(p.State()), call) == Ok(p.State())
    ensures r.Err? ==> Executed(old(p.State()), call) == Err(r.error)
  {
    hide Settled, BundleSettled, RoundSettled;
    var b := p.buckets;
    match call
    case SettleOne(s) =>
      var amount :- SettleIndividually(b, p.registry.Keys, s, IndividualAccounts(s.commitment));
      return Ok(());
    case SettleBundle(submitter, items) =>
      var accounts := if items == [] then [] else BundleAccounts(items);
      var total :- SettleCommitmentsTogether(b, p.registry.Keys, submitter, items, accounts);
      return Ok(());
    case SettleRound(t, blocks, signatureValid) =>
      var totals :- SettleClearingRound(b, p.registry.Keys, t, blocks, RoundAccounts(t, blocks), signatureValid);
      return Ok(());
  }

  method RunOnLedger(p: Program, call: Call) returns (r: Result<()>)
    requires OnLedger(call) && !Settles(call)
    modifies p.buckets
    ensures r.Ok? ==> Executed(old(p.State()), call) == Ok(p.State())
    ensures r.Err? ==> Executed(old(p.State()), call) == Err(r.error)
  {
    hide Locked, UnlockedTogether, ReleaseRequested, ReleaseExecuted,
         WithdrawalRequested, LaneCreated, WithdrawalCancelled;
    var b := p.buckets;
    match call
    case CreateLane(id, signer) => r := b.InitializeLane(id, signer);
    case CancelWithdrawal(u, t) =>
      var returned :- b.CancelTokenWithdrawal(u, t);
      return Ok(());
    case RequestWithdrawal(now, u, t, amount, destination) =>
      :- Require(t in p.registry, TokenNotFound);
      :- Require(!p.registry[t].yieldBearing, TokenIsYieldBearing);
      r := p.RequestWithdrawal(now, u, t, amount, destination, p.registry[t].mint);
    case RequestYieldWithdrawal(now, u, t, shares, destination) =>
      :- Require(t in p.registry, TokenNotFound);
      :- Require(p.registry[t].yieldBearing, TokenIsNotYieldBearing);
      r := p.RequestWithdrawal(now, u, t, shares, destination, p.registry[t].mint);
    case Lock(id, amount) => r := p.LockChannelFunds(id, amount);
    case CooperativeUnlock(id, amount, payeeOwner) => r := p.CooperativeUnlockChannelFunds(id, amount, payeeOwner);
    case RequestUnlock(now, id, amount) => r := p.RequestUnlockChannelFunds(now, id, amount);
    case ExecuteUnlock(now, id) =>
      var released :- p.ExecuteUnlockChannelFunds(now, id);
      return Ok(());
  }

  method RunOnTokens(p: Program, call: Call) returns (r: Result<()>)
    requires !OnLedger(call)
    modifies p.buckets, p.tokens, p.market, p.market.reserve, p.market.strategy
    ensures r.Ok? ==> Executed(old(p.State()), call) == Ok(p.State())
    ensures r.Err? ==> Executed(old(p.State()), call) == Err(r.error)
  {
    hide YieldAccrued, Given, Instructions.Deposited, DepositedFor, WithdrawalExecuted, YieldDepositMade,
         YieldWithdrawalExecuted, ProtocolFeeClaimed, OptedInto, OptedOutOf, ReserveStepped;
    match call
    case Deposit(u, t, amount, source) => r := p.Deposit(u, t, amount, source);
    case DepositFor(us, t, amounts, source) => r := p.DepositFor(us, t, amounts, source, p.RecipientAccounts(us));
    case ExecuteWithdrawal(now, u, t, destination, feeAccount) =>
      r := p.ExecuteWithdrawal(now, u, t, destination, feeAccount);
    case AccrueYield(now, t) =>
      :- Require(t == p.yieldToken, InvalidYieldStrategy);
      ghost var m := p.market.State();
      r := p.market.AccrueYield(now);
      OnlyEntry(p.yieldToken, m, p.market.State());
    case DepositYield(now, u, t, amount, source) => r := p.DepositYieldBearing(now, u, t, amount, source);
    case ExecuteYieldWithdrawal(now, u, t, destination, feeAccount) =>
      var payout :- p.ExecuteWithdrawalYieldBearing(now, u, t, destination, feeAccount);
      return Ok(());
    case ClaimProtocolFee(now, t, amount, recipient, destination) =>
      var paid :- p.ClaimProtocolYieldFee(now, t, amount, recipient, destination);
      return Ok(());
    case OptIn(now, u, plain, t, amount) => r := p.OptInYield(now, u, plain, t, amount);
    case OptOut(now, u, plain, t, shares) => r := p.OptOutYield(now, u, plain, t, shares);
    case OutsideTransfer(destination, amount) => r := p.tokens.Give(destination, amount);
    case ReserveStep(t, step) => r := p.StepReserve(t, step);
  }

  /** Handlers write lanes and balances before their last checks; the runtime discards the writes of
      a failed transaction, so the state is the old one or that of the completed handler. */
  method Transact(p: Program, call: Call) returns (r: Result<()>)
    modifies p.buckets, p.tokens, p.market, p.market.reserve, p.market.strategy
    ensures p.State() == Next(old(p.State()), call)
    ensures r.Ok? <==> Executed(old(p.State()), call).Ok?
  {
    hide Executed;
    var b, reserve, strategy := p.buckets, p.market.reserve, p.market.strategy;
    var balances, lanes, amounts, shareVault := b.balances, b.lanes, p.tokens.amounts, p.market.shareVault;
    var apyBps, lastAccrualTs := reserve.apyBps, reserve.lastAccrualTs;
    var totalUnderlying, shareSupply := reserve.totalUnderlying, reserve.shareSupply;
    var userIndex, settled := strategy.userIndex, strategy.lastSettledUnderlying;
    var totalUserShares, protocolOwed := strategy.totalUserShares, strategy.protocolOwedUnderlying;
    if call.CreateLane? || call.CancelWithdrawal? || call.RequestWithdrawal? || call.RequestYieldWithdrawal?
       || call.Lock? || call.CooperativeUnlock? || call.RequestUnlock? || call.ExecuteUnlock?
    {
      r := RunOnLedger(p, call);
    } else if call.SettleOne? || call.SettleBundle? || call.SettleRound? {
      r := RunSettlement(p, call);
    } else {
      r := RunOnTokens(p, call);
    }
    if r.Err? {
      b.balances, b.lanes, p.tokens.amounts, p.market.shareVault := balances, lanes, amounts, shareVault;
      reserve.apyBps, reserve.lastAccrualTs := apyBps, lastAccrualTs;
      reserve.totalUnderlying, reserve.shareSupply := totalUnderlying, shareSupply;
      strategy.userIndex, strategy.lastSettledUnderlying := userIndex, settled;
      strategy.totalUserShares, strategy.protocolOwedUnderlying := totalUserShares, protocolOwed;
    }
  }
}
