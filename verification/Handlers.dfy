/** The remaining handlers as they run, on the accounts that an instruction is given. */
module Handlers {
  import opened Machine
  import opened Fees
  import opened MockYield
  import ReservePrice
  import opened YieldStrategies
  import opened YieldBearing
  import opened YieldMarkets
  import opened Ledgers
  import opened SettleCommitmentBundle
  import opened Buckets
  import opened AccountBindings
  import opened Instructions

  /** The SPL token accounts, as balances. */
  class TokenAccounts {
    var amounts: map<Key, u64>

    constructor (amounts: map<Key, u64>)
      ensures this.amounts == amounts
    {
      this.amounts := amounts;
    }

    method Take(source: Key, amount: u64) returns (r: Result<()>)
      modifies this
      ensures r.Ok? ==> Taken(old(amounts), source, amount) == Ok(amounts)
      ensures r.Err? ==> Taken(old(amounts), source, amount) == Err(r.error)
    {
      if source !in amounts || amounts[source] < amount {
        return Err(InsufficientTokens);
      }
      amounts := amounts[source := amounts[source] - amount];
      return Ok(());
    }

    method Give(destination: Key, amount: u64) returns (r: Result<()>)
      modifies this
      ensures r.Ok? ==> Given(old(amounts), destination, amount) == Ok(amounts)
      ensures r.Err? ==> Given(old(amounts), destination, amount) == Err(r.error)
    {
      if destination !in amounts {
        return Err(InvalidWithdrawalDestination);
      }
      var held :- Checked64(amounts[destination] + amount);
      amounts := amounts[destination := held];
      return Ok(());
    }

    /** `token::transfer`. */
    method Transfer(source: Key, destination: Key, amount: u64) returns (r: Result<()>)
      modifies this
      ensures r.Ok? ==> Transferred(old(amounts), source, destination, amount) == Ok(amounts)
      ensures r.Err? ==> Transferred(old(amounts), source, destination, amount) == Err(r.error)
    {
      var _ :- Take(source, amount);
      var _ :- Give(destination, amount);
      return Ok(());
    }
  }

  lemma OnlyEntry<V>(k: u16, before: V, after: V)
    ensures map[k := before][k := after] == map[k := after]
  {
  }

  /** The programs with the accounts of one yield-bearing token. */
  class Program {
    const config: Config
    const registry: map<u16, TokenEntry>
    const vaults: map<u16, Key>
    const mints: map<Key, Key>
    const buckets: BucketAccounts
    const tokens: TokenAccounts
    const yieldToken: u16
    const market: YieldMarket

    ghost function State(): World
      reads buckets, tokens, market, market.reserve, market.strategy
    {
      World(config, registry, vaults, mints, buckets.State(), tokens.amounts, map[yieldToken := market.State()])
    }

    constructor (w: World, yieldToken: u16, market: YieldMarket)
      requires w.markets == map[yieldToken := market.State()]
      ensures State() == w && fresh(buckets) && fresh(tokens) && this.market == market
    {
      config, registry, vaults, mints := w.config, w.registry, w.vaults, w.mints;
      buckets := new BucketAccounts(w.ledger);
      tokens := new TokenAccounts(w.wallets);
      this.yieldToken, this.market := yieldToken, market;
    }

    // ----- deposits

    method Deposit(p: u32, t: u16, amount: u64, source: Key) returns (r: Result<()>)
      modifies buckets, tokens
      ensures r.Ok? ==> Instructions.Deposited(old(State()), p, t, amount, source) == Ok(State())
      ensures r.Err? ==> Instructions.Deposited(old(State()), p, t, amount, source) == Err(r.error)
    {
      hide Transferred, DeltaApplied;
      :- Require(amount > 0, AmountMustBePositive);
      :- Require(t in registry, TokenNotFound);
      :- Require(!registry[t].yieldBearing, TokenIsYieldBearing);
      :- Require(source in mints && mints[source] == registry[t].mint, InvalidTokenMint);
      :- Require(source !in vaults.Values, Unauthorized);
      :- Require(t in vaults, TokenNotFound);
      var _ :- tokens.Transfer(source, vaults[t], amount);
      var _ :- buckets.ApplyTokenDelta(p, t, amount);
      return Ok(());
    }

    lemma {:induction false} SummedPrefixDecides(amounts: seq<u64>, n: nat)
      requires n <= |amounts| && Summed(amounts[..n]).Err?
      ensures Summed(amounts) == Summed(amounts[..n])
      decreases |amounts|
    {
      if n == |amounts| {
        assert amounts[..n] == amounts;
      } else {
        assert amounts[..|amounts| - 1][..n] == amounts[..n];
        SummedPrefixDecides(amounts[..|amounts| - 1], n);
      }
    }

    /** The checked fold of the amounts. */
    method SumAmounts(amounts: seq<u64>) returns (r: Result<u64>)
      ensures r == Summed(amounts)
    {
      var total: u64 := 0;
      var i := 0;
      while i < |amounts|
        invariant 0 <= i <= |amounts| && Summed(amounts[..i]) == Ok(total)
      {
        assert amounts[..i + 1][..i] == amounts[..i];
        if Summed(amounts[..i + 1]).Err? {
          SummedPrefixDecides(amounts, i + 1);
        }
        total :- Checked64(total + amounts[i]);
        i := i + 1;
      }
      assert amounts[..i] == amounts;
      return Ok(total);
    }

    lemma {:induction false} CreditPrefixDecides(l: Ledger, ps: seq<u32>, t: u16, amounts: seq<u64>, n: nat)
      requires |ps| == |amounts| && n <= |ps| && AllCredited(l, ps[..n], t, amounts[..n]).Err?
      ensures AllCredited(l, ps, t, amounts) == AllCredited(l, ps[..n], t, amounts[..n])
      decreases |ps|
    {
      if n == |ps| {
        assert ps[..n] == ps && amounts[..n] == amounts;
      } else {
        hide DeltaApplied;
        var m := |ps| - 1;
        assert ps[..m][..n] == ps[..n] && amounts[..m][..n] == amounts[..n];
        CreditPrefixDecides(l, ps[..m], t, amounts[..m], n);
      }
    }

    /** The position of the account bound to a bucket, searched from the front. */
    method FindBinding(bindings: seq<nat>, bucket: nat) returns (position: nat)
      ensures position <= |bindings|
      ensures position < |bindings| ==> bindings[position] == bucket
      ensures position == |bindings| ==> bucket !in bindings
    {
      position := 0;
      while position < |bindings| && bindings[position] != bucket
        invariant position <= |bindings|
        invariant bucket !in bindings[..position]
      {
        position := position + 1;
      }
      assert bindings[..|bindings|] == bindings;
    }

    /** The account of a bucket: bound already, or the next one supplied. */
    method BindRecipient(bindings: seq<nat>, bucket: nat, accounts: seq<AccountInfo>) returns (r: Result<seq<nat>>)
      ensures r.Ok? <==> Resolvable(OfParticipants, bindings, 0, bucket, accounts)
      ensures r.Ok? ==> r.value == Appended(bindings, bucket)
    {
      var position := FindBinding(bindings, bucket);
      if position < |bindings| {
        return Ok(bindings);
      }
      :- Require(|bindings| < |accounts|, InvalidDepositFor);
      :- Require(accounts[|bindings|] == ParticipantBucketInfo(bucket), BucketAccountMismatch);
      return Ok(bindings + [bucket]);
    }

    lemma CreditNext(l: Ledger, ps: seq<u32>, t: u16, amounts: seq<u64>, i: nat)
      requires |ps| == |amounts| && i < |ps| && AllCredited(l, ps[..i], t, amounts[..i]).Ok?
      ensures AllCredited(l, ps[..i + 1], t, amounts[..i + 1]) ==
              if amounts[i] == 0 then Err(AmountMustBePositive)
              else DeltaApplied(AllCredited(l, ps[..i], t, amounts[..i]).value, ps[i], t, amounts[i])
      ensures AllCredited(l, ps[..i + 1], t, amounts[..i + 1]).Err? ==>
                AllCredited(l, ps, t, amounts) == AllCredited(l, ps[..i + 1], t, amounts[..i + 1])
    {
      hide DeltaApplied;
      assert ps[..i + 1][..i] == ps[..i] && amounts[..i + 1][..i] == amounts[..i];
      if AllCredited(l, ps[..i + 1], t, amounts[..i + 1]).Err? {
        CreditPrefixDecides(l, ps, t, amounts, i + 1);
      }
    }

    lemma RecipientNext(ps: seq<u32>, accounts: seq<AccountInfo>, i: nat, bindings: seq<nat>)
      requires i < |ps| && bindings == FirstAppearances(ParticipantBuckets(ps[..i]))
      requires Supplied(OfParticipants, ParticipantBuckets(ps[..i]), 0, accounts)
      ensures FirstAppearances(ParticipantBuckets(ps[..i + 1])) == Appended(bindings, BucketOf(ps[i]))
      ensures Resolvable(OfParticipants, bindings, 0, BucketOf(ps[i]), accounts) <==>
                Supplied(OfParticipants, ParticipantBuckets(ps[..i + 1]), 0, accounts)
      ensures Supplied(OfParticipants, ParticipantBuckets(ps), 0, accounts) ==>
                Supplied(OfParticipants, ParticipantBuckets(ps[..i + 1]), 0, accounts)
    {
      var all := ParticipantBuckets(ps);
      assert ParticipantBuckets(ps[..i]) == all[..i] && ParticipantBuckets(ps[..i + 1]) == all[..i + 1];
      SuppliedNext(OfParticipants, all, 0, accounts, i);
    }

    lemma NobodyBound(accounts: seq<AccountInfo>)
      ensures Supplied(OfParticipants, ParticipantBuckets([]), 0, accounts)
      ensures FirstAppearances(ParticipantBuckets([])) == []
    {
      assert ParticipantBuckets([]) == [];
      NothingBound(OfParticipants, 0, accounts);
    }

    /** Credits the recipients in turn and binds their buckets to the supplied accounts. */
    method CreditAll(ps: seq<u32>, t: u16, amounts: seq<u64>, accounts: seq<AccountInfo>) returns (r: Result<nat>)
      requires |ps| == |amounts|
      modifies buckets`balances
      ensures r.Ok? ==> AllCredited(old(buckets.State()), ps, t, amounts) == Ok(buckets.State())
      ensures r.Ok? ==> Supplied(OfParticipants, ParticipantBuckets(ps), 0, accounts)
                        && r.value == |FirstAppearances(ParticipantBuckets(ps))|
      ensures r.Err? ==> AllCredited(old(buckets.State()), ps, t, amounts) == Err(r.error)
                         || !Supplied(OfParticipants, ParticipantBuckets(ps), 0, accounts)
    {
      ghost var l := buckets.State();
      var bindings: seq<nat> := [];
      var i := 0;
      assert ps[..0] == [] && amounts[..0] == [];
      NobodyBound(accounts);
      while i < |ps|
        invariant 0 <= i <= |ps| && AllCredited(l, ps[..i], t, amounts[..i]) == Ok(buckets.State())
        invariant bindings == FirstAppearances(ParticipantBuckets(ps[..i]))
        invariant Supplied(OfParticipants, ParticipantBuckets(ps[..i]), 0, accounts)
      {
        hide DeltaApplied, AllCredited, Resolvable, FirstAppearances, ParticipantBuckets, Supplied, Appended;
        CreditNext(l, ps, t, amounts, i);
        RecipientNext(ps, accounts, i, bindings);
        :- Require(amounts[i] > 0, AmountMustBePositive);
        bindings :- BindRecipient(bindings, BucketOf(ps[i]), accounts);
        var _ :- buckets.ApplyTokenDelta(ps[i], t, amounts[i]);
        i := i + 1;
      }
      assert ps[..i] == ps && amounts[..i] == amounts;
      return Ok(|bindings|);
    }

    /** The remaining accounts of a deposit for others: each recipient bucket once. */
    function RecipientAccounts(ps: seq<u32>): seq<AccountInfo> {
      Infos(OfParticipants, FirstAppearances(ParticipantBuckets(ps)))
    }

    lemma RecipientAccountsSupplied(ps: seq<u32>, accounts: seq<AccountInfo>)
      ensures accounts == RecipientAccounts(ps) <==>
                Supplied(OfParticipants, ParticipantBuckets(ps), 0, accounts)
                && |FirstAppearances(ParticipantBuckets(ps))| == |accounts|
    {
      hide FirstAppearances, ParticipantBuckets;
      if |FirstAppearances(ParticipantBuckets(ps))| == |accounts| {
        assert accounts[0..|accounts|] == accounts;
      }
    }

    /** With the accounts of the recipients, and no others, the handler makes the specified deposit,
        result and error alike; with any other accounts it fails. */
    method DepositFor(ps: seq<u32>, t: u16, amounts: seq<u64>, source: Key, accounts: seq<AccountInfo>)
      returns (r: Result<()>)
      modifies buckets, tokens
      ensures r.Ok? ==> accounts == RecipientAccounts(ps)
      ensures r.Ok? ==> DepositedFor(old(State()), ps, t, amounts, source) == Ok(State())
      ensures r.Err? ==> DepositedFor(old(State()), ps, t, amounts, source) == Err(r.error)
                         || accounts != RecipientAccounts(ps)
    {
      hide Transferred, AllCredited, Summed, Supplied, ParticipantBuckets, FirstAppearances, RecipientAccounts;
      RecipientAccountsSupplied(ps, accounts);
      :- Require(amounts != [] && |amounts| == |ps|, InvalidDepositFor);
      :- Require(|amounts| <= MAX_DEPOSIT_FOR_RECIPIENTS, InvalidDepositFor);
      :- Require(t in registry, TokenNotFound);
      :- Require(!registry[t].yieldBearing, TokenIsYieldBearing);
      :- Require(source in mints && mints[source] == registry[t].mint, InvalidTokenMint);
      :- Require(source !in vaults.Values, Unauthorized);
      :- Require(t in vaults, TokenNotFound);
      var total :- SumAmounts(amounts);
      :- Require(total > 0, AmountMustBePositive);
      var _ :- tokens.Transfer(source, vaults[t], total);
      var bound :- CreditAll(ps, t, amounts, accounts);
      :- Require(bound == |accounts|, InvalidDepositFor);
      return Ok(());
    }

    // ----- withdrawals

    /** `request_withdrawal`, and its twin for shares, after the token's kind is checked. */
    method RequestWithdrawal(now: i64, p: u32, t: u16, amount: u64, destination: Key, mint: Key) returns (r: Result<()>)
      modifies buckets`balances
      ensures r.Ok? ==> WithdrawalRequested(old(State()), now, p, t, amount, destination, mint) == Ok(State())
      ensures r.Err? ==> WithdrawalRequested(old(State()), now, p, t, amount, destination, mint) == Err(r.error)
    {
      hide WithdrawalInitiated;
      :- Require(amount > 0, AmountMustBePositive);
      :- Require(destination != DEFAULT_KEY, InvalidWithdrawalDestination);
      :- Require(destination in mints && mints[destination] == mint, InvalidTokenMint);
      var unlockAt :- CheckedTime(now + config.withdrawalTimelock);
      var _ :- buckets.InitiateTokenWithdrawal(p, t, amount, destination, unlockAt);
      return Ok(());
    }

    /** The checks on a pending withdrawal that both executions make. */
    method ReadDue(now: i64, p: u32, t: u16, destination: Key) returns (r: Result<u64>)
      ensures r == DueWithdrawal(buckets.State(), now, p, t, destination)
    {
      if p !in buckets.slots {
        return Err(ParticipantNotFound);
      }
      :- Require(Account(p, t) in buckets.balances, TokenNotFound);
      var b := buckets.balances[Account(p, t)];
      :- Require(b.unlockAt != 0, NoWithdrawalPending);
      :- Require(destination == b.destination, InvalidWithdrawalDestination);
      :- Require(now >= b.unlockAt, WithdrawalLocked);
      return Ok(b.withdrawing);
    }

    method ExecuteWithdrawal(now: i64, p: u32, t: u16, destination: Key, feeAccount: Key) returns (r: Result<()>)
      modifies buckets, tokens
      ensures r.Ok? ==> WithdrawalExecuted(old(State()), now, p, t, destination, feeAccount) == Ok(State())
      ensures r.Err? ==> WithdrawalExecuted(old(State()), now, p, t, destination, feeAccount) == Err(r.error)
    {
      hide Transferred, ScaledMinFee, DueWithdrawal, Rounding.MulDiv;
      :- Require(t in registry, TokenNotFound);
      :- Require(!registry[t].yieldBearing, TokenIsYieldBearing);
      :- Require(t in vaults, TokenNotFound);
      :- Require(registry[t].decimals <= MAX_TOKEN_DECIMALS, InvalidTokenDecimals);
      var withdrawing :- ReadDue(now, p, t, destination);
      :- Require(destination in mints && mints[destination] == registry[t].mint, InvalidTokenMint);
      if withdrawing == 0 {
        var _ :- buckets.ClearTokenWithdrawal(p, t);
        return Ok(());
      }
      var fee :- WithdrawalFee(withdrawing, config.feeBps, registry[t].decimals);
      var net := withdrawing - fee;
      if net > 0 {
        var _ :- tokens.Transfer(vaults[t], destination, net);
      }
      if fee > 0 {
        var _ :- tokens.Transfer(vaults[t], feeAccount, fee);
      }
      var _ :- buckets.ClearTokenWithdrawal(p, t);
      return Ok(());
    }

    // ----- collateral

    method LockChannelFunds(id: LaneId, amount: u64) returns (r: Result<()>)
      modifies buckets
      ensures r.Ok? ==> Locked(old(State()), id, amount) == Ok(State())
      ensures r.Err? ==> Locked(old(State()), id, amount) == Err(r.error)
    {
      hide AvailableDebited, LockAdded;
      :- Require(amount > 0, AmountMustBePositive);
      :- Require(id.token in registry, TokenNotFound);
      :- Require(id.payer != id.payee, SelfChannelNotAllowed);
      var _ :- buckets.DebitTokenAvailable(id.payer, id.token, amount);
      var _ :- buckets.AddLaneLockedBalance(id, amount);
      return Ok(());
    }

    method CooperativeUnlockChannelFunds(id: LaneId, amount: u64, payeeOwner: Key) returns (r: Result<()>)
      modifies buckets
      ensures r.Ok? ==> UnlockedTogether(old(State()), id, amount, payeeOwner) == Ok(State())
      ensures r.Err? ==> UnlockedTogether(old(State()), id, amount, payeeOwner) == Err(r.error)
    {
      hide CooperativelyUnlocked, DeltaApplied;
      :- Require(amount > 0, AmountMustBePositive);
      :- Require(id.token in registry, TokenNotFound);
      :- Require(id.payee in buckets.slots, ParticipantNotFound);
      :- Require(payeeOwner == buckets.slots[id.payee].owner, CounterpartyConsentRequired);
      var _ :- buckets.CooperativeUnlockLane(id, amount);
      var _ :- buckets.ApplyTokenDelta(id.payer, id.token, amount);
      return Ok(());
    }

    method RequestUnlockChannelFunds(now: i64, id: LaneId, amount: u64) returns (r: Result<()>)
      modifies buckets`lanes
      ensures r.Ok? ==> ReleaseRequested(old(State()), now, id, amount) == Ok(State())
      ensures r.Err? ==> ReleaseRequested(old(State()), now, id, amount) == Err(r.error)
    {
      if amount == 0 {
        return Err(AmountMustBePositive);
      }
      :- Require(id.payer != id.payee, SelfChannelNotAllowed);
      var timelock :- EffectiveUnlockTimelock(config);
      var unlockAt :- CheckedTime(now + timelock);
      var _ :- buckets.RequestLaneUnlock(id, amount, now);
      return Ok(());
    }

    method ExecuteUnlockChannelFunds(now: i64, id: LaneId) returns (r: Result<u64>)
      modifies buckets
      ensures r.Ok? ==> ReleaseExecuted(old(State()), now, id) == Ok((State(), r.value))
      ensures r.Err? ==> ReleaseExecuted(old(State()), now, id) == Err(r.error)
    {
      if id.payer == id.payee {
        return Err(SelfChannelNotAllowed);
      }
      :- Require(id in buckets.lanes, ChannelNotInitialized);
      var lane := buckets.lanes[id];
      :- Require(lane.HasPendingUnlock(), NoChannelUnlockPending);
      var timelock :- EffectiveUnlockTimelock(config);
      var unlockAt :- CheckedTime(lane.unlockRequestedAt + timelock);
      :- Require(now >= unlockAt, WithdrawalLocked);
      var unlocked := buckets.ExecuteLaneUnlock(id);
      assert unlocked.Ok?;
      var released := unlocked.value;
      if released > 0 {
        var _ :- buckets.ApplyTokenDelta(id.payer, id.token, released);
      }
      return Ok(released);
    }

    // ----- yield

    method DepositYieldBearing(now: i64, p: u32, t: u16, amount: u64, source: Key) returns (r: Result<()>)
      modifies buckets, tokens, market, market.reserve, market.strategy
      ensures r.Ok? ==> YieldDepositMade(old(State()), now, p, t, amount, source) == Ok(State())
      ensures r.Err? ==> YieldDepositMade(old(State()), now, p, t, amount, source) == Err(r.error)
    {
      hide StrategyAccrued, DepositInto, RequireSolvent, Taken, DeltaApplied;
      ghost var m := market.State();
      :- Require(amount > 0, AmountMustBePositive);
      :- Require(t == yieldToken, InvalidYieldStrategy);
      :- Require(t in registry, TokenNotFound);
      :- Require(registry[t].yieldBearing, TokenIsNotYieldBearing);
      :- Require(source in mints && mints[source] == registry[t].mint, InvalidTokenMint);
      :- Require(source !in vaults.Values, Unauthorized);
      var _ :- market.AccrueStrategy(now);
      var _ :- tokens.Take(source, amount);
      var shares :- market.DepositLiquidity(now, amount);
      var _ :- buckets.ApplyTokenDelta(p, t, shares);
      var _ :- market.CheckSolvency(market.strategy.lastSettledUnderlying);
      OnlyEntry(yieldToken, m, market.State());
      return Ok(());
    }

    method OptInYield(now: i64, p: u32, plain: u16, t: u16, amount: u64) returns (r: Result<()>)
      modifies buckets, tokens, market, market.reserve, market.strategy
      ensures r.Ok? ==> OptedInto(old(State()), now, p, plain, t, amount) == Ok(State())
      ensures r.Err? ==> OptedInto(old(State()), now, p, plain, t, amount) == Err(r.error)
    {
      hide StrategyAccrued, DepositInto, RequireSolvent, Taken, DeltaApplied, AvailableDebited;
      ghost var m := market.State();
      :- Require(amount > 0, AmountMustBePositive);
      :- Require(plain != t, InvalidYieldStrategy);
      :- Require(t == yieldToken, InvalidYieldStrategy);
      :- Require(plain in registry, TokenNotFound);
      :- Require(!registry[plain].yieldBearing, TokenIsYieldBearing);
      :- Require(t in registry && registry[plain].mint == registry[t].mint, MismatchedYieldUnderlying);
      :- Require(plain in vaults, MismatchedYieldUnderlying);
      :- Require(registry[t].yieldBearing, TokenIsNotYieldBearing);
      var _ :- market.AccrueStrategy(now);
      var _ :- buckets.DebitTokenAvailable(p, plain, amount);
      var _ :- tokens.Take(vaults[plain], amount);
      var shares :- market.DepositLiquidity(now, amount);
      var _ :- buckets.ApplyTokenDelta(p, t, shares);
      var _ :- market.CheckSolvency(market.strategy.lastSettledUnderlying);
      OnlyEntry(yieldToken, m, market.State());
      return Ok(());
    }

    method OptOutYield(now: i64, p: u32, plain: u16, t: u16, shares: u64) returns (r: Result<()>)
      modifies buckets, tokens, market, market.reserve, market.strategy
      ensures r.Ok? ==> OptedOutOf(old(State()), now, p, plain, t, shares) == Ok(State())
      ensures r.Err? ==> OptedOutOf(old(State()), now, p, plain, t, shares) == Err(r.error)
    {
      hide StrategyAccrued, OptOutFrom, RequireSolvent, Given, DeltaApplied, AvailableDebited;
      ghost var m := market.State();
      :- Require(shares > 0, AmountMustBePositive);
      :- Require(plain != t, InvalidYieldStrategy);
      :- Require(t == yieldToken, InvalidYieldStrategy);
      :- Require(t in registry, TokenNotFound);
      :- Require(registry[t].yieldBearing, TokenIsNotYieldBearing);
      :- Require(plain in registry, TokenNotFound);
      :- Require(!registry[plain].yieldBearing, TokenIsYieldBearing);
      :- Require(t in registry && registry[plain].mint == registry[t].mint, MismatchedYieldUnderlying);
      :- Require(plain in vaults, MismatchedYieldUnderlying);
      var snap :- market.AccrueStrategy(now);
      var _ :- buckets.DebitTokenAvailable(p, t, shares);
      var redeemed :- market.RedeemShares(now, shares, snap);
      var _ :- tokens.Give(vaults[plain], redeemed.1);
      var _ :- buckets.ApplyTokenDelta(p, plain, redeemed.0);
      var _ :- market.CheckSolvency(market.strategy.lastSettledUnderlying);
      OnlyEntry(yieldToken, m, market.State());
      return Ok(());
    }

    method ExecuteWithdrawalYieldBearing(now: i64, p: u32, t: u16, destination: Key, feeAccount: Key)
      returns (r: Result<Payout>)
      modifies buckets, tokens, market, market.reserve, market.strategy
      ensures r.Ok? ==>
                YieldWithdrawalExecuted(old(State()), now, p, t, destination, feeAccount) == Ok((State(), r.value))
      ensures r.Err? ==>
                YieldWithdrawalExecuted(old(State()), now, p, t, destination, feeAccount) == Err(r.error)
    {
      hide StrategyAccrued, YieldPaid, Given, DueWithdrawal, WithdrawalCleared;
      ghost var m := market.State();
      :- Require(t in registry, TokenNotFound);
      :- Require(registry[t].yieldBearing, TokenIsNotYieldBearing);
      :- Require(registry[t].decimals <= MAX_TOKEN_DECIMALS, InvalidTokenDecimals);
      :- Require(t == yieldToken, InvalidYieldStrategy);
      var snap :- market.AccrueStrategy(now);
      var shares :- ReadDue(now, p, t, destination);
      :- Require(destination in mints && mints[destination] == registry[t].mint, InvalidTokenMint);
      var payout :- market.PayAccrued(now, shares, config.feeBps, registry[t].decimals, snap);
      var _ :- tokens.Give(destination, payout.netPaid);
      var _ :- tokens.Give(feeAccount, payout.feePaid);
      var _ :- buckets.ClearTokenWithdrawal(p, t);
      OnlyEntry(yieldToken, m, market.State());
      return Ok(payout);
    }

    method ClaimProtocolYieldFee(now: i64, t: u16, amount: u64, recipient: Key, destination: Key) returns (r: Result<u64>)
      modifies tokens, market, market.reserve, market.strategy
      ensures r.Ok? ==> ProtocolFeeClaimed(old(State()), now, t, amount, recipient, destination) == Ok((State(), r.value))
      ensures r.Err? ==> ProtocolFeeClaimed(old(State()), now, t, amount, recipient, destination) == Err(r.error)
    {
      hide ProtocolClaimed, Given;
      ghost var m := market.State();
      :- Require(amount > 0, AmountMustBePositive);
      :- Require(t == yieldToken, InvalidYieldStrategy);
      :- Require(recipient == config.feeRecipient, InvalidFeeRecipient);
      var paid :- market.ClaimProtocolYield(now, amount);
      var _ :- tokens.Give(destination, paid);
      OnlyEntry(yieldToken, m, market.State());
      return Ok(paid);
    }

    /** An instruction of another account on the reserve. */
    method StepReserve(t: u16, step: ReservePrice.ReserveCall) returns (r: Result<()>)
      modifies market.reserve
      ensures r.Ok? ==> ReserveStepped(old(State()), t, step) == Ok(State())
      ensures r.Err? ==> ReserveStepped(old(State()), t, step) == Err(r.error)
    {
      hide Accrued, MockYield.Deposited, Redeemed, ApyUpdated;
      ghost var m := market.State();
      var reserve := market.reserve;
      if t != yieldToken {
        return Err(InvalidYieldStrategy);
      }
      match step {
        case CallAccrue(now) =>
          var _ :- reserve.Accrue(now);
        case CallDeposit(now, amount) =>
          var _ :- reserve.DepositReserveLiquidity(now, amount);
        case CallRedeem(now, shares) =>
          :- Require(shares <= reserve.shareSupply - market.shareVault, InsufficientTokens);
          var _ :- reserve.RedeemReserveCollateral(now, shares);
        case CallUpdateApy(caller, now, apyBps) =>
          var _ :- reserve.UpdateApyBps(caller, now, apyBps);
      }
      OnlyEntry(yieldToken, m, market.State());
      return Ok(());
    }
  }
}
