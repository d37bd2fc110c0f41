/** What single instructions do to one balance and one lane, and which of them undo each other. */
module Effects {
  import opened Machine
  import opened Ledgers
  import opened SettleIndividual
  import opened BalanceDeltas
  import opened Rounding
  import opened MockYield
  import opened YieldStrategies
  import opened YieldBearing
  import opened Instructions
  import opened Backing
  import opened LaneRuns

  /** Nothing but the entry of `a` differs. */
  ghost predicate OnlyAccount(l: Ledger, l': Ledger, a: Account) {
    && l'.slots == l.slots && l'.lanes == l.lanes
    && a in l.balances && l'.balances.Keys == l.balances.Keys
    && forall x :: x in l.balances && x != a ==> l'.balances[x] == l.balances[x]
  }

  /** Nothing but the lane `id` differs, and of it neither the settled amount nor the signer. */
  ghost predicate OnlyLane(l: Ledger, l': Ledger, id: LaneId) {
    && l'.slots == l.slots && l'.balances == l.balances
    && id in l.lanes && l'.lanes.Keys == l.lanes.Keys
    && l'.lanes[id].settledCumulative == l.lanes[id].settledCumulative
    && l'.lanes[id].authorizedSigner == l.lanes[id].authorizedSigner
    && forall x :: x in l.lanes && x != id ==> l'.lanes[x] == l.lanes[x]
  }

  // ----- withdrawals

  /** A request moves the amount aside, leaves the total alone, and touches no other entry; it is
      refused exactly when another one is open, the available part is short, or the sum overflows. */
  lemma RequestMovesAside(l: Ledger, p: u32, t: u16, amount: u64, destination: Key, unlockAt: i64)
    requires p in l.slots && Account(p, t) in l.balances
    ensures var a := Account(p, t);
            var b := l.balances[a];
            var r := WithdrawalInitiated(l, p, t, amount, destination, unlockAt);
            && (r.Ok? <==> b.unlockAt == 0 && amount <= b.available && b.withdrawing + amount < TWO64)
            && (r.Ok? ==>
                  && OnlyAccount(l, r.value, a) && Ledgers.Total(r.value, p, t) == Ledgers.Total(l, p, t)
                  && r.value.balances[a].withdrawing == b.withdrawing + amount
                  && r.value.balances[a].unlockAt == unlockAt && r.value.balances[a].destination == destination)
  {
  }

  /** A cancellation undoes the request before it completely. */
  lemma CancellationUndoesRequest(l: Ledger, p: u32, t: u16, amount: u64, destination: Key, unlockAt: i64)
    requires WithdrawalInitiated(l, p, t, amount, destination, unlockAt).Ok? && unlockAt != 0
    requires l.balances[Account(p, t)].withdrawing == 0 && l.balances[Account(p, t)].destination == DEFAULT_KEY
    ensures WithdrawalCancelled(WithdrawalInitiated(l, p, t, amount, destination, unlockAt).value, p, t) == Ok(l)
  {
    var a := Account(p, t);
    var l1 := WithdrawalInitiated(l, p, t, amount, destination, unlockAt).value;
    assert l1.balances[a := l.balances[a]] == l.balances;
  }

  /** A second request is refused until the first is executed or cancelled. */
  lemma OneRequestAtATime(l: Ledger, p: u32, t: u16, amount: u64, destination: Key, unlockAt: i64, more: u64,
                          elsewhere: Key, later: i64)
    requires WithdrawalInitiated(l, p, t, amount, destination, unlockAt).Ok? && unlockAt != 0
    ensures var l1 := WithdrawalInitiated(l, p, t, amount, destination, unlockAt).value;
            WithdrawalInitiated(l1, p, t, more, elsewhere, later) == Err(WithdrawalAlreadyPending)
  {
  }

  // ----- collateral

  /** Settling and unlocking keep a pending release within what collateral is left. */
  lemma CappedIsInOrder(lane: Lane, max: u64)
    ensures PendingInOrder(PendingCapped(lane, max).(lockedBalance := max))
    ensures PendingCapped(lane, max).pendingUnlockAmount == Min(lane.pendingUnlockAmount, max)
    ensures PendingCapped(lane, max).pendingUnlockAmount > 0 ==>
              PendingCapped(lane, max).unlockRequestedAt == lane.unlockRequestedAt
  {
  }

  /** Locking moves exactly the amount from the payer's available part into the lane. */
  lemma LockMoves(w: World, id: LaneId, amount: u64)
    requires Locked(w, id, amount).Ok?
    ensures var l, l' := w.ledger, Locked(w, id, amount).value.ledger;
            var a := Account(id.payer, id.token);
            && a in l.balances && id in l.lanes
            && OnlyAccount(l.(lanes := l'.lanes), l', a) && OnlyLane(l.(balances := l'.balances), l', id)
            && l'.balances[a] == l.balances[a].(available := l'.balances[a].available)
            && l'.balances[a].available + amount == l.balances[a].available
            && l'.lanes[id].lockedBalance == l.lanes[id].lockedBalance + amount
            && l'.lanes[id].pendingUnlockAmount == l.lanes[id].pendingUnlockAmount
  {
  }

  /** With the payee's consent the same amount can be unlocked at once, and that undoes the lock. */
  lemma ConsentUndoesLock(w: World, id: LaneId, amount: u64)
    requires Locked(w, id, amount).Ok? && id.payee in w.ledger.slots && PendingInOrder(w.ledger.lanes[id])
    ensures var w1 := Locked(w, id, amount).value;
            UnlockedTogether(w1, id, amount, w.ledger.slots[id.payee].owner) == Ok(w)
  {
    var l, l1, a := w.ledger, Locked(w, id, amount).value.ledger, Account(id.payer, id.token);
    assert l1.lanes[id := l.lanes[id]] == l.lanes;
    assert l1.balances[a := l.balances[a]] == l.balances;
  }

  /** Without consent nothing is unlocked. */
  lemma NoUnlockWithoutConsent(w: World, id: LaneId, amount: u64, payeeOwner: Key)
    requires UnlockedTogether(w, id, amount, payeeOwner).Ok?
    ensures id.payee in w.ledger.slots && payeeOwner == w.ledger.slots[id.payee].owner
    ensures 0 < amount <= w.ledger.lanes[id].lockedBalance
  {
  }

  /** A request that waits out the timelock undisturbed gives back exactly what it asked for: the
      lane loses it, the payer's available part gains it, and the request is gone. */
  lemma RequestThenRelease(w: World, id: LaneId, amount: u64, now: i64, later: i64)
    requires ReleaseRequested(w, now, id, amount).Ok? && now != 0
    requires EffectiveUnlockTimelock(w.config).Ok? && later >= now + EffectiveUnlockTimelock(w.config).value
    requires CanReceive(w.ledger, id.payer, id.token, amount)
    ensures var w1 := ReleaseRequested(w, now, id, amount).value;
            && ReleaseExecuted(w1, later, id).Ok?
            && var (w2, released) := ReleaseExecuted(w1, later, id).value;
            && released == amount <= w.ledger.lanes[id].lockedBalance
            && w2.ledger.lanes == w.ledger.lanes[id := w.ledger.lanes[id].(
                 lockedBalance := w.ledger.lanes[id].lockedBalance - amount,
                 pendingUnlockAmount := 0, unlockRequestedAt := 0)]
            && Ledgers.Total(w2.ledger, id.payer, id.token) == Ledgers.Total(w.ledger, id.payer, id.token) + amount
  {
    var w1 := ReleaseRequested(w, now, id, amount).value;
    var l1 := UnlockExecuted(w1.ledger, id).value.0;
    DeltaOutcome(l1, id.payer, id.token, amount);
    assert w1.ledger.balances == w.ledger.balances;
    assert l1.lanes == w.ledger.lanes[id := l1.lanes[id]];
  }

  /** Before the timelock is over the request gives nothing. */
  lemma NoEarlyRelease(w: World, id: LaneId, amount: u64, now: i64, early: i64)
    requires ReleaseRequested(w, now, id, amount).Ok?
    requires early < now + EffectiveUnlockTimelock(w.config).value
    ensures ReleaseExecuted(ReleaseRequested(w, now, id, amount).value, early, id).Err?
  {
  }

  // ----- deposits

  /** A deposit reaches exactly one balance, as available, and the vault of its token. */
  lemma DepositReaches(w: World, p: u32, t: u16, amount: u64, source: Key)
    requires Instructions.Deposited(w, p, t, amount, source).Ok?
    ensures var w' := Instructions.Deposited(w, p, t, amount, source).value;
            && Ledgers.Total(w'.ledger, p, t) == Ledgers.Total(w.ledger, p, t) + amount
            && w'.ledger.balances[Account(p, t)].withdrawing == BalanceOf(w.ledger, Account(p, t)).withdrawing
            && (forall q :: q != p ==> SameAccounts(w.ledger, w'.ledger, q))
            && w'.ledger.lanes == w.ledger.lanes
            && t in w.vaults && source != w.vaults[t]
            && w'.wallets[w.vaults[t]] == w.wallets[w.vaults[t]] + amount
            && w'.wallets[source] + amount == w.wallets[source]
  {
    DeltaOutcome(w.ledger, p, t, amount);
  }

  /** A deposit for others takes exactly the sum from its source, puts it into the vault, and gives
      each recipient a positive amount. */
  lemma DepositForReaches(w: World, ps: seq<u32>, t: u16, amounts: seq<u64>, source: Key)
    requires DepositedFor(w, ps, t, amounts, source).Ok?
    ensures var w' := DepositedFor(w, ps, t, amounts, source).value;
            && 1 <= |amounts| == |ps| <= 16
            && Summed(amounts).Ok? && t in w.vaults && source != w.vaults[t]
            && source in w.wallets && w.vaults[t] in w.wallets && Summed(amounts).value <= w.wallets[source]
            && w'.wallets == w.wallets[source := w.wallets[source] - Summed(amounts).value]
                                      [w.vaults[t] := w.wallets[w.vaults[t]] + Summed(amounts).value]
            && (forall i :: 0 <= i < |amounts| ==> amounts[i] > 0)
  {
    hide DeltaApplied, Summed;
    CreditsArePositive(w.ledger, ps, t, amounts);
  }

  lemma {:induction false} CreditsArePositive(l: Ledger, ps: seq<u32>, t: u16, amounts: seq<u64>)
    requires |ps| == |amounts| && AllCredited(l, ps, t, amounts).Ok?
    ensures forall i :: 0 <= i < |amounts| ==> amounts[i] > 0
    decreases |ps|
  {
    hide DeltaApplied;
    if ps != [] {
      var n := |ps| - 1;
      CreditsArePositive(l, ps[..n], t, amounts[..n]);
      assert forall i :: 0 <= i < n ==> amounts[i] == amounts[..n][i];
    }
  }

  // ----- yield

  /** The shares that `amount` buys at `index`: as many as it can pay for. */
  ghost predicate Buys(amount: nat, index: nat, shares: nat) {
    shares > 0 && shares * index <= amount * TWO64 < (shares + 1) * index
  }

  lemma DepositIntoBuys(m: Market, now: i64, amount: u64)
    requires DepositInto(m, now, amount).Ok?
    ensures var (m', shares) := DepositInto(m, now, amount).value;
            && Buys(amount, m.strategy.userIndex, shares)
            && m'.strategy == m.strategy.(
                 totalUserShares := m'.strategy.totalUserShares,
                 lastSettledUnderlying := m'.strategy.lastSettledUnderlying)
            && m'.strategy.totalUserShares == m.strategy.totalUserShares + shares
            && m'.strategy.lastSettledUnderlying == m.strategy.lastSettledUnderlying + amount
            && m'.shareVault - m.shareVault == m'.reserve.shareSupply - m.reserve.shareSupply
  {
    DepositBuysMostShares(m.strategy, amount);
  }

  /** A yield deposit takes exactly the amount from its source, and from no other account, and raises
      one participant's shares by what the strategy counts in addition. */
  lemma YieldDepositReaches(w: World, now: i64, p: u32, t: u16, amount: u64, source: Key)
    requires YieldDepositMade(w, now, p, t, amount, source).Ok?
    ensures var w' := YieldDepositMade(w, now, p, t, amount, source).value;
            && t in w.markets && t in w'.markets && StrategyAccrued(w.markets[t], now).Ok?
            && var shares := w'.markets[t].strategy.totalUserShares - w.markets[t].strategy.totalUserShares;
            && Buys(amount, StrategyAccrued(w.markets[t], now).value.strategy.userIndex, shares)
            && source in w.wallets && amount <= w.wallets[source]
            && w'.wallets == w.wallets[source := w.wallets[source] - amount]
            && Ledgers.Total(w'.ledger, p, t) == Ledgers.Total(w.ledger, p, t) + shares
            && w'.ledger.balances[Account(p, t)].withdrawing == BalanceOf(w.ledger, Account(p, t)).withdrawing
            && (forall q :: q != p ==> SameAccounts(w.ledger, w'.ledger, q))
            && w'.ledger.lanes == w.ledger.lanes
  {
    hide StrategyAccrued, DepositInto, RequireSolvent, DeltaApplied, Buys;
    AccrualKeepsShares(w.markets[t], now);
    var m1 := StrategyAccrued(w.markets[t], now).value;
    DepositIntoBuys(m1, now, amount);
    var shares := DepositInto(m1, now, amount).value.1;
    SharesPositive(amount, m1.strategy.userIndex, shares);
    DeltaOutcome(w.ledger, p, t, shares);
    assert Account(p, t).participant == p;
  }

  lemma SharesPositive(amount: nat, index: nat, shares: nat)
    requires Buys(amount, index, shares)
    ensures shares > 0
  {
  }

  lemma AccrualKeepsShares(m: Market, now: i64)
    requires StrategyAccrued(m, now).Ok?
    ensures StrategyAccrued(m, now).value.strategy.totalUserShares == m.strategy.totalUserShares
  {
    hide MulDiv;
  }

  /** An opt-in takes the amount from the participant's available part and from the vault, and gives
      the participant the shares it buys. */
  lemma OptInMoves(w: World, now: i64, p: u32, plain: u16, t: u16, amount: u64)
    requires OptedInto(w, now, p, plain, t, amount).Ok?
    ensures var w' := OptedInto(w, now, p, plain, t, amount).value;
            var from, to := Account(p, plain), Account(p, t);
            && plain != t && t in w.markets && t in w'.markets && StrategyAccrued(w.markets[t], now).Ok?
            && var shares := w'.markets[t].strategy.totalUserShares - w.markets[t].strategy.totalUserShares;
            && Buys(amount, StrategyAccrued(w.markets[t], now).value.strategy.userIndex, shares)
            && from in w.ledger.balances && from in w'.ledger.balances
            && w'.ledger.balances[from].available + amount == w.ledger.balances[from].available
            && w'.ledger.balances[from].withdrawing == w.ledger.balances[from].withdrawing
            && Ledgers.Total(w'.ledger, p, t) == Ledgers.Total(w.ledger, p, t) + shares
            && plain in w.vaults && w.vaults[plain] in w.wallets && amount <= w.wallets[w.vaults[plain]]
            && w'.wallets == w.wallets[w.vaults[plain] := w.wallets[w.vaults[plain]] - amount]
            && w'.ledger.lanes == w.ledger.lanes
  {
    hide StrategyAccrued, DepositInto, RequireSolvent, DeltaApplied, Buys;
    AccrualKeepsShares(w.markets[t], now);
    var m1 := StrategyAccrued(w.markets[t], now).value;
    DepositIntoBuys(m1, now, amount);
    var shares := DepositInto(m1, now, amount).value.1;
    SharesPositive(amount, m1.strategy.userIndex, shares);
    DeltaOutcome(AvailableDebited(w.ledger, p, plain, amount).value, p, t, shares);
    assert Account(p, t).participant == p && Account(p, plain).participant == p;
  }

  /** An opt-out takes the shares from the participant's available part and gives it, and the vault,
      what the reserve pays. */
  lemma OptOutMoves(w: World, now: i64, p: u32, plain: u16, t: u16, shares: u64)
    requires OptedOutOf(w, now, p, plain, t, shares).Ok?
    ensures var w' := OptedOutOf(w, now, p, plain, t, shares).value;
            var from, to := Account(p, t), Account(p, plain);
            && plain != t && t in w.markets && t in w'.markets && StrategyAccrued(w.markets[t], now).Ok?
            && var m1 := StrategyAccrued(w.markets[t], now).value;
            && var paid := m1.reserve.totalUnderlying - w'.markets[t].reserve.totalUnderlying;
            && from in w.ledger.balances && from in w'.ledger.balances
            && w'.ledger.balances[from].available + shares == w.ledger.balances[from].available
            && w'.ledger.balances[from].withdrawing == w.ledger.balances[from].withdrawing
            && w'.markets[t].strategy.totalUserShares + shares == w.markets[t].strategy.totalUserShares
            && paid > 0 && Ledgers.Total(w'.ledger, p, plain) == Ledgers.Total(w.ledger, p, plain) + paid
            && plain in w.vaults && w.vaults[plain] in w.wallets
            && w'.wallets == w.wallets[w.vaults[plain] := w.wallets[w.vaults[plain]] + paid]
            && w'.ledger.lanes == w.ledger.lanes
  {
    hide StrategyAccrued, OptOutFrom, RequireSolvent, DeltaApplied;
    var m := w.markets[t];
    AccruedAtOnce(m, now);
    var m1 := StrategyAccrued(m, now).value;
    OptOutPaysCredit(m1, now, shares);
    OptOutFalls(m1, now, shares);
    var received := OptOutFrom(m1, now, shares).value.1;
    DeltaOutcome(AvailableDebited(w.ledger, p, t, shares).value, p, plain, received);
    assert Account(p, t).participant == p && Account(p, plain).participant == p;
  }

  lemma OptOutFalls(m: Market, now: i64, shares: u64)
    requires OptOutFrom(m, now, shares).Ok? && Accrued(m.reserve, now) == Ok(m.reserve)
    ensures var (m', received, paid) := OptOutFrom(m, now, shares).value;
            && received > 0 && m'.reserve.totalUnderlying + paid == m.reserve.totalUnderlying
            && m'.strategy.totalUserShares + shares == m.strategy.totalUserShares
  {
    hide SharesToUsdc, UsdcToCusdcRoundDown, MulDiv;
  }

  /** A claim reaches the account it names with all that leaves the reserve, and touches no balance. */
  lemma ClaimReaches(w: World, now: i64, t: u16, amount: u64, recipient: Key, destination: Key)
    requires ProtocolFeeClaimed(w, now, t, amount, recipient, destination).Ok?
    ensures var (w', paid) := ProtocolFeeClaimed(w, now, t, amount, recipient, destination).value;
            && recipient == w.config.feeRecipient && amount > 0
            && w'.ledger == w.ledger && destination in w.wallets
            && w'.wallets == w.wallets[destination := w.wallets[destination] + paid]
            && t in w.markets && t in w'.markets && StrategyAccrued(w.markets[t], now).Ok?
            && var m1 := StrategyAccrued(w.markets[t], now).value;
            && m1.reserve.totalUnderlying == w'.markets[t].reserve.totalUnderlying + paid
            && m1.strategy.protocolOwedUnderlying == w'.markets[t].strategy.protocolOwedUnderlying + amount
  {
    hide StrategyAccrued, RequireSolvent, UsdcToCusdcRoundDown;
    AccruedAtOnce(w.markets[t], now);
  }
}
