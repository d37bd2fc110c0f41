/** What the conservation laws say to a participant, to a clearing round and to a market. */
module Accounting {
  import opened Machine
  import opened Sums
  import opened Rounding
  import opened Fees
  import opened YieldStrategies
  import opened YieldBearing
  import opened Solvency
  import opened SolvencyRuns
  import opened Slippage
  import opened Ledgers
  import opened SettleIndividual
  import opened Transfers
  import opened ClearingRound
  import opened RoundRefinement
  import opened Instructions
  import opened Measures
  import opened Conservation
  import opened Backing

  // ----- sums over lanes

  lemma {:induction false} SumCombines<K(!new)>(m: map<K, int>, a: map<K, int>, b: map<K, int>)
    requires m.Keys == a.Keys == b.Keys
    requires forall k :: k in m ==> m[k] == a[k] + b[k]
    ensures SumOf(m) == SumOf(a) + SumOf(b)
    decreases |m|
  {
    if m == map[] {
      assert a == map[] && b == map[];
    } else {
      var k :| k in m;
      SumRemove(m, k);
      SumRemove(a, k);
      SumRemove(b, k);
      SumCombines(m - {k}, a - {k}, b - {k});
    }
  }

  /** The part of the lanes that a participant's stake is made of. */
  datatype Part = PaidTo | PaidBy | LockedBy

  function PartOf(part: Part, p: u32, t: u16, id: LaneId, lane: Lane): int {
    if id.token != t then 0
    else
      match part
      case PaidTo => if id.payee == p then lane.settledCumulative else 0
      case PaidBy => if id.payer == p then lane.settledCumulative else 0
      case LockedBy => if id.payer == p then lane.lockedBalance else 0
  }

  function PartTerms(part: Part, p: u32, t: u16, lanes: Lanes): map<LaneId, int> {
    map id | id in lanes :: PartOf(part, p, t, id, lanes[id])
  }

  /** The settled amounts of the lanes into `p`, of those out of it, or the collateral in those. */
  ghost function SumOfPart(part: Part, p: u32, t: u16, lanes: Lanes): int {
    SumOf(PartTerms(part, p, t, lanes))
  }

  lemma StakeHasThreeParts(p: u32, t: u16, lanes: Lanes)
    ensures OfLanes(Stake(p, t), lanes) + SumOfPart(PaidTo, p, t, lanes)
            == SumOfPart(PaidBy, p, t, lanes) + SumOfPart(LockedBy, p, t, lanes)
  {
    var stake, to := LaneTerms(Stake(p, t), lanes), PartTerms(PaidTo, p, t, lanes);
    var paid, locked := PartTerms(PaidBy, p, t, lanes), PartTerms(LockedBy, p, t, lanes);
    var both := map id | id in lanes :: stake[id] + to[id];
    SumCombines(both, stake, to);
    SumCombines(both, paid, locked);
  }

  lemma BalanceIsOneTerm(p: u32, t: u16, balances: map<Account, Balance>)
    ensures OfBalances(Stake(p, t), balances)
            == if Account(p, t) in balances
               then balances[Account(p, t)].available + balances[Account(p, t)].withdrawing else 0
  {
    var a, m := Account(p, t), AccountTerms(Stake(p, t), balances);
    if a in balances {
      SumRemove(m, a);
      OnlyZeros(m - {a});
    } else {
      OnlyZeros(m);
    }
  }

  lemma {:induction false} OnlyZeros<K(!new)>(m: map<K, int>)
    requires forall k :: k in m ==> m[k] == 0
    ensures SumOf(m) == 0
    decreases |m|
  {
    if m != map[] {
      var k :| k in m;
      SumRemove(m, k);
      OnlyZeros(m - {k});
    }
  }

  /** What `p` holds, has locked and has paid over lanes, less what lanes paid to it. */
  ghost function Explained(l: Ledger, p: u32, t: u16): int {
    Ledgers.Total(l, p, t) + SumOfPart(LockedBy, p, t, l.lanes) + SumOfPart(PaidBy, p, t, l.lanes)
    - SumOfPart(PaidTo, p, t, l.lanes)
  }

  /** No double pay: over any run of all instructions the balance of every participant is what it
      started with and brought in, plus exactly the settled amounts gained on the lanes into it,
      less those on the lanes out of it and less the collateral put into those. */
  lemma EveryBalanceIsExplained(w: World, calls: seq<Call>, p: u32, t: u16)
    ensures Explained(Reached(w, calls).ledger, p, t)
            == Explained(w.ledger, p, t) + TotalInflow(w, calls, Stake(p, t))
  {
    var l, l' := w.ledger, Reached(w, calls).ledger;
    RunsConserve(w, calls, Stake(p, t));
    StakeHasThreeParts(p, t, l.lanes);
    StakeHasThreeParts(p, t, l'.lanes);
    BalanceIsOneTerm(p, t, l.balances);
    BalanceIsOneTerm(p, t, l'.balances);
  }

  // ----- no balance outgrows the backing

  lemma BalanceWithinLiability(l: Ledger, p: u32, t: u16)
    ensures Ledgers.Total(l, p, t) <= Measured(Liability(t), l)
  {
    SumNotNegative(LaneTerms(Liability(t), l.lanes));
    if Account(p, t) in l.balances {
      SumBoundsEach(AccountTerms(Liability(t), l.balances), Account(p, t));
    } else {
      SumNotNegative(AccountTerms(Liability(t), l.balances));
    }
  }

  /** What the ledger owes in `t` is in a vault or counted by a market. */
  ghost predicate Backed(w: World, t: u16) {
    || (t in w.vaults && Surplus(w, t) >= 0)
    || (t in w.markets && SharesCounted(w, t))
  }

  lemma BackedStays(w: World, calls: seq<Call>, t: u16)
    requires WellFormed(w) && Backed(w, t)
    ensures Backed(Reached(w, calls), t)
  {
    hide Surplus, SharesCounted;
    if t in w.vaults && Surplus(w, t) >= 0 {
      VaultBacksLedger(w, calls, t);
    } else {
      CounterIsSumOfShares(w, calls, t);
    }
  }

  lemma BackedBalancesFit(w: World, t: u16, blocks: seq<Block>)
    requires Backed(w, t)
    ensures BalancesFit(w.ledger, t, blocks)
  {
    hide Measured;
    forall b | b in blocks ensures Ledgers.Total(w.ledger, b.participant, t) < TWO64 {
      BalanceWithinLiability(w.ledger, b.participant, t);
    }
  }

  /** In every state that a run reaches from a backed one, a clearing round refines one-by-one
      settlement without any further condition: where settling its entries in some order succeeds
      and the gross sum fits, the round succeeds, with the same lanes and the same totals. */
  lemma RoundRefinesSequenceInEveryRun(w: World, calls: seq<Call>, t: u16, blocks: seq<Block>, ss: seq<Submission>)
    requires WellFormed(w) && Backed(w, t) && t in w.registry
    requires var l := Reached(w, calls).ledger;
             && RosterListed(l, blocks)
             && EntriesFrom(blocks, 0) != [] && RefsOk(Roster(blocks), {}, EntriesFrom(blocks, 0))
             && OneToken(ss, t)
             && multiset(TransfersOf(ss)) == multiset(TransfersAt(Roster(blocks), t, EntriesFrom(blocks, 0)))
             && SettledAll(l, w.registry.Keys, ss).Ok? && Gross(l.lanes, TransfersOf(ss)) < TWO64
    ensures var l := Reached(w, calls).ledger;
            && RoundSettled(l, w.registry.Keys, t, blocks, true).Ok?
            && var one, all := SettledAll(l, w.registry.Keys, ss).value,
                               RoundSettled(l, w.registry.Keys, t, blocks, true).value.ledger;
            && all.lanes == one.lanes && forall p :: Ledgers.Total(all, p, t) == Ledgers.Total(one, p, t)
  {
    hide RosterListed, RefsOk, SettledAll, RoundSettled, BalancesFit, WellFormed, Backed;
    BackedStays(w, calls, t);
    BackedBalancesFit(Reached(w, calls), t, blocks);
    RoundRefinesSequence(Reached(w, calls).ledger, w.registry.Keys, t, blocks, ss);
  }

  // ----- whoever has waited is paid

  lemma MoveSucceeds(ws: Wallets, source: Key, destination: Key, amount: nat)
    requires source in ws && destination in ws && amount <= ws[source] && ws[destination] + amount < TWO64
    ensures TransferredIfAny(ws, source, destination, amount).Ok?
  {
  }

  /** In a backed world a due withdrawal of a plain token never fails for want of tokens: from the very
      second in which the timelock ends it is paid. */
  lemma DueWithdrawalIsPaid(w: World, call: Call)
    requires WellFormed(w) && call.ExecuteWithdrawal? && call.token in w.vaults && Surplus(w, call.token) >= 0
    requires w.registry[call.token].decimals <= MAX_TOKEN_DECIMALS
    requires call.participant in w.ledger.slots && Account(call.participant, call.token) in w.ledger.balances
    requires var b := w.ledger.balances[Account(call.participant, call.token)];
             && b.unlockAt != 0 && call.now >= b.unlockAt && call.destination == b.destination
             && call.destination in w.mints && w.mints[call.destination] == w.registry[call.token].mint
             && call.destination in w.wallets && w.wallets[call.destination] + b.withdrawing < TWO64
             && call.feeAccount in w.wallets && w.wallets[call.feeAccount] + b.withdrawing < TWO64
    ensures Executed(w, call).Ok?
  {
    hide Measured, WithdrawalFee, TransferredIfAny;
    var t, source := call.token, w.vaults[call.token];
    var amount := w.ledger.balances[Account(call.participant, t)].withdrawing;
    BalanceWithinLiability(w.ledger, call.participant, t);
    FeeAlwaysExists(amount, w.config.feeBps, w.registry[t].decimals);
    if amount > 0 {
      var fee := WithdrawalFee(amount, w.config.feeBps, w.registry[t].decimals).value;
      MoveSucceeds(w.wallets, source, call.destination, amount - fee);
      var ws := TransferredIfAny(w.wallets, source, call.destination, amount - fee).value;
      TransferMoves(w.wallets, source, call.destination, amount - fee);
      MoveSucceeds(ws, source, call.feeAccount, fee);
    }
  }

  // ----- every holding converted on its own

  /** The terms of a sum, each converted at `index` and rounded down. */
  ghost function Converted<K(!new)>(m: map<K, int>, index: Index): map<K, int> {
    map k | k in m :: Worth(Max(0, m[k]), index)
  }

  lemma WorthOfNothing(index: Index)
    ensures Worth(0, index) == 0
  {
    FloorBelow(0, index, TWO64, 0);
  }

  lemma ConvertedNothing<K(!new)>(index: Index)
    ensures SumOf(Converted<K>(map[], index)) == 0 && Worth(0, index) == 0
  {
    WorthOfNothing(index);
    assert Converted<K>(map[], index) == map[];
  }

  lemma ConvertedRemove<K(!new)>(m: map<K, int>, k: K, index: Index)
    requires k in m && m[k] >= 0
    ensures SumOf(Converted(m, index)) == Worth(m[k], index) + SumOf(Converted(m - {k}, index))
  {
    hide Worth;
    SumRemove(Converted(m, index), k);
    assert Converted(m, index) - {k} == Converted(m - {k}, index);
  }

  lemma {:induction false} ConvertedSum<K(!new)>(m: map<K, int>, index: Index)
    requires forall k :: k in m ==> m[k] >= 0
    ensures 0 <= SumOf(m) && SumOf(Converted(m, index)) <= Worth(SumOf(m), index)
    decreases |m|
  {
    hide Worth, Converted;
    SumNotNegative(m);
    if m == map[] {
      ConvertedNothing<K>(index);
    } else {
      hide SumOf;
      var k :| k in m;
      ConvertedSum(m - {k}, index);
      ConvertedStep(m, k, index);
    }
  }

  lemma ConvertedStep<K(!new)>(m: map<K, int>, k: K, index: Index)
    requires k in m && m[k] >= 0 && SumOf(m - {k}) >= 0
    requires SumOf(Converted(m - {k}, index)) <= Worth(SumOf(m - {k}), index)
    ensures SumOf(m) >= 0 && SumOf(Converted(m, index)) <= Worth(SumOf(m), index)
  {
    hide Worth, Converted, SumOf;
    SumRemove(m, k);
    ConvertedRemove(m, k, index);
    WorthSplits(m[k], SumOf(m - {k}), index);
  }

  lemma TermsNotNegative(l: Ledger, t: u16)
    ensures forall a :: a in AccountTerms(Liability(t), l.balances) ==> AccountTerms(Liability(t), l.balances)[a] >= 0
    ensures forall id :: id in LaneTerms(Liability(t), l.lanes) ==> LaneTerms(Liability(t), l.lanes)[id] >= 0
  {
  }

  /** Whatever run led here: every balance and every lane of a yield-bearing token, converted on
      its own, can be paid together out of what the strategy records as owed to users. */
  lemma EveryHoldingIsJointlyPayable(w: World, calls: seq<Call>, t: u16)
    requires WellFormed(w) && t in w.markets && SharesCounted(w, t)
    ensures t in Reached(w, calls).markets
    ensures var l, s := Reached(w, calls).ledger, Reached(w, calls).markets[t].strategy;
            SumOf(Converted(AccountTerms(Liability(t), l.balances), s.userIndex))
            + SumOf(Converted(LaneTerms(Liability(t), l.lanes), s.userIndex))
            <= Worth(s.totalUserShares, s.userIndex)
  {
    hide Worth, Converted, AccountTerms, LaneTerms, WellFormed, Reached;
    CounterIsSumOfShares(w, calls, t);
    var l, s := Reached(w, calls).ledger, Reached(w, calls).markets[t].strategy;
    TermsNotNegative(l, t);
    ConvertedSum(AccountTerms(Liability(t), l.balances), s.userIndex);
    ConvertedSum(LaneTerms(Liability(t), l.lanes), s.userIndex);
    WorthSplits(OfBalances(Liability(t), l.balances), OfLanes(Liability(t), l.lanes), s.userIndex);
  }

  // ----- the markets of a world

  /** What an instruction asks of the market of its token. */
  function Asked(w: World, call: Call): Option<MarketCall> {
    match call
    case AccrueYield(now, _) => Some(MarketCall.Accrue(now))
    case DepositYield(now, _, _, amount, _) => Some(MarketCall.Deposit(now, amount))
    case OptIn(now, _, _, _, amount) => Some(MarketCall.Deposit(now, amount))
    case ExecuteYieldWithdrawal(now, p, t, _, _) =>
      if t in w.registry
      then Some(MarketCall.Withdraw(now, BalanceOf(w.ledger, Account(p, t)).withdrawing, w.config.feeBps,
                                    w.registry[t].decimals))
      else None
    case ClaimProtocolFee(now, _, amount, _, _) => Some(MarketCall.Claim(now, amount))
    case OptOut(now, _, _, _, shares) => Some(MarketCall.OptOut(now, shares))
    case ReserveStep(_, step) => Some(MarketCall.Outside(step))
    case _ => None
  }

  /** A successful instruction does to the market of its token what that market's handler does. */
  lemma MarketFollows(w: World, call: Call)
    requires Executed(w, call).Ok? && MovesShares(call)
    ensures call.token in w.markets && Asked(w, call).Some?
    ensures call.token in Next(w, call).markets
    ensures Called(w.markets[call.token], Asked(w, call).value) == Ok(Next(w, call).markets[call.token])
    ensures forall u :: u != call.token && u in w.markets ==>
              u in Next(w, call).markets && Next(w, call).markets[u] == w.markets[u]
  {
    hide StrategyAccrued, DepositInto, OptOutFrom, RequireSolvent, DeltaApplied, AvailableDebited, Given, Taken,
         ClaimFrom, WithdrawFrom, WithdrawalCleared;
    if call.ExecuteYieldWithdrawal? {
      WithdrawalFollows(w, call);
    }
  }

  lemma WithdrawalFollows(w: World, call: Call)
    requires Executed(w, call).Ok? && call.ExecuteYieldWithdrawal?
    ensures call.token in w.markets && Asked(w, call).Some?
    ensures Next(w, call).markets.Keys == w.markets.Keys
    ensures Called(w.markets[call.token], Asked(w, call).value) == Ok(Next(w, call).markets[call.token])
    ensures forall u :: u != call.token && u in w.markets ==> Next(w, call).markets[u] == w.markets[u]
  {
    hide StrategyAccrued, YieldPaid, Given, WithdrawalCleared;
  }

  /** Where the market's handler would not refuse for insolvency, no instruction does. */
  lemma RefusalComesFromMarket(w: World, call: Call)
    requires MovesShares(call) && call.token in w.markets && Executed(w, call) == Err(SolvencyInvariantBroken)
    ensures Asked(w, call).Some?
    ensures Called(w.markets[call.token], Asked(w, call).value) == Err(SolvencyInvariantBroken)
  {
    hide StrategyAccrued, DepositInto, OptOutFrom, RequireSolvent, DeltaApplied, AvailableDebited, Given, Taken,
         YieldPaid, ClaimFrom, WithdrawalCleared;
    OtherErrors();
    AccrualErrors(w.markets[call.token], call.now);
    if call.OptOut? {
      var m1 := StrategyAccrued(w.markets[call.token], call.now).value;
      if OptOutFrom(m1, call.now, call.shares).Ok? {
        var (m2, _, paid) := OptOutFrom(m1, call.now, call.shares).value;
        assert Given(w.wallets, w.vaults[call.plain], paid).Ok?;
        assert RequireSolvent(m2.strategy, m2.strategy.lastSettledUnderlying) == Err(SolvencyInvariantBroken);
      }
    }
  }

  lemma OtherErrors()
    ensures forall l: Ledger, p: u32, t: u16, delta: int :: DeltaApplied(l, p, t, delta) != Err(SolvencyInvariantBroken)
    ensures forall l: Ledger, p: u32, t: u16, amount: u64 :: AvailableDebited(l, p, t, amount) != Err(SolvencyInvariantBroken)
    ensures forall l: Ledger, p: u32, t: u16 :: WithdrawalCleared(l, p, t) != Err(SolvencyInvariantBroken)
    ensures forall ws: Wallets, k: Key, amount: nat :: Given(ws, k, amount) != Err(SolvencyInvariantBroken)
    ensures forall ws: Wallets, k: Key, amount: nat :: Taken(ws, k, amount) != Err(SolvencyInvariantBroken)
  {
  }

  // ----- solvency in the whole world

  /** All markets are held by nobody but their share vaults. */
  ghost predicate AllSole(w: World) {
    forall t :: t in w.markets ==> Sole(w.markets[t])
  }

  /** Somebody else deposits into a reserve. */
  ghost predicate Intrudes(call: Call) {
    call.ReserveStep? && call.step.CallDeposit?
  }

  lemma WorldStepKeepsSole(w: World, call: Call)
    requires WellFormed(w) && AllSole(w) && !Intrudes(call)
    ensures AllSole(Next(w, call))
    ensures MovesShares(call) && call.token in w.markets ==> Executed(w, call) != Err(SolvencyInvariantBroken)
  {
    hide Executed, Next, Sole, Called;
    FrameStays(w, call);
    if Executed(w, call).Err? {
      FailureChangesNothing(w, call);
    }
    if MovesShares(call) && call.token in w.markets {
      if Executed(w, call) == Err(SolvencyInvariantBroken) {
        RefusalComesFromMarket(w, call);
        CallFromSole(w.markets[call.token], Asked(w, call).value);
      }
      if Executed(w, call).Ok? {
        MarketFollows(w, call);
        CallFromSole(w.markets[call.token], Asked(w, call).value);
        CalledIsNext(w.markets[call.token], Asked(w, call).value);
      }
    } else if Executed(w, call).Ok? {
      if MovesShares(call) {
        MarketFollows(w, call);
      }
      OthersKeepMarkets(w, call);
    }
  }

  lemma CalledIsNext(m: Market, call: MarketCall)
    ensures Called(m, call).Ok? ==> MarketNext(m, call) == Called(m, call).value
  {
  }

  lemma OthersKeepMarkets(w: World, call: Call)
    requires WellFormed(w) && Executed(w, call).Ok? && !MovesShares(call)
    ensures Next(w, call).markets == w.markets
  {
    hide Executed, Next;
    forall t | t in w.markets ensures t in Next(w, call).markets && Next(w, call).markets == w.markets {
      OthersKeepShares(w, call, t);
    }
    FrameStays(w, call);
  }

  /** While nobody else deposits into their reserves, whatever interest and rates those have, every
      state a run reaches keeps T >= L >= owed in every market, and no accrue, deposit, withdrawal,
      claim, opt-in or opt-out is ever refused for insolvency. */
  lemma {:induction false} WorldStaysSolvent(w: World, calls: seq<Call>, next: Call)
    requires WellFormed(w) && AllSole(w) && !Intrudes(next)
    requires forall call :: call in calls ==> !Intrudes(call)
    ensures var w' := Reached(w, calls);
            && AllSole(w')
            && (forall t :: t in w'.markets ==>
                  var m := w'.markets[t];
                  m.reserve.totalUnderlying >= m.strategy.lastSettledUnderlying >= Owed(m.strategy))
            && (MovesShares(next) && next.token in w'.markets ==>
                  Executed(w', next) != Err(SolvencyInvariantBroken))
    decreases |calls|
  {
    hide Next, Executed, WellFormed;
    if calls == [] {
      WorldStepKeepsSole(w, next);
    } else {
      WorldStepKeepsSole(w, calls[0]);
      FrameStays(w, calls[0]);
      WorldStaysSolvent(Next(w, calls[0]), calls[1..], next);
    }
  }

  /** All markets miss what is owed by less than T/P + 1 at the worst. */
  ghost predicate AllSlight(w: World) {
    forall t :: t in w.markets ==> Slight(w.markets[t])
  }

  lemma WorldStepKeepsSlight(w: World, call: Call)
    requires WellFormed(w) && AllSlight(w)
    ensures AllSlight(Next(w, call))
  {
    hide Executed, Next, Slight, Called;
    FrameStays(w, call);
    if Executed(w, call).Err? {
      FailureChangesNothing(w, call);
    } else if MovesShares(call) {
      MarketFollows(w, call);
      CallKeepsSlight(w.markets[call.token], Asked(w, call).value);
      CalledIsNext(w.markets[call.token], Asked(w, call).value);
    } else {
      OthersKeepMarkets(w, call);
    }
  }

  /** With anybody in the reserves, every state of every run has L >= owed in all markets, and V short
      of it by less than T/P + 1. */
  lemma {:induction false} WorldSlipIsBounded(w: World, calls: seq<Call>)
    requires WellFormed(w) && AllSlight(w)
    ensures AllSlight(Reached(w, calls))
    decreases |calls|
  {
    hide Next, WellFormed, AllSlight;
    if calls != [] {
      WorldStepKeepsSlight(w, calls[0]);
      FrameStays(w, calls[0]);
      WorldSlipIsBounded(Next(w, calls[0]), calls[1..]);
    }
  }
}
