/** Withdrawals over whole runs: every one waits out the timelock of its latest request, and goes
    where that request said. */
module WithdrawalRuns {
  import opened Machine
  import opened Fees
  import opened YieldStrategies
  import opened YieldBearing
  import opened Ledgers
  import opened SettleIndividual
  import opened BalanceDeltas
  import opened ClearingRound
  import opened SettleCommitmentBundle
  import opened BundleEquivalence
  import opened DebitOrder
  import opened Instructions
  import opened Backing

  // ----- what leaves a pending withdrawal alone

  /** Time and destination are as before, and no more is set aside. */
  ghost predicate Kept(b: Balance, b': Balance) {
    b'.unlockAt == b.unlockAt && b'.destination == b.destination && b'.withdrawing <= b.withdrawing
  }

  ghost predicate AllKept(l: Ledger, l': Ledger) {
    forall a: Account :: Kept(BalanceOf(l, a), BalanceOf(l', a))
  }

  lemma KeptTwice(l: Ledger, l1: Ledger, l2: Ledger)
    requires AllKept(l, l1) && AllKept(l1, l2)
    ensures AllKept(l, l2)
  {
    forall a: Account ensures Kept(BalanceOf(l, a), BalanceOf(l2, a)) {
      assert Kept(BalanceOf(l, a), BalanceOf(l1, a)) && Kept(BalanceOf(l1, a), BalanceOf(l2, a));
    }
  }

  lemma SameBalancesKept(l: Ledger, l': Ledger)
    requires l'.balances == l.balances
    ensures AllKept(l, l')
  {
  }

  lemma DeltaKeeps(l: Ledger, p: u32, t: u16, delta: int)
    requires DeltaApplied(l, p, t, delta).Ok?
    ensures AllKept(l, DeltaApplied(l, p, t, delta).value)
  {
    DeltaTakesAvailableFirst(l, p, t, delta);
    var l' := DeltaApplied(l, p, t, delta).value;
    forall a: Account ensures Kept(BalanceOf(l, a), BalanceOf(l', a)) {
      if a != Account(p, t) {
        assert BalanceOf(l', a) == BalanceOf(l, a);
      }
    }
  }

  lemma {:induction false} PositionsKeep(l: Ledger, ids: seq<u32>, t: u16, positions: seq<int>)
    requires |ids| == |positions| && PositionsApplied(l, ids, t, positions).Ok?
    ensures AllKept(l, PositionsApplied(l, ids, t, positions).value)
    decreases |ids|
  {
    hide DeltaApplied, AllKept;
    if ids == [] {
      SameBalancesKept(l, l);
    } else {
      var n := |ids| - 1;
      var l1 := PositionsApplied(l, ids[..n], t, positions[..n]).value;
      PositionsKeep(l, ids[..n], t, positions[..n]);
      DeltaKeeps(l1, ids[n], t, positions[n]);
      KeptTwice(l, l1, DeltaApplied(l1, ids[n], t, positions[n]).value);
    }
  }

  lemma {:induction false} CreditsKeep(l: Ledger, ps: seq<u32>, t: u16, amounts: seq<u64>)
    requires |ps| == |amounts| && AllCredited(l, ps, t, amounts).Ok?
    ensures AllKept(l, AllCredited(l, ps, t, amounts).value)
    decreases |ps|
  {
    hide DeltaApplied, AllKept;
    if ps == [] {
      SameBalancesKept(l, l);
    } else {
      var n := |ps| - 1;
      var l1 := AllCredited(l, ps[..n], t, amounts[..n]).value;
      CreditsKeep(l, ps[..n], t, amounts[..n]);
      DeltaKeeps(l1, ps[n], t, amounts[n]);
      KeptTwice(l, l1, DeltaApplied(l1, ps[n], t, amounts[n]).value);
    }
  }

  lemma AvailableDebitKeeps(l: Ledger, p: u32, t: u16, amount: u64)
    requires AvailableDebited(l, p, t, amount).Ok?
    ensures AllKept(l, AvailableDebited(l, p, t, amount).value)
  {
  }

  // ----- settlement

  lemma SettlementKeeps(l: Ledger, tokens: set<u16>, s: Submission)
    requires Settled(l, tokens, s).Ok?
    ensures AllKept(l, Settled(l, tokens, s).value)
  {
    hide DeltaApplied, AllKept;
    var c := s.commitment;
    var advance := Examined(l, tokens, s).value;
    var l1 := l.(lanes := l.lanes[LaneOf(c) := LaneAdvanced(l.lanes[LaneOf(c)], c.committedAmount)]);
    var l2 := DeltaApplied(l1, c.payer, c.token, -(advance.amount - advance.consumed)).value;
    var l3 := DeltaApplied(l2, c.payee, c.token, advance.amount).value;
    SameBalancesKept(l, l1);
    DeltaKeeps(l1, c.payer, c.token, -(advance.amount - advance.consumed));
    DeltaKeeps(l2, c.payee, c.token, advance.amount);
    KeptTwice(l, l1, l2);
    KeptTwice(l, l2, l3);
  }

  lemma {:induction false} SequenceKeeps(l: Ledger, tokens: set<u16>, ss: seq<Submission>)
    requires SettledAll(l, tokens, ss).Ok?
    ensures AllKept(l, SettledAll(l, tokens, ss).value)
    decreases |ss|
  {
    hide Settled, AllKept;
    if ss == [] {
      SameBalancesKept(l, l);
    } else {
      var l1 := Settled(l, tokens, ss[0]).value;
      SettlementKeeps(l, tokens, ss[0]);
      SequenceKeeps(l1, tokens, ss[1..]);
      KeptTwice(l, l1, SettledAll(l1, tokens, ss[1..]).value);
    }
  }

  lemma BundleKeeps(l: Ledger, tokens: set<u16>, submitter: Key, items: seq<SignedCommitment>)
    requires BundleSettled(l, tokens, submitter, items).Ok?
    ensures AllKept(l, BundleSettled(l, tokens, submitter, items).value.ledger)
  {
    hide BundleSettled, SettledAll, AllKept;
    var ss := SubmissionsOf(submitter, items);
    AcceptedBundleHasOnePayee(l, tokens, submitter, items);
    BundleEqualsSequence(l, tokens, submitter, items, ss);
    SequenceKeeps(l, tokens, ss);
  }

  lemma {:induction false} EntriesKeepBalances(st: RoundState, ids: seq<u32>, t: u16, es: seq<Entry>)
    requires |st.positions| == |ids| && PayersListed(ids, es) && EntriesApplied(st, ids, t, es).Ok?
    ensures EntriesApplied(st, ids, t, es).value.ledger.balances == st.ledger.balances
    decreases |es|
  {
    if es != [] {
      EntriesKeepBalances(EntryApplied(st, ids, t, es[0]).value, ids, t, es[1..]);
    }
  }

  lemma RoundKeeps(l: Ledger, tokens: set<u16>, t: u16, blocks: seq<Block>, signatureValid: bool)
    requires RoundSettled(l, tokens, t, blocks, signatureValid).Ok?
    ensures AllKept(l, RoundSettled(l, tokens, t, blocks, signatureValid).value.ledger)
  {
    hide EntriesApplied, PositionsApplied, PositionsChecked, ParticipantsLoaded, AllKept;
    var ids, es := Roster(blocks), EntriesFrom(blocks, 0);
    EntriesFromAreListed(blocks, 0);
    var st := EntriesApplied(RoundStart(l, |ids|), ids, t, es).value;
    EntriesKeepBalances(RoundStart(l, |ids|), ids, t, es);
    SameBalancesKept(l, st.ledger);
    PositionsKeep(st.ledger, ids, t, st.positions);
    KeptTwice(l, st.ledger, PositionsApplied(st.ledger, ids, t, st.positions).value);
  }

  // ----- every other instruction

  ghost predicate MovesWithdrawal(call: Call) {
    || call.RequestWithdrawal? || call.RequestYieldWithdrawal? || call.CancelWithdrawal?
    || call.ExecuteWithdrawal? || call.ExecuteYieldWithdrawal?
  }

  lemma SettlementsKeep(w: World, call: Call)
    requires Executed(w, call).Ok? && (call.SettleOne? || call.SettleBundle? || call.SettleRound?)
    ensures AllKept(w.ledger, Next(w, call).ledger)
  {
    hide Settled, BundleSettled, RoundSettled, AllKept;
    var l, tokens := w.ledger, w.registry.Keys;
    match call
    case SettleOne(s) => SettlementKeeps(l, tokens, s);
    case SettleBundle(submitter, items) => BundleKeeps(l, tokens, submitter, items);
    case SettleRound(t, blocks, signatureValid) => RoundKeeps(l, tokens, t, blocks, signatureValid);
  }

  lemma CollateralKeeps(w: World, call: Call)
    requires Executed(w, call).Ok?
    requires call.Lock? || call.CooperativeUnlock? || call.RequestUnlock? || call.ExecuteUnlock? || call.CreateLane?
    ensures AllKept(w.ledger, Next(w, call).ledger)
  {
    hide DeltaApplied, AvailableDebited, AllKept;
    var l := w.ledger;
    match call
    case CreateLane(_, _) => SameBalancesKept(l, Next(w, call).ledger);
    case RequestUnlock(_, _, _) => SameBalancesKept(l, Next(w, call).ledger);
    case Lock(id, amount) =>
      var l1 := AvailableDebited(l, id.payer, id.token, amount).value;
      AvailableDebitKeeps(l, id.payer, id.token, amount);
      SameBalancesKept(l1, Next(w, call).ledger);
      KeptTwice(l, l1, Next(w, call).ledger);
    case CooperativeUnlock(id, amount, _) =>
      var l1 := CooperativelyUnlocked(l, id, amount).value;
      SameBalancesKept(l, l1);
      DeltaKeeps(l1, id.payer, id.token, amount);
      KeptTwice(l, l1, Next(w, call).ledger);
    case ExecuteUnlock(_, id) =>
      var (l1, released) := UnlockExecuted(l, id).value;
      SameBalancesKept(l, l1);
      DeltaKeeps(l1, id.payer, id.token, released);
      KeptTwice(l, l1, Next(w, call).ledger);
  }

  lemma DepositsKeep(w: World, call: Call)
    requires Executed(w, call).Ok? && (call.Deposit? || call.DepositFor? || call.DepositYield?)
    ensures AllKept(w.ledger, Next(w, call).ledger)
  {
    hide StrategyAccrued, DepositInto, RequireSolvent, Transferred, Taken, DeltaApplied, AllCredited, AllKept, Summed;
    match call
    case Deposit(p, t, amount, _) => DeltaKeeps(w.ledger, p, t, amount);
    case DepositFor(ps, t, amounts, _) => CreditsKeep(w.ledger, ps, t, amounts);
    case DepositYield(now, p, t, amount, _) =>
      DeltaKeeps(w.ledger, p, t, DepositInto(StrategyAccrued(w.markets[t], now).value, now, amount).value.1);
  }

  lemma OptsKeep(w: World, call: Call)
    requires Executed(w, call).Ok? && (call.OptIn? || call.OptOut?)
    ensures AllKept(w.ledger, Next(w, call).ledger)
  {
    hide StrategyAccrued, DepositInto, OptOutFrom, RequireSolvent, Given, Taken, DeltaApplied, AvailableDebited, AllKept;
    var l, p, plain, t := w.ledger, call.participant, call.plain, call.token;
    var m1 := StrategyAccrued(w.markets[t], call.now).value;
    if call.OptIn? {
      var l1 := AvailableDebited(l, p, plain, call.amount).value;
      AvailableDebitKeeps(l, p, plain, call.amount);
      DeltaKeeps(l1, p, t, DepositInto(m1, call.now, call.amount).value.1);
      KeptTwice(l, l1, Next(w, call).ledger);
    } else {
      var l1 := AvailableDebited(l, p, t, call.shares).value;
      AvailableDebitKeeps(l, p, t, call.shares);
      DeltaKeeps(l1, p, plain, OptOutFrom(m1, call.now, call.shares).value.1);
      KeptTwice(l, l1, Next(w, call).ledger);
    }
  }

  /** No instruction but a request, a cancellation or an execution touches the time or destination of
      a pending withdrawal, or sets more aside. */
  lemma OthersKeepWithdrawals(w: World, call: Call)
    requires Executed(w, call).Ok? && !MovesWithdrawal(call)
    ensures AllKept(w.ledger, Next(w, call).ledger)
  {
    hide Executed, Next, AllKept;
    if call.SettleOne? || call.SettleBundle? || call.SettleRound? {
      SettlementsKeep(w, call);
    } else if call.Deposit? || call.DepositFor? || call.DepositYield? {
      DepositsKeep(w, call);
    } else if call.OptIn? || call.OptOut? {
      OptsKeep(w, call);
    } else if call.AccrueYield? || call.ClaimProtocolFee? || call.OutsideTransfer? || call.ReserveStep? {
      Conservation.ElsewhereMeasured(Measures.Liability(0), w, call);
      SameBalancesKept(w.ledger, Next(w, call).ledger);
    } else {
      CollateralKeeps(w, call);
    }
  }

  // ----- runs

  /** What has been requested and not answered: the latest time and destination, and the sum. */
  datatype Open = Open(amount: nat, destination: Key, at: i64)

  function Reopened(open: Option<Open>, amount: nat, destination: Key, now: i64): Option<Open> {
    Some(Open(amount + (if open.Some? then open.value.amount else 0), destination, now))
  }

  function OpenAfter(w: World, call: Call, a: Account, open: Option<Open>): Option<Open> {
    if Executed(w, call).Err? then open
    else
      match call
      case RequestWithdrawal(now, p, t, amount, destination) =>
        if Account(p, t) == a then Reopened(open, amount, destination, now) else open
      case RequestYieldWithdrawal(now, p, t, shares, destination) =>
        if Account(p, t) == a then Reopened(open, shares, destination, now) else open
      case CancelWithdrawal(p, t) => if Account(p, t) == a then None else open
      case ExecuteWithdrawal(_, p, t, _, _) => if Account(p, t) == a then None else open
      case ExecuteYieldWithdrawal(_, p, t, _, _) => if Account(p, t) == a then None else open
      case _ => open
  }

  /** The withdrawal of `a` that a run has left open. */
  function OpenOver(w: World, calls: seq<Call>, a: Account, open: Option<Open>): Option<Open>
    decreases |calls|
  {
    if calls == [] then open
    else OpenOver(Next(w, calls[0]), calls[1..], a, OpenAfter(w, calls[0], a, open))
  }

  ghost predicate Recorded(b: Balance, open: Option<Open>, timelock: int) {
    match open
    case None => b.unlockAt == 0 && b.withdrawing == 0
    case Some(o) =>
      b.unlockAt == o.at + timelock && b.destination == o.destination && b.withdrawing <= o.amount
  }

  lemma RequestRecords(w: World, now: i64, p: u32, t: u16, amount: u64, destination: Key, mint: Key, a: Account,
                       open: Option<Open>)
    requires WithdrawalRequested(w, now, p, t, amount, destination, mint).Ok?
    requires Recorded(BalanceOf(w.ledger, a), open, w.config.withdrawalTimelock)
    ensures Recorded(BalanceOf(WithdrawalRequested(w, now, p, t, amount, destination, mint).value.ledger, a),
                     if Account(p, t) == a then Reopened(open, amount, destination, now) else open,
                     w.config.withdrawalTimelock)
  {
  }

  lemma ClearingRecords(l: Ledger, p: u32, t: u16, a: Account, open: Option<Open>, timelock: int)
    requires Recorded(BalanceOf(l, a), open, timelock)
    ensures WithdrawalCleared(l, p, t).Ok? ==>
              Recorded(BalanceOf(WithdrawalCleared(l, p, t).value, a), if Account(p, t) == a then None else open, timelock)
    ensures WithdrawalCancelled(l, p, t).Ok? ==>
              Recorded(BalanceOf(WithdrawalCancelled(l, p, t).value, a), if Account(p, t) == a then None else open, timelock)
  {
  }

  lemma WithdrawalStep(w: World, call: Call, a: Account, open: Option<Open>)
    requires Recorded(BalanceOf(w.ledger, a), open, w.config.withdrawalTimelock)
    requires Executed(w, call).Ok? && MovesWithdrawal(call)
    ensures Recorded(BalanceOf(Next(w, call).ledger, a), OpenAfter(w, call, a, open), w.config.withdrawalTimelock)
  {
    hide Recorded, WithdrawalRequested, WithdrawalCleared, WithdrawalCancelled, TransferredIfAny, StrategyAccrued,
         YieldPaid, Given, WithdrawalFee, DueWithdrawal;
    match call
    case RequestWithdrawal(now, p, t, amount, destination) =>
      RequestRecords(w, now, p, t, amount, destination, w.registry[t].mint, a, open);
    case RequestYieldWithdrawal(now, p, t, shares, destination) =>
      RequestRecords(w, now, p, t, shares, destination, w.registry[t].mint, a, open);
    case CancelWithdrawal(p, t) => ClearingRecords(w.ledger, p, t, a, open, w.config.withdrawalTimelock);
    case ExecuteWithdrawal(_, p, t, _, _) => ClearingRecords(w.ledger, p, t, a, open, w.config.withdrawalTimelock);
    case ExecuteYieldWithdrawal(_, p, t, _, _) => ClearingRecords(w.ledger, p, t, a, open, w.config.withdrawalTimelock);
  }

  lemma RecordStep(w: World, call: Call, a: Account, open: Option<Open>)
    requires Recorded(BalanceOf(w.ledger, a), open, w.config.withdrawalTimelock)
    ensures Recorded(BalanceOf(Next(w, call).ledger, a), OpenAfter(w, call, a, open), w.config.withdrawalTimelock)
  {
    hide Executed;
    if Executed(w, call).Ok? {
      hide Next;
      if MovesWithdrawal(call) {
        WithdrawalStep(w, call, a, open);
      } else {
        OthersKeepWithdrawals(w, call);
        assert Kept(BalanceOf(w.ledger, a), BalanceOf(Next(w, call).ledger, a));
      }
    }
  }

  lemma {:induction false} RecordOverRun(w: World, calls: seq<Call>, a: Account, open: Option<Open>)
    requires WellFormed(w) && Recorded(BalanceOf(w.ledger, a), open, w.config.withdrawalTimelock)
    ensures Recorded(BalanceOf(Reached(w, calls).ledger, a), OpenOver(w, calls, a, open), w.config.withdrawalTimelock)
    ensures Reached(w, calls).config == w.config
    decreases |calls|
  {
    hide Next, WellFormed, Recorded, OpenAfter;
    if calls != [] {
      RecordStep(w, calls[0], a, open);
      FrameStays(w, calls[0]);
      RecordOverRun(Next(w, calls[0]), calls[1..], a, OpenAfter(w, calls[0], a, open));
    }
  }

  ghost predicate Executes(call: Call) {
    call.ExecuteWithdrawal? || call.ExecuteYieldWithdrawal?
  }

  lemma ExecutedIsDue(w: World, call: Call)
    requires Executes(call) && Executed(w, call).Ok?
    ensures var b := BalanceOf(w.ledger, Account(call.participant, call.token));
            b.unlockAt != 0 && call.now >= b.unlockAt && call.destination == b.destination
  {
    hide StrategyAccrued, YieldPaid, Given, WithdrawalFee, TransferredIfAny, WithdrawalCleared;
  }

  /** Over any run, plain tokens and shares alike: a withdrawal that is executed comes at least the
      timelock after the latest successful request of that participant and token that is still
      unanswered, goes to the destination of that request, and pays out of no more than was asked. */
  lemma WithdrawalWaitsForTimelock(w: World, calls: seq<Call>, call: Call)
    requires WellFormed(w) && Executes(call)
    requires Recorded(BalanceOf(w.ledger, Account(call.participant, call.token)), None, w.config.withdrawalTimelock)
    requires Executed(Reached(w, calls), call).Ok?
    ensures var a := Account(call.participant, call.token);
            var open := OpenOver(w, calls, a, None);
            && open.Some?
            && call.now >= open.value.at + w.config.withdrawalTimelock
            && call.destination == open.value.destination
            && BalanceOf(Reached(w, calls).ledger, a).withdrawing <= open.value.amount
  {
    hide Executed, WellFormed;
    RecordOverRun(w, calls, Account(call.participant, call.token), None);
    ExecutedIsDue(Reached(w, calls), call);
  }

  /** Before the timelock is over the open withdrawal is refused, and for that reason. */
  lemma EarlyWithdrawalIsLocked(w: World, calls: seq<Call>, now: i64, p: u32, t: u16, destination: Key, feeAccount: Key)
    requires WellFormed(w) && Recorded(BalanceOf(w.ledger, Account(p, t)), None, w.config.withdrawalTimelock)
    requires OpenOver(w, calls, Account(p, t), None).Some?
    requires var open := OpenOver(w, calls, Account(p, t), None).value;
             && destination == open.destination && open.at + w.config.withdrawalTimelock != 0
             && now < open.at + w.config.withdrawalTimelock
    requires var l := Reached(w, calls).ledger; p in l.slots && Account(p, t) in l.balances
    requires t in w.registry && w.registry[t].decimals <= MAX_TOKEN_DECIMALS
    ensures !w.registry[t].yieldBearing ==>
              Executed(Reached(w, calls), ExecuteWithdrawal(now, p, t, destination, feeAccount)) == Err(WithdrawalLocked)
    ensures w.registry[t].yieldBearing ==>
              t in Reached(w, calls).markets
              && (StrategyAccrued(Reached(w, calls).markets[t], now).Ok? ==>
                    Executed(Reached(w, calls), ExecuteYieldWithdrawal(now, p, t, destination, feeAccount))
                    == Err(WithdrawalLocked))
  {
    RecordOverRun(w, calls, Account(p, t), None);
    FrameStaysOverRuns(w, calls);
    LockedNow(Reached(w, calls), now, p, t, destination, feeAccount);
  }

  lemma LockedNow(w: World, now: i64, p: u32, t: u16, destination: Key, feeAccount: Key)
    requires WellFormed(w) && t in w.registry && w.registry[t].decimals <= MAX_TOKEN_DECIMALS
    requires p in w.ledger.slots && Account(p, t) in w.ledger.balances
    requires var b := w.ledger.balances[Account(p, t)]; b.unlockAt != 0 && now < b.unlockAt && destination == b.destination
    ensures !w.registry[t].yieldBearing ==>
              Executed(w, ExecuteWithdrawal(now, p, t, destination, feeAccount)) == Err(WithdrawalLocked)
    ensures w.registry[t].yieldBearing ==>
              t in w.markets
              && (StrategyAccrued(w.markets[t], now).Ok? ==>
                    Executed(w, ExecuteYieldWithdrawal(now, p, t, destination, feeAccount)) == Err(WithdrawalLocked))
  {
    hide StrategyAccrued, YieldPaid, Given, WithdrawalFee, TransferredIfAny, WithdrawalCleared;
  }
}
