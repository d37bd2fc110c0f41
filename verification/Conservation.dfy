/** What every instruction does to the measures of the ledger, and so what every run keeps. */
module Conservation {
  import opened Machine
  import opened Fees
  import opened Ledgers
  import opened SettleIndividual
  import opened ClearingRound
  import opened SettleCommitmentBundle
  import opened YieldStrategies
  import opened YieldBearing
  import opened Instructions
  import opened Measures

  /** What an instruction brings in from outside the ledger, or takes out of it, as `mu` sees it.
      Everything else it does, settlement and collateral included, is not visible to `mu`. */
  function Inflow(w: World, call: Call, mu: Measure): int
    requires Executed(w, call).Ok?
  {
    hide DeltaApplied, AvailableDebited, RequireSolvent, Taken, Given, Seen, SeenAll;
    match call
    case Deposit(p, t, amount, _) => Seen(mu, p, t, amount)
    case DepositFor(ps, t, amounts, _) => SeenAll(mu, ps, t, amounts)
    case ExecuteWithdrawal(_, p, t, _, _) => -Seen(mu, p, t, BalanceOf(w.ledger, Account(p, t)).withdrawing)
    case DepositYield(now, p, t, amount, _) =>
      Seen(mu, p, t, DepositInto(StrategyAccrued(w.markets[t], now).value, now, amount).value.1)
    case ExecuteYieldWithdrawal(_, p, t, _, _) => -Seen(mu, p, t, BalanceOf(w.ledger, Account(p, t)).withdrawing)
    case OptIn(now, p, plain, t, amount) =>
      Seen(mu, p, t, DepositInto(StrategyAccrued(w.markets[t], now).value, now, amount).value.1)
      - Seen(mu, p, plain, amount)
    case OptOut(now, p, plain, t, shares) =>
      Seen(mu, p, plain, OptOutFrom(StrategyAccrued(w.markets[t], now).value, now, shares).value.1)
      - Seen(mu, p, t, shares)
    case _ => 0
  }

  lemma {:induction false} CreditsMeasured(mu: Measure, l: Ledger, ps: seq<u32>, t: u16, amounts: seq<u64>)
    requires |ps| == |amounts| && AllCredited(l, ps, t, amounts).Ok?
    ensures Measured(mu, AllCredited(l, ps, t, amounts).value) == Measured(mu, l) + SeenAll(mu, ps, t, amounts)
    decreases |ps|
  {
    if ps != [] {
      var n := |ps| - 1;
      CreditsMeasured(mu, l, ps[..n], t, amounts[..n]);
      DeltaMeasured(mu, AllCredited(l, ps[..n], t, amounts[..n]).value, ps[n], t, amounts[n]);
    }
  }

  lemma UnlocksMeasured(mu: Measure, w: World, call: Call)
    requires Executed(w, call).Ok? && (call.CooperativeUnlock? || call.ExecuteUnlock?)
    ensures Measured(mu, Next(w, call).ledger) == Measured(mu, w.ledger)
  {
    hide Measured, DeltaApplied;
    var id := call.lane;
    if call.CooperativeUnlock? {
      CooperationMeasured(mu, w.ledger, id, call.amount);
      DeltaMeasured(mu, CooperativelyUnlocked(w.ledger, id, call.amount).value, id.payer, id.token, call.amount);
    } else {
      ExecutionMeasured(mu, w.ledger, id);
      var (l1, released) := UnlockExecuted(w.ledger, id).value;
      DeltaMeasured(mu, l1, id.payer, id.token, released);
    }
  }

  lemma LockingMeasured(mu: Measure, w: World, id: LaneId, amount: u64)
    requires Locked(w, id, amount).Ok?
    ensures Measured(mu, Locked(w, id, amount).value.ledger) == Measured(mu, w.ledger)
  {
    hide Measured;
    AvailableDebitMeasured(mu, w.ledger, id.payer, id.token, amount);
    LockMeasured(mu, AvailableDebited(w.ledger, id.payer, id.token, amount).value, id, amount);
  }

  lemma WithdrawalsMeasured(mu: Measure, w: World, call: Call)
    requires Executed(w, call).Ok? && (call.ExecuteWithdrawal? || call.ExecuteYieldWithdrawal?)
    ensures Measured(mu, Next(w, call).ledger) == Measured(mu, w.ledger) + Inflow(w, call, mu)
  {
    hide Measured, TransferredIfAny, StrategyAccrued, YieldPaid, Given, WithdrawalFee;
    ClearingMeasured(mu, w.ledger, call.participant, call.token);
  }

  lemma OptsMeasured(mu: Measure, w: World, call: Call)
    requires Executed(w, call).Ok? && (call.OptIn? || call.OptOut?)
    ensures Measured(mu, Next(w, call).ledger) == Measured(mu, w.ledger) + Inflow(w, call, mu)
  {
    hide Measured, StrategyAccrued, DepositInto, OptOutFrom, RequireSolvent, Given, Taken, DeltaApplied, AvailableDebited;
    var p, plain, t := call.participant, call.plain, call.token;
    var m1 := StrategyAccrued(w.markets[t], call.now).value;
    if call.OptIn? {
      AvailableDebitMeasured(mu, w.ledger, p, plain, call.amount);
      DeltaMeasured(mu, AvailableDebited(w.ledger, p, plain, call.amount).value, p, t,
                    DepositInto(m1, call.now, call.amount).value.1);
    } else {
      AvailableDebitMeasured(mu, w.ledger, p, t, call.shares);
      DeltaMeasured(mu, AvailableDebited(w.ledger, p, t, call.shares).value, p, plain,
                    OptOutFrom(m1, call.now, call.shares).value.1);
    }
  }

  lemma DepositsMeasured(mu: Measure, w: World, call: Call)
    requires Executed(w, call).Ok? && (call.Deposit? || call.DepositFor? || call.DepositYield?)
    ensures Measured(mu, Next(w, call).ledger) == Measured(mu, w.ledger) + Inflow(w, call, mu)
  {
    hide Measured, StrategyAccrued, DepositInto, RequireSolvent, Transferred, Taken, DeltaApplied, AllCredited;
    match call
    case Deposit(p, t, amount, _) => DeltaMeasured(mu, w.ledger, p, t, amount);
    case DepositFor(ps, t, amounts, _) => CreditsMeasured(mu, w.ledger, ps, t, amounts);
    case DepositYield(now, p, t, amount, _) =>
      DeltaMeasured(mu, w.ledger, p, t, DepositInto(StrategyAccrued(w.markets[t], now).value, now, amount).value.1);
  }

  lemma RequestsMeasured(mu: Measure, w: World, call: Call)
    requires Executed(w, call).Ok?
    requires call.CreateLane? || call.RequestWithdrawal? || call.RequestYieldWithdrawal? || call.CancelWithdrawal?
             || call.RequestUnlock?
    ensures Measured(mu, Next(w, call).ledger) == Measured(mu, w.ledger)
  {
    hide Measured;
    var l := w.ledger;
    match call
    case CreateLane(id, signer) => CreationMeasured(mu, l, id, signer);
    case CancelWithdrawal(p, t) => CancellationMeasured(mu, l, p, t);
    case RequestWithdrawal(now, p, t, amount, destination) =>
      InitiationMeasured(mu, l, p, t, amount, destination, now + w.config.withdrawalTimelock);
    case RequestYieldWithdrawal(now, p, t, shares, destination) =>
      InitiationMeasured(mu, l, p, t, shares, destination, now + w.config.withdrawalTimelock);
    case RequestUnlock(now, id, amount) => RequestMeasured(mu, l, id, amount, now);
  }

  lemma SettlementsMeasured(mu: Measure, w: World, call: Call)
    requires Executed(w, call).Ok? && (call.SettleOne? || call.SettleBundle? || call.SettleRound?)
    ensures Measured(mu, Next(w, call).ledger) == Measured(mu, w.ledger)
  {
    hide Measured, Settled, BundleSettled, RoundSettled;
    var l, tokens := w.ledger, w.registry.Keys;
    match call
    case SettleOne(s) => SettlementMeasured(mu, l, tokens, s);
    case SettleBundle(submitter, items) => BundleMeasured(mu, l, tokens, submitter, items);
    case SettleRound(t, blocks, signatureValid) => RoundMeasured(mu, l, tokens, t, blocks, signatureValid);
  }

  lemma ElsewhereMeasured(mu: Measure, w: World, call: Call)
    requires Executed(w, call).Ok? && (call.AccrueYield? || call.ClaimProtocolFee? || call.OutsideTransfer? || call.ReserveStep?)
    ensures Next(w, call).ledger == w.ledger
  {
  }

  /** Every instruction changes a measure by exactly its inflow. */
  lemma InstructionMeasured(mu: Measure, w: World, call: Call)
    requires Executed(w, call).Ok?
    ensures Measured(mu, Next(w, call).ledger) == Measured(mu, w.ledger) + Inflow(w, call, mu)
  {
    hide Executed, Measured, Next;
    match call
    case CreateLane(_, _) => RequestsMeasured(mu, w, call);
    case RequestWithdrawal(_, _, _, _, _) => RequestsMeasured(mu, w, call);
    case RequestYieldWithdrawal(_, _, _, _, _) => RequestsMeasured(mu, w, call);
    case CancelWithdrawal(_, _) => RequestsMeasured(mu, w, call);
    case RequestUnlock(_, _, _) => RequestsMeasured(mu, w, call);
    case Deposit(_, _, _, _) => DepositsMeasured(mu, w, call);
    case DepositFor(_, _, _, _) => DepositsMeasured(mu, w, call);
    case DepositYield(_, _, _, _, _) => DepositsMeasured(mu, w, call);
    case ExecuteWithdrawal(_, _, _, _, _) => WithdrawalsMeasured(mu, w, call);
    case ExecuteYieldWithdrawal(_, _, _, _, _) => WithdrawalsMeasured(mu, w, call);
    case Lock(id, amount) => LockStep(mu, w, id, amount);
    case CooperativeUnlock(_, _, _) => UnlocksMeasured(mu, w, call);
    case ExecuteUnlock(_, _) => UnlocksMeasured(mu, w, call);
    case SettleOne(_) => SettlementsMeasured(mu, w, call);
    case SettleBundle(_, _) => SettlementsMeasured(mu, w, call);
    case SettleRound(_, _, _) => SettlementsMeasured(mu, w, call);
    case OptIn(_, _, _, _, _) => OptsMeasured(mu, w, call);
    case OptOut(_, _, _, _, _) => OptsMeasured(mu, w, call);
    case AccrueYield(_, _) => ElsewhereMeasured(mu, w, call);
    case ClaimProtocolFee(_, _, _, _, _) => ElsewhereMeasured(mu, w, call);
    case OutsideTransfer(_, _) => ElsewhereMeasured(mu, w, call);
    case ReserveStep(_, _) => ElsewhereMeasured(mu, w, call);
  }

  lemma LockStep(mu: Measure, w: World, id: LaneId, amount: u64)
    requires Executed(w, Lock(id, amount)).Ok?
    ensures Measured(mu, Next(w, Lock(id, amount)).ledger) == Measured(mu, w.ledger)
  {
    LockingMeasured(mu, w, id, amount);
  }

  // ----- runs

  /** The inflow of every instruction of a run that succeeds. */
  function TotalInflow(w: World, calls: seq<Call>, mu: Measure): int
    decreases |calls|
  {
    if calls == [] then 0
    else (if Executed(w, calls[0]).Ok? then Inflow(w, calls[0], mu) else 0)
         + TotalInflow(Next(w, calls[0]), calls[1..], mu)
  }

  /** Over any run of all instructions, what the program owes in a token, and the stake of each
      participant in it, change only by what was deposited and withdrawn. For a stake this says that
      what lanes ever paid to a participant, and what it paid on them, are exactly the settled
      cumulative amounts: nothing is paid twice, by whichever routes the lanes advanced. */
  lemma {:induction false} RunsConserve(w: World, calls: seq<Call>, mu: Measure)
    ensures Measured(mu, Reached(w, calls).ledger) == Measured(mu, w.ledger) + TotalInflow(w, calls, mu)
    decreases |calls|
  {
    hide Measured, Executed, Inflow;
    if calls != [] {
      if Executed(w, calls[0]).Ok? {
        InstructionMeasured(mu, w, calls[0]);
      } else {
        FailureChangesNothing(w, calls[0]);
      }
      RunsConserve(Next(w, calls[0]), calls[1..], mu);
    }
  }

  lemma FailureChangesNothing(w: World, call: Call)
    requires Executed(w, call).Err?
    ensures Next(w, call) == w
  {
  }
}
