/** One lane over whole runs: what settles it, what it may release, and when. */
module LaneRuns {
  import opened Machine
  import opened Ledgers
  import opened SettleIndividual
  import opened Transfers
  import opened ClearingRound
  import opened RoundRefinement
  import opened SettleCommitmentBundle
  import opened BundleEquivalence
  import opened Instructions
  import opened Backing

  // ----- the lanes that a call settles

  /** The lanes and targets that the signed commitments of a settlement name. */
  ghost function Named(call: Call): seq<Transfer> {
    match call
    case SettleOne(s) => [TransferOf(s)]
    case SettleBundle(submitter, items) => TransfersOf(SubmissionsOf(submitter, items))
    case SettleRound(t, blocks, _) =>
      if InRange(Roster(blocks), EntriesFrom(blocks, 0))
      then TransfersAt(Roster(blocks), t, EntriesFrom(blocks, 0)) else []
    case _ => []
  }

  lemma SequenceAdvancesLane(l: Ledger, tokens: set<u16>, s: Submission)
    requires Settled(l, tokens, s).Ok?
    ensures LanesAdvanced(l.lanes, Settled(l, tokens, s).value.lanes, [TransferOf(s)])
  {
    SettlementOutcome(l, tokens, s);
  }

  lemma RoundAdvancesLanes(l: Ledger, tokens: set<u16>, t: u16, blocks: seq<Block>, signatureValid: bool)
    requires RoundSettled(l, tokens, t, blocks, signatureValid).Ok?
    ensures var xs := Named(SettleRound(t, blocks, signatureValid));
            && DistinctLanes(xs)
            && LanesAdvanced(l.lanes, RoundSettled(l, tokens, t, blocks, signatureValid).value.ledger.lanes, xs)
  {
    hide RoundSettled, LanesAdvanced;
    RoundSucceedsExactlyWhen(l, tokens, t, blocks, signatureValid);
    RosterIsDistinct(l, t, blocks);
    RefsNameDistinctLanes(Roster(blocks), t, {}, EntriesFrom(blocks, 0));
  }

  lemma BundleAdvancesLanes(l: Ledger, tokens: set<u16>, submitter: Key, items: seq<SignedCommitment>)
    requires BundleSettled(l, tokens, submitter, items).Ok?
    ensures var xs := Named(SettleBundle(submitter, items));
            && DistinctLanes(xs)
            && LanesAdvanced(l.lanes, BundleSettled(l, tokens, submitter, items).value.ledger.lanes, xs)
  {
    hide BundleSettled, LanesAdvanced;
    AcceptedBundleHasOnePayee(l, tokens, submitter, items);
    BundleVerdict(l, tokens, submitter, items);
  }

  ghost predicate Settles(call: Call) {
    call.SettleOne? || call.SettleBundle? || call.SettleRound?
  }

  /** Every route advances exactly the lanes that its commitments name, each of them once. */
  lemma EveryRouteAdvancesNamedLanes(w: World, call: Call)
    requires Settles(call) && Executed(w, call).Ok?
    ensures DistinctLanes(Named(call))
    ensures LanesAdvanced(w.ledger.lanes, Next(w, call).ledger.lanes, Named(call))
  {
    hide Settled, BundleSettled, RoundSettled, LanesAdvanced;
    var l, tokens := w.ledger, w.registry.Keys;
    match call
    case SettleOne(s) => SequenceAdvancesLane(l, tokens, s);
    case SettleBundle(submitter, items) => BundleAdvancesLanes(l, tokens, submitter, items);
    case SettleRound(t, blocks, signatureValid) => RoundAdvancesLanes(l, tokens, t, blocks, signatureValid);
  }

  ghost function TargetFor(xs: seq<Transfer>, id: LaneId): Option<u64> {
    if x :| x in xs && x.lane == id then Some(x.target) else None
  }

  // ----- what one instruction does to one lane

  /** The lane after a successful instruction. */
  ghost function LaneNext(lane: Lane, id: LaneId, call: Call): Lane {
    match call
    case Lock(i, amount) =>
      if i == id && lane.lockedBalance + amount < TWO64
      then lane.(lockedBalance := lane.lockedBalance + amount) else lane
    case CooperativeUnlock(i, amount, _) =>
      if i == id && amount <= lane.lockedBalance
      then PendingCapped(lane.(lockedBalance := lane.lockedBalance - amount), lane.lockedBalance - amount) else lane
    case RequestUnlock(now, i, amount) =>
      if i == id then lane.(pendingUnlockAmount := amount, unlockRequestedAt := now) else lane
    case ExecuteUnlock(_, i) =>
      if i == id
      then lane.(lockedBalance := lane.lockedBalance - Min(lane.pendingUnlockAmount, lane.lockedBalance),
                 pendingUnlockAmount := 0, unlockRequestedAt := 0)
      else lane
    case _ =>
      var target := TargetFor(Named(call), id);
      if target.Some? && lane.settledCumulative < target.value then LaneAdvanced(lane, target.value) else lane
  }

  lemma SettlementMovesLane(w: World, call: Call, id: LaneId)
    requires Settles(call) && Executed(w, call).Ok? && id in w.ledger.lanes
    ensures id in Next(w, call).ledger.lanes
    ensures Next(w, call).ledger.lanes[id] == LaneNext(w.ledger.lanes[id], id, call)
  {
    hide Executed, Next;
    EveryRouteAdvancesNamedLanes(w, call);
    var xs := Named(call);
    if x :| x in xs && x.lane == id {
      assert TargetFor(xs, id).Some?;
      var y :| y in xs && y.lane == id && TargetFor(xs, id) == Some(y.target);
      assert Advances(w.ledger.lanes, y);
    }
  }

  lemma CollateralMovesLane(w: World, call: Call, id: LaneId)
    requires Executed(w, call).Ok? && id in w.ledger.lanes
    requires call.Lock? || call.CooperativeUnlock? || call.RequestUnlock? || call.ExecuteUnlock?
    ensures id in Next(w, call).ledger.lanes
    ensures Next(w, call).ledger.lanes[id] == LaneNext(w.ledger.lanes[id], id, call)
  {
    hide PendingCapped;
  }

  lemma OthersKeepLane(w: World, call: Call, id: LaneId)
    requires Executed(w, call).Ok? && id in w.ledger.lanes && !Settles(call)
    requires !call.Lock? && !call.CooperativeUnlock? && !call.RequestUnlock? && !call.ExecuteUnlock?
    ensures id in Next(w, call).ledger.lanes && Next(w, call).ledger.lanes[id] == w.ledger.lanes[id]
  {
    if MovesTokens(call) {
      TokensKeepLanes(w, call);
    }
  }

  lemma {:induction false} CreditsKeepLanes(l: Ledger, ps: seq<u32>, t: u16, amounts: seq<u64>)
    requires |ps| == |amounts| && AllCredited(l, ps, t, amounts).Ok?
    ensures AllCredited(l, ps, t, amounts).value.lanes == l.lanes
    decreases |ps|
  {
    if ps != [] {
      CreditsKeepLanes(l, ps[..|ps| - 1], t, amounts[..|ps| - 1]);
    }
  }

  lemma PlainTokensKeepLanes(w: World, call: Call)
    requires Executed(w, call).Ok?
    requires call.Deposit? || call.DepositFor? || call.ExecuteWithdrawal? || call.OutsideTransfer?
    ensures Next(w, call).ledger.lanes == w.ledger.lanes
  {
    hide Given, Transferred, TransferredIfAny, DueWithdrawal, Fees.WithdrawalFee, Summed, AllCredited;
    if call.DepositFor? {
      CreditsKeepLanes(w.ledger, call.participants, call.token, call.amounts);
    }
  }

  lemma YieldTokensKeepLanes(w: World, call: Call)
    requires Executed(w, call).Ok?
    requires call.DepositYield? || call.OptIn? || call.OptOut? || call.ExecuteYieldWithdrawal? || call.ClaimProtocolFee?
    ensures Next(w, call).ledger.lanes == w.ledger.lanes
  {
    hide YieldBearing.StrategyAccrued, YieldBearing.DepositInto, YieldBearing.OptOutFrom, YieldBearing.YieldPaid,
         YieldBearing.ProtocolClaimed, YieldStrategies.RequireSolvent, Given, Taken, DueWithdrawal, PairedMarket, PlainSide,
         YieldToken, MarketOf;
  }

  lemma TokensKeepLanes(w: World, call: Call)
    requires Executed(w, call).Ok? && MovesTokens(call)
    ensures Next(w, call).ledger.lanes == w.ledger.lanes
  {
    hide Executed, Next;
    if call.Deposit? || call.DepositFor? || call.ExecuteWithdrawal? || call.OutsideTransfer? {
      PlainTokensKeepLanes(w, call);
    } else {
      YieldTokensKeepLanes(w, call);
    }
  }

  /** Lanes are never closed or re-initialised, and only the instructions of `LaneNext` change one. */
  lemma LaneStep(w: World, call: Call, id: LaneId)
    requires Executed(w, call).Ok? && id in w.ledger.lanes
    ensures id in Next(w, call).ledger.lanes
    ensures Next(w, call).ledger.lanes[id] == LaneNext(w.ledger.lanes[id], id, call)
  {
    hide Executed, Next;
    if Settles(call) {
      SettlementMovesLane(w, call, id);
    } else if call.Lock? || call.CooperativeUnlock? || call.RequestUnlock? || call.ExecuteUnlock? {
      CollateralMovesLane(w, call, id);
    } else {
      OthersKeepLane(w, call, id);
      assert Named(call) == [];
    }
  }

  /** A failed transaction leaves the lane alone as well. */
  lemma LaneStays(w: World, call: Call, id: LaneId)
    requires id in w.ledger.lanes
    ensures id in Next(w, call).ledger.lanes
    ensures Next(w, call).ledger.lanes[id]
            == if Executed(w, call).Ok? then LaneNext(w.ledger.lanes[id], id, call) else w.ledger.lanes[id]
  {
    if Executed(w, call).Ok? {
      LaneStep(w, call, id);
    }
  }

  // ----- settled amounts

  ghost predicate Commits(call: Call, id: LaneId, amount: u64) {
    exists x :: x in Named(call) && x == Transfer(id, amount)
  }

  lemma SettledStep(w: World, call: Call, id: LaneId)
    requires id in w.ledger.lanes
    ensures id in Next(w, call).ledger.lanes
    ensures var before, after := w.ledger.lanes[id].settledCumulative, Next(w, call).ledger.lanes[id].settledCumulative;
            after == before || (before < after && Commits(call, id, after))
  {
    hide Next, Executed, Named;
    LaneStays(w, call, id);
    var target := TargetFor(Named(call), id);
    if target.Some? {
      var x :| x in Named(call) && x.lane == id && x.target == target.value;
      assert x == Transfer(id, target.value);
    }
  }

  /** Over any interleaving of the three routes the settled amount of a lane never falls and is
      always an amount that some commitment of the run named for this lane, so it never exceeds the
      largest of them. */
  lemma {:induction false} SettledIsSomeCommitment(w: World, calls: seq<Call>, id: LaneId)
    requires id in w.ledger.lanes
    ensures id in Reached(w, calls).ledger.lanes
    ensures var before, after := w.ledger.lanes[id].settledCumulative, Reached(w, calls).ledger.lanes[id].settledCumulative;
            after == before || (before < after && exists call :: call in calls && Commits(call, id, after))
    decreases |calls|
  {
    hide Next, Commits;
    if calls != [] {
      SettledStep(w, calls[0], id);
      var w1 := Next(w, calls[0]);
      SettledIsSomeCommitment(w1, calls[1..], id);
      assert calls[0] in calls;
      var after := Reached(w, calls).ledger.lanes[id].settledCumulative;
      if after != w1.ledger.lanes[id].settledCumulative {
        var call :| call in calls[1..] && Commits(call, id, after);
        assert call in calls;
      }
    }
  }

  // ----- collateral

  /** What one instruction locks in a lane, releases from it and consumes by settlement. */
  datatype Collateral = Collateral(lockedIn: nat, released: nat, consumed: nat)

  ghost function CollateralOf(lane: Lane, id: LaneId, call: Call): Collateral {
    match call
    case Lock(i, amount) => Collateral(if i == id then amount else 0, 0, 0)
    case CooperativeUnlock(i, amount, _) => Collateral(0, if i == id then amount else 0, 0)
    case ExecuteUnlock(_, i) =>
      Collateral(0, if i == id then Min(lane.pendingUnlockAmount, lane.lockedBalance) else 0, 0)
    case _ =>
      var target := TargetFor(Named(call), id);
      if target.Some? && lane.settledCumulative < target.value
      then Collateral(0, 0, AdvanceOf(lane, target.value).consumed) else Collateral(0, 0, 0)
  }

  function Plus(a: Collateral, b: Collateral): Collateral {
    Collateral(a.lockedIn + b.lockedIn, a.released + b.released, a.consumed + b.consumed)
  }

  ghost function CollateralOver(w: World, calls: seq<Call>, id: LaneId): Collateral
    requires id in w.ledger.lanes
    decreases |calls|
  {
    if calls == [] then Collateral(0, 0, 0)
    else
      LaneStays(w, calls[0], id);
      Plus(if Executed(w, calls[0]).Ok? then CollateralOf(w.ledger.lanes[id], id, calls[0]) else Collateral(0, 0, 0),
           CollateralOver(Next(w, calls[0]), calls[1..], id))
  }

  lemma CollateralStep(w: World, call: Call, id: LaneId)
    requires Executed(w, call).Ok? && id in w.ledger.lanes
    ensures var c := CollateralOf(w.ledger.lanes[id], id, call);
            LaneNext(w.ledger.lanes[id], id, call).lockedBalance
            == w.ledger.lanes[id].lockedBalance + c.lockedIn - c.released - c.consumed
  {
    hide Settled, BundleSettled, RoundSettled;
  }

  /** Per lane, over any run: everything locked in is consumed by settlement, released, or still
      locked. */
  lemma {:induction false} CollateralIsAccountedFor(w: World, calls: seq<Call>, id: LaneId)
    requires id in w.ledger.lanes
    ensures id in Reached(w, calls).ledger.lanes
    ensures var c := CollateralOver(w, calls, id);
            w.ledger.lanes[id].lockedBalance + c.lockedIn
            == c.consumed + c.released + Reached(w, calls).ledger.lanes[id].lockedBalance
    decreases |calls|
  {
    hide Next, Executed, LaneNext, CollateralOf;
    if calls != [] {
      LaneStays(w, calls[0], id);
      if Executed(w, calls[0]).Ok? {
        CollateralStep(w, calls[0], id);
      }
      CollateralIsAccountedFor(Next(w, calls[0]), calls[1..], id);
    }
  }

  // ----- the timelock

  /** A request for release that no execution has answered. */
  datatype Request = Request(amount: u64, at: i64)

  function RequestAfter(w: World, call: Call, id: LaneId, open: Option<Request>): Option<Request> {
    if Executed(w, call).Err? then open
    else
      match call
      case RequestUnlock(now, i, amount) => if i == id then Some(Request(amount, now)) else open
      case ExecuteUnlock(_, i) => if i == id then None else open
      case _ => open
  }

  /** The latest request of a run that has not been answered yet. */
  function OpenRequest(w: World, calls: seq<Call>, id: LaneId, open: Option<Request>): Option<Request>
    decreases |calls|
  {
    if calls == [] then open
    else OpenRequest(Next(w, calls[0]), calls[1..], id, RequestAfter(w, calls[0], id, open))
  }

  ghost predicate PendingMatches(lane: Lane, open: Option<Request>) {
    lane.HasPendingUnlock() ==>
      open.Some? && lane.pendingUnlockAmount <= open.value.amount && lane.unlockRequestedAt == open.value.at
  }

  lemma PendingStep(w: World, call: Call, id: LaneId, open: Option<Request>)
    requires id in w.ledger.lanes && PendingMatches(w.ledger.lanes[id], open)
    ensures id in Next(w, call).ledger.lanes
    ensures PendingMatches(Next(w, call).ledger.lanes[id], RequestAfter(w, call, id, open))
  {
    hide Next, Executed, TargetFor;
    LaneStays(w, call, id);
  }

  lemma {:induction false} PendingOverRun(w: World, calls: seq<Call>, id: LaneId, open: Option<Request>)
    requires id in w.ledger.lanes && PendingMatches(w.ledger.lanes[id], open)
    ensures id in Reached(w, calls).ledger.lanes
    ensures PendingMatches(Reached(w, calls).ledger.lanes[id], OpenRequest(w, calls, id, open))
    decreases |calls|
  {
    hide Next, PendingMatches, RequestAfter;
    if calls != [] {
      PendingStep(w, calls[0], id, open);
      PendingOverRun(Next(w, calls[0]), calls[1..], id, RequestAfter(w, calls[0], id, open));
    }
  }

  lemma {:induction false} ConfigIsFixed(w: World, calls: seq<Call>)
    requires WellFormed(w)
    ensures Reached(w, calls).config == w.config
  {
    FrameStaysOverRuns(w, calls);
  }

  /** Every unilateral release answers the latest request on its lane, at least the timelock after
      it, and hands back at most that request and at most the collateral of that moment. */
  lemma ReleaseWaitsForTimelock(w: World, calls: seq<Call>, id: LaneId, now: i64)
    requires WellFormed(w) && id in w.ledger.lanes && !w.ledger.lanes[id].HasPendingUnlock()
    requires ReleaseExecuted(Reached(w, calls), now, id).Ok?
    ensures id in Reached(w, calls).ledger.lanes
    ensures var open := OpenRequest(w, calls, id, None);
            var released := ReleaseExecuted(Reached(w, calls), now, id).value.1;
            && open.Some?
            && EffectiveUnlockTimelock(w.config).Ok?
            && now >= open.value.at + EffectiveUnlockTimelock(w.config).value
            && released <= open.value.amount
            && released <= Reached(w, calls).ledger.lanes[id].lockedBalance
  {
    PendingOverRun(w, calls, id, None);
    ConfigIsFixed(w, calls);
  }

  // ----- the pending release

  /** A pending release is within the collateral of its lane, and without one no time is kept. */
  ghost predicate PendingInOrder(lane: Lane) {
    lane.pendingUnlockAmount <= lane.lockedBalance && (lane.pendingUnlockAmount == 0 ==> lane.unlockRequestedAt == 0)
  }

  lemma LaneNextInOrder(w: World, call: Call, id: LaneId)
    requires id in w.ledger.lanes && PendingInOrder(w.ledger.lanes[id]) && Executed(w, call).Ok?
    ensures PendingInOrder(LaneNext(w.ledger.lanes[id], id, call))
  {
    hide Settled, BundleSettled, RoundSettled, DeltaApplied, TargetFor, AvailableDebited;
  }

  /** No run breaks that: whatever consumes collateral, settlement by any route included, cuts the
      pending release with it. */
  lemma {:induction false} PendingStaysInOrder(w: World, calls: seq<Call>, id: LaneId)
    requires id in w.ledger.lanes && PendingInOrder(w.ledger.lanes[id])
    ensures id in Reached(w, calls).ledger.lanes && PendingInOrder(Reached(w, calls).ledger.lanes[id])
    decreases |calls|
  {
    hide Next, Executed, LaneNext, PendingInOrder;
    if calls != [] {
      LaneStays(w, calls[0], id);
      if Executed(w, calls[0]).Ok? {
        LaneNextInOrder(w, calls[0], id);
      }
      PendingStaysInOrder(Next(w, calls[0]), calls[1..], id);
    }
  }
}
