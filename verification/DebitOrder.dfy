/** Which part of a balance a settlement takes: the available part first, and what is set aside for a
    withdrawal only when nothing else is left. */
module DebitOrder {
  import opened Machine
  import opened Ledgers
  import opened SettleIndividual
  import opened BalanceDeltas
  import opened Transfers
  import opened ClearingRound
  import opened RoundRefinement
  import opened SettleCommitmentBundle
  import opened BundleEquivalence

  /** `x` was taken from `b`, leaving `b'`. */
  ghost predicate TakenFrom(b: Balance, b': Balance, x: nat) {
    && (x <= b.available ==> b'.available == b.available - x && b'.withdrawing == b.withdrawing)
    && (x > b.available ==> b'.available == 0 && b'.withdrawing == b.withdrawing - (x - b.available))
    && b'.unlockAt == b.unlockAt && b'.destination == b.destination
  }

  /** `x` was added to `b`, leaving `b'`: credits are available at once. */
  ghost predicate AddedTo(b: Balance, b': Balance, x: nat) {
    && b'.available == b.available + x && b'.withdrawing == b.withdrawing
    && b'.unlockAt == b.unlockAt && b'.destination == b.destination
  }

  ghost predicate MovedBy(b: Balance, b': Balance, delta: int) {
    if delta < 0 then TakenFrom(b, b', -delta) else AddedTo(b, b', delta)
  }

  /** A delta takes from the available part before it touches the withdrawing part, and adds to the
      available part only; the pending withdrawal keeps its time and destination. */
  lemma DeltaTakesAvailableFirst(l: Ledger, p: u32, t: u16, delta: int)
    requires DeltaApplied(l, p, t, delta).Ok?
    ensures MovedBy(BalanceOf(l, Account(p, t)), BalanceOf(DeltaApplied(l, p, t, delta).value, Account(p, t)), delta)
    ensures delta < 0 ==> -delta <= Total(l, p, t)
  {
  }

  lemma ShiftMoves(l: Ledger, l': Ledger, p: u32, t: u16, delta: int)
    requires Shifted(l, l', p, t, delta) && DeltaOk(l, p, t, delta)
    ensures MovedBy(BalanceOf(l, Account(p, t)), BalanceOf(l', Account(p, t)), delta)
  {
    var a := Account(p, t);
    assert a.participant == p;
    if delta == 0 && a !in l.balances {
      assert a !in l'.balances;
    }
  }

  // ----- one commitment

  /** What the collateral of its lane leaves a commitment to take from the payer's balance. */
  function Uncovered(lanes: Lanes, c: Commitment): nat
    requires LaneOf(c) in lanes && lanes[LaneOf(c)].settledCumulative <= c.committedAmount
  {
    var lane := lanes[LaneOf(c)];
    Max(0, c.committedAmount - lane.settledCumulative - lane.lockedBalance)
  }

  /** A settlement uses up the collateral of its lane, then the payer's available part, then what the
      payer has set aside; the payee gets the whole amount as available. */
  lemma SettlementTakesAvailableFirst(l: Ledger, tokens: set<u16>, s: Submission)
    requires Settled(l, tokens, s).Ok?
    ensures var c, l' := s.commitment, Settled(l, tokens, s).value;
            var payer, payee := Account(c.payer, c.token), Account(c.payee, c.token);
            && LaneOf(c) in l.lanes && l.lanes[LaneOf(c)].settledCumulative < c.committedAmount
            && payer in l.balances && payer in l'.balances && payee in l'.balances
            && LaneOf(c) in l'.lanes
            && TakenFrom(l.balances[payer], l'.balances[payer], Uncovered(l.lanes, c))
            && AddedTo(BalanceOf(l, payee), l'.balances[payee],
                       c.committedAmount - l.lanes[LaneOf(c)].settledCumulative)
            && l'.lanes[LaneOf(c)].lockedBalance
               == Max(0, l.lanes[LaneOf(c)].lockedBalance
                         - (c.committedAmount - l.lanes[LaneOf(c)].settledCumulative))
            && l'.lanes[LaneOf(c)].settledCumulative == c.committedAmount
  {
    SettlementOutcome(l, tokens, s);
  }

  // ----- the bundle

  /** The payer of one commitment of a bundle is debited for that commitment alone. */
  lemma {:induction false} PayerNetIs(lanes: Lanes, ss: seq<Submission>, t: u16, payee: u32, s: Submission)
    requires OnePayee(ss, t, payee) && s in ss && s.commitment.payer != payee
    ensures Net(lanes, TransfersOf(ss), s.commitment.payer) == Effect(lanes, TransferOf(s), s.commitment.payer)
  {
    RestOfOnePayee(ss, t, payee);
    var p, xs := s.commitment.payer, TransfersOf(ss[1..]);
    assert ss[0] in ss;
    if s == ss[0] {
      forall x | x in xs ensures x.lane.payer != p && x.lane.payee != p {
        var i :| 0 <= i < |xs| && xs[i] == x;
        assert ss[1..][i] in ss[1..];
      }
      OutsiderNet(lanes, xs, p);
    } else {
      PayerNetIs(lanes, ss[1..], t, payee, s);
    }
  }

  /** Each payer of a bundle loses its own uncovered amount, available part first. */
  lemma BundleTakesAvailableFirst(l: Ledger, tokens: set<u16>, submitter: Key, items: seq<SignedCommitment>, i: nat)
    requires BundleSettled(l, tokens, submitter, items).Ok? && i < |items|
    ensures var c, l' := items[i].commitment, BundleSettled(l, tokens, submitter, items).value.ledger;
            var payer := Account(c.payer, c.token);
            && LaneOf(c) in l.lanes && l.lanes[LaneOf(c)].settledCumulative < c.committedAmount
            && payer in l.balances && payer in l'.balances
            && TakenFrom(l.balances[payer], l'.balances[payer], Uncovered(l.lanes, c))
  {
    hide BundleSettled, Net, OnePayee;
    var ss, t, payee := SubmissionsOf(submitter, items), items[0].commitment.token, items[0].commitment.payee;
    AcceptedBundleHasOnePayee(l, tokens, submitter, items);
    BundleVerdict(l, tokens, submitter, items);
    var s := ss[i];
    assert s in ss && Acceptable(l, tokens, s);
    NamesToken(ss, t, payee, s);
    PayerNetIs(l.lanes, ss, t, payee, s);
    var delta := Net(l.lanes, TransfersOf(ss), s.commitment.payer);
    assert delta + Uncovered(l.lanes, s.commitment) == 0;
    ShiftMoves(l, BundleSettled(l, tokens, submitter, items).value.ledger, s.commitment.payer, t, delta);
    assert Account(s.commitment.payer, t).participant == s.commitment.payer;
  }

  lemma NamesToken(ss: seq<Submission>, t: u16, payee: u32, s: Submission)
    requires OnePayee(ss, t, payee) && s in ss
    ensures s.commitment.token == t && s.commitment.payee == payee
  {
  }

  // ----- the round

  /** Each participant of a round is moved by its own net position: a net payer loses it available
      part first, a net receiver gets it as available. */
  lemma RoundTakesAvailableFirst(l: Ledger, tokens: set<u16>, t: u16, blocks: seq<Block>, signatureValid: bool, k: nat)
    requires RoundSettled(l, tokens, t, blocks, signatureValid).Ok? && k < |blocks|
    ensures InRange(Roster(blocks), EntriesFrom(blocks, 0))
    ensures var l' := RoundSettled(l, tokens, t, blocks, signatureValid).value.ledger;
            var a := Account(blocks[k].participant, t);
            MovedBy(BalanceOf(l, a), BalanceOf(l', a),
                    Net(l.lanes, TransfersAt(Roster(blocks), t, EntriesFrom(blocks, 0)), blocks[k].participant))
  {
    hide RoundSettled, Net, LanesAdvanced, MovedBy, Shifted, DeltaOk;
    RoundSucceedsExactlyWhen(l, tokens, t, blocks, signatureValid);
    var ids := Roster(blocks);
    var delta := Net(l.lanes, TransfersAt(ids, t, EntriesFrom(blocks, 0)), ids[k]);
    assert DeltaOk(l, ids[k], t, NetPositions(l, t, blocks)[k]);
    assert NetPositions(l, t, blocks)[k] == delta;
    ShiftMoves(l, RoundSettled(l, tokens, t, blocks, signatureValid).value.ledger, ids[k], t, delta);
  }
}
