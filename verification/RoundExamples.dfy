/** Concrete rounds that tell a clearing round and single settlements apart. */
module RoundExamples {
  import opened Machine
  import opened Ledgers
  import opened SettleIndividual
  import opened Transfers
  import opened ClearingRound
  import opened RoundRefinement

  const ALICE: u32 := 1
  const BOB: u32 := 2
  const CAROL: u32 := 3
  const OWNER: Key := 7

  function FreshLane(): Lane {
    Lane(0, 0, OWNER, 0, 0)
  }

  function Cycle(t: u16): Ledger {
    var slot := Slot(OWNER, BLS_SCHEME_VERSION_V1);
    Ledger(map[ALICE := slot, BOB := slot, CAROL := slot], map[],
           map[LaneId(ALICE, BOB, t) := FreshLane(), LaneId(BOB, CAROL, t) := FreshLane(),
               LaneId(CAROL, ALICE, t) := FreshLane()])
  }

  function CycleBlocks(amount: u64): seq<Block> {
    [Block(ALICE, [ChannelEntry(1, amount)]), Block(BOB, [ChannelEntry(2, amount)]),
     Block(CAROL, [ChannelEntry(0, amount)])]
  }

  function CycleTransfers(t: u16, amount: u64): seq<Transfer> {
    [Transfer(LaneId(ALICE, BOB, t), amount), Transfer(LaneId(BOB, CAROL, t), amount),
     Transfer(LaneId(CAROL, ALICE, t), amount)]
  }

  lemma CycleShape(t: u16, amount: u64)
    ensures Roster(CycleBlocks(amount)) == [ALICE, BOB, CAROL]
    ensures EntriesFrom(CycleBlocks(amount), 0) == [Entry(0, 1, amount), Entry(1, 2, amount), Entry(2, 0, amount)]
    ensures TransfersAt(Roster(CycleBlocks(amount)), t, EntriesFrom(CycleBlocks(amount), 0))
            == CycleTransfers(t, amount)
  {
    var blocks := CycleBlocks(amount);
    assert EntriesFrom(blocks, 3) == [];
    assert EntriesFrom(blocks, 2) == [Entry(2, 0, amount)];
    assert EntriesFrom(blocks, 1) == [Entry(1, 2, amount), Entry(2, 0, amount)];
  }

  lemma CycleNets(t: u16, amount: u64, p: u32)
    requires 0 < amount && 3 * amount < TWO64
    ensures Net(Cycle(t).lanes, CycleTransfers(t, amount), p) == 0
    ensures Gross(Cycle(t).lanes, CycleTransfers(t, amount)) == 3 * amount
    ensures AllAdvance(Cycle(t).lanes, CycleTransfers(t, amount))
  {
    var xs, lanes := CycleTransfers(t, amount), Cycle(t).lanes;
    assert forall x :: x in xs ==> Advances(lanes, x) && Amount(lanes, x) == amount && Consumed(lanes, x) == 0;
    assert xs[2..] == [xs[2]] && xs[2..][1..] == [] && xs[1..][1..] == xs[2..];
    assert Net(lanes, xs[2..], p) == Effect(lanes, xs[2], p);
    assert Net(lanes, xs[1..], p) == Effect(lanes, xs[1], p) + Effect(lanes, xs[2], p);
    assert Gross(lanes, xs[2..]) == amount;
    assert Gross(lanes, xs[1..]) == 2 * amount;
  }

  /** Three participants without any balance clear a cycle in one round, although every order of
      single settlements of the same lanes fails. */
  lemma CycleClearsOnlyAsRound(t: u16, amount: u64, ss: seq<Submission>)
    requires 0 < amount && 3 * amount < TWO64
    requires OneToken(ss, t) && multiset(TransfersOf(ss)) == multiset(CycleTransfers(t, amount))
    ensures RoundSettled(Cycle(t), {t}, t, CycleBlocks(amount), true).Ok?
    ensures SettledAll(Cycle(t), {t}, ss).Err?
  {
    var l, blocks := Cycle(t), CycleBlocks(amount);
    CycleShape(t, amount);
    forall p: u32 ensures Net(l.lanes, CycleTransfers(t, amount), p) == 0 {
      CycleNets(t, amount, p);
    }
    CycleNets(t, amount, 0);
    NettedRoundSucceeds(l, {t}, t, blocks);
    assert |TransfersOf(ss)| == 3 by {
      assert |multiset(TransfersOf(ss))| == 3;
    }
    EmptyPayersCannotSettle(l, {t}, t, ss);
  }

  // ----- a payee whose two balances do not fit one word

  /** Bob's available and withdrawing balances together are one more than a word can hold. */
  function Overfull(t: u16): Ledger {
    var slot := Slot(OWNER, BLS_SCHEME_VERSION_V1);
    Ledger(map[ALICE := slot, BOB := slot],
           map[Account(ALICE, t) := Balance(5, 0, 0, DEFAULT_KEY),
               Account(BOB, t) := Balance(TWO64 - 6, 7, 1, OWNER)],
           map[LaneId(ALICE, BOB, t) := FreshLane()])
  }

  /** Paying such a payee works lane by lane and fails as a round. */
  lemma OverfullPayeeStopsOnlyTheRound(t: u16)
    ensures var s := Submission(OWNER, OWNER, Commitment(ALICE, BOB, t, 5, None));
            var blocks := [Block(ALICE, [ChannelEntry(1, 5)]), Block(BOB, [])];
            && SettledAll(Overfull(t), {t}, [s]).Ok?
            && RoundSettled(Overfull(t), {t}, t, blocks, true).Err?
  {
    var s := Submission(OWNER, OWNER, Commitment(ALICE, BOB, t, 5, None));
    var blocks := [Block(ALICE, [ChannelEntry(1, 5)]), Block(BOB, [])];
    SettlementOutcome(Overfull(t), {t}, s);
    assert [s][1..] == [];
    assert SettledAll(Moved(Overfull(t), s.commitment), {t}, [s][1..]).Ok?;
    OverfullStopsRound(Overfull(t), {t}, t, blocks, 1);
  }
}
