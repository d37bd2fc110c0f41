/** A clearing round refines settling its lanes one by one, and is strictly more permissive. */
module RoundRefinement {
  import opened Machine
  import opened Ledgers
  import opened SettleIndividual
  import opened BalanceDeltas
  import opened Transfers
  import opened ClearingRound

  ghost predicate InRange(ids: seq<u32>, es: seq<Entry>) {
    forall e :: e in es ==> e.payer < |ids| && e.payee < |ids|
  }

  /** Every payee reference points into the roster and no payer repeats one. */
  ghost predicate RefsOk(ids: seq<u32>, seen: set<(nat, nat)>, es: seq<Entry>) {
    && InRange(ids, es)
    && (forall e :: e in es ==> (e.payer, e.payee) !in seen)
    && (forall i, j :: 0 <= i < j < |es| ==> (es[i].payer, es[i].payee) != (es[j].payer, es[j].payee))
  }

  function TransferAt(ids: seq<u32>, t: u16, e: Entry): Transfer
    requires e.payer < |ids| && e.payee < |ids|
  {
    Transfer(LaneId(ids[e.payer], ids[e.payee], t), e.target)
  }

  function TransfersAt(ids: seq<u32>, t: u16, es: seq<Entry>): seq<Transfer>
    requires InRange(ids, es)
  {
    seq(|es|, i requires 0 <= i < |es| => TransferAt(ids, t, es[i]))
  }

  /** Distinct participants and distinct references name distinct lanes. */
  lemma RefsNameDistinctLanes(ids: seq<u32>, t: u16, seen: set<(nat, nat)>, es: seq<Entry>)
    requires DistinctIds(ids) && RefsOk(ids, seen, es)
    ensures DistinctLanes(TransfersAt(ids, t, es))
  {
  }

  /** The sum of the positive positions. */
  ghost function Positives(positions: seq<int>): nat {
    if positions == [] then 0
    else Positives(positions[..|positions| - 1]) + Max(0, positions[|positions| - 1])
  }

  lemma {:induction false} PositivesUpdate(positions: seq<int>, k: nat, v: int)
    requires k < |positions|
    ensures Positives(positions[k := v]) == Positives(positions) - Max(0, positions[k]) + Max(0, v)
    decreases |positions|
  {
    var n := |positions| - 1;
    if k == n {
      assert positions[k := v][..n] == positions[..n];
    } else {
      assert positions[k := v][..n] == positions[..n][k := v];
      PositivesUpdate(positions[..n], k, v);
    }
  }

  ghost predicate Within(position: int, gross: nat) {
    0 <= position + gross && position <= gross
  }

  /** No position outgrows the gross sum, so none can leave the 128-bit range. */
  ghost predicate Balanced(st: RoundState) {
    && (forall k :: 0 <= k < |st.positions| ==> Within(st.positions[k], st.gross))
    && Positives(st.positions) <= st.gross
  }

  // ----- the entry loop, in closed form

  ghost predicate StepOk(st: RoundState, ids: seq<u32>, t: u16, e: Entry) {
    && e.payer < |ids| && e.payee < |ids|
    && (e.payer, e.payee) !in st.seen
    && Advances(st.ledger.lanes, TransferAt(ids, t, e))
    && st.gross + Amount(st.ledger.lanes, TransferAt(ids, t, e)) < TWO64
  }

  /** Paying `uncovered` at `i` and `amount` at `j` keeps every position within the new gross. */
  lemma PositionsMove(positions: seq<int>, gross: nat, i: nat, j: nat, uncovered: nat, amount: nat)
    requires i < |positions| && j < |positions| && i != j && uncovered <= amount
    requires forall k :: 0 <= k < |positions| ==> Within(positions[k], gross)
    requires Positives(positions) <= gross
    ensures var moved := positions[i := positions[i] - uncovered][j := positions[j] + amount];
            && (forall k :: 0 <= k < |moved| ==> Within(moved[k], gross + amount))
            && Positives(moved) <= gross + amount
  {
    PositivesUpdate(positions, i, positions[i] - uncovered);
    PositivesUpdate(positions[i := positions[i] - uncovered], j, positions[j] + amount);
    assert Within(positions[i], gross) && Within(positions[j], gross);
  }

  lemma EntryVerdict(st: RoundState, ids: seq<u32>, t: u16, e: Entry)
    requires DistinctIds(ids) && |st.positions| == |ids| && e.payer < |ids| && Balanced(st)
    ensures EntryApplied(st, ids, t, e).Ok? <==> StepOk(st, ids, t, e)
    ensures StepOk(st, ids, t, e) ==>
              var x := TransferAt(ids, t, e);
              var a := AdvanceOf(st.ledger.lanes[x.lane], e.target);
              && e.payer != e.payee
              && EntryApplied(st, ids, t, e).value == RoundState(
                   st.ledger.(lanes := st.ledger.lanes[x.lane := LaneAdvanced(st.ledger.lanes[x.lane], x.target)]),
                   st.positions[e.payer := st.positions[e.payer] - (a.amount - a.consumed)]
                               [e.payee := st.positions[e.payee] + a.amount],
                   st.gross + a.amount, st.seen + {(e.payer, e.payee)})
  {
    if e.payee < |ids| {
      assert Within(st.positions[e.payer], st.gross) && Within(st.positions[e.payee], st.gross);
    }
  }

  lemma EntryOutcome(st: RoundState, ids: seq<u32>, t: u16, e: Entry)
    requires DistinctIds(ids) && |st.positions| == |ids| && e.payer < |ids| && Balanced(st)
    ensures EntryApplied(st, ids, t, e).Ok? <==> StepOk(st, ids, t, e)
    ensures StepOk(st, ids, t, e) ==>
              var st' := EntryApplied(st, ids, t, e).value;
              var x := TransferAt(ids, t, e);
              && st'.ledger == st.ledger.(lanes :=
                   st.ledger.lanes[x.lane := LaneAdvanced(st.ledger.lanes[x.lane], x.target)])
              && st'.gross == st.gross + Amount(st.ledger.lanes, x)
              && st'.seen == st.seen + {(e.payer, e.payee)}
              && Balanced(st')
              && (forall k :: 0 <= k < |ids| ==>
                    st'.positions[k] == st.positions[k] + Effect(st.ledger.lanes, x, ids[k]))
  {
    EntryVerdict(st, ids, t, e);
    if StepOk(st, ids, t, e) {
      var a := AdvanceOf(st.ledger.lanes[TransferAt(ids, t, e).lane], e.target);
      PositionsMove(st.positions, st.gross, e.payer, e.payee, a.amount - a.consumed, a.amount);
    }
  }

  ghost predicate StepsOk(st: RoundState, ids: seq<u32>, t: u16, es: seq<Entry>) {
    && RefsOk(ids, st.seen, es)
    && AllAdvance(st.ledger.lanes, TransfersAt(ids, t, es))
    && st.gross + Gross(st.ledger.lanes, TransfersAt(ids, t, es)) < TWO64
  }

  /** Taking the first entry off keeps the condition, both ways. */
  lemma StepsOkSplits(st: RoundState, ids: seq<u32>, t: u16, es: seq<Entry>)
    requires DistinctIds(ids) && |st.positions| == |ids| && Balanced(st)
    requires es != [] && PayersListed(ids, es)
    ensures StepsOk(st, ids, t, es) ==> StepOk(st, ids, t, es[0])
    ensures StepOk(st, ids, t, es[0]) ==>
              (StepsOk(st, ids, t, es) <==> StepsOk(EntryApplied(st, ids, t, es[0]).value, ids, t, es[1..]))
  {
    var e := es[0];
    EntryOutcome(st, ids, t, e);
    assert es == [e] + es[1..];
    if StepsOk(st, ids, t, es) {
      assert TransfersAt(ids, t, es)[0] in TransfersAt(ids, t, es);
    }
    if StepOk(st, ids, t, e) {
      var st' := EntryApplied(st, ids, t, e).value;
      RefsSplit(ids, st.seen, es);
      if RefsOk(ids, st.seen, es) {
        var xs := TransfersAt(ids, t, es);
        assert TransfersAt(ids, t, es[1..]) == xs[1..];
        RefsNameDistinctLanes(ids, t, st.seen, es);
        RestIsElsewhere(xs);
        OnlyNamedLanesMatter(st.ledger.lanes, st'.ledger.lanes, xs[1..], 0);
      }
    }
  }

  lemma RefsSplit(ids: seq<u32>, seen: set<(nat, nat)>, es: seq<Entry>)
    requires es != [] && es[0].payer < |ids| && es[0].payee < |ids| && (es[0].payer, es[0].payee) !in seen
    ensures RefsOk(ids, seen, es) <==> RefsOk(ids, seen + {(es[0].payer, es[0].payee)}, es[1..])
  {
    assert es == [es[0]] + es[1..];
  }

  /** The entry loop succeeds exactly when the references are sound, every lane really advances
      and the gross sum fits; it then holds the advanced lanes and every net position. */
  lemma {:induction false} EntriesOutcome(st: RoundState, ids: seq<u32>, t: u16, es: seq<Entry>)
    requires DistinctIds(ids) && |st.positions| == |ids| && Balanced(st) && PayersListed(ids, es)
    ensures EntriesApplied(st, ids, t, es).Ok? <==> StepsOk(st, ids, t, es)
    ensures StepsOk(st, ids, t, es) ==>
              var st' := EntriesApplied(st, ids, t, es).value;
              var xs := TransfersAt(ids, t, es);
              && st'.ledger == st.ledger.(lanes := st'.ledger.lanes)
              && LanesAdvanced(st.ledger.lanes, st'.ledger.lanes, xs)
              && st'.gross == st.gross + Gross(st.ledger.lanes, xs)
              && Balanced(st')
              && (forall k :: 0 <= k < |ids| ==>
                    st'.positions[k] == st.positions[k] + Net(st.ledger.lanes, xs, ids[k]))
    decreases |es|
  {
    if es != [] {
      EntryOutcome(st, ids, t, es[0]);
      StepsOkSplits(st, ids, t, es);
      if StepOk(st, ids, t, es[0]) {
        var st1 := EntryApplied(st, ids, t, es[0]).value;
        EntriesOutcome(st1, ids, t, es[1..]);
        if StepsOk(st, ids, t, es) {
          EntriesCombine(st, ids, t, es);
        }
      }
    }
  }

  lemma EntriesCombine(st: RoundState, ids: seq<u32>, t: u16, es: seq<Entry>)
    requires DistinctIds(ids) && |st.positions| == |ids| && Balanced(st) && PayersListed(ids, es)
    requires es != [] && StepsOk(st, ids, t, es) && StepOk(st, ids, t, es[0])
    requires EntryApplied(st, ids, t, es[0]).Ok?
    requires var st1 := EntryApplied(st, ids, t, es[0]).value;
             && EntriesApplied(st1, ids, t, es[1..]).Ok?
             && InRange(ids, es[1..])
             && LanesAdvanced(st1.ledger.lanes, EntriesApplied(st1, ids, t, es[1..]).value.ledger.lanes,
                              TransfersAt(ids, t, es[1..]))
    ensures var st1 := EntryApplied(st, ids, t, es[0]).value;
            var st' := EntriesApplied(st1, ids, t, es[1..]).value;
            var xs := TransfersAt(ids, t, es);
            && LanesAdvanced(st.ledger.lanes, st'.ledger.lanes, xs)
            && Gross(st.ledger.lanes, xs)
               == Amount(st.ledger.lanes, xs[0]) + Gross(st1.ledger.lanes, TransfersAt(ids, t, es[1..]))
            && (forall k :: 0 <= k < |ids| ==>
                  Net(st.ledger.lanes, xs, ids[k])
                  == Effect(st.ledger.lanes, xs[0], ids[k])
                     + Net(st1.ledger.lanes, TransfersAt(ids, t, es[1..]), ids[k]))
  {
    EntryOutcome(st, ids, t, es[0]);
    var st1 := EntryApplied(st, ids, t, es[0]).value;
    var xs := TransfersAt(ids, t, es);
    assert TransfersAt(ids, t, es[1..]) == xs[1..];
    RefsNameDistinctLanes(ids, t, st.seen, es);
    RestIsElsewhere(xs);
    AdvanceFirstLane(st.ledger.lanes, EntriesApplied(st1, ids, t, es[1..]).value.ledger.lanes, xs);
    OnlyNamedLanesMatter(st.ledger.lanes, st1.ledger.lanes, xs[1..], 0);
    forall k | 0 <= k < |ids|
      ensures Net(st.ledger.lanes, xs, ids[k])
              == Effect(st.ledger.lanes, xs[0], ids[k]) + Net(st1.ledger.lanes, xs[1..], ids[k])
    {
      OnlyNamedLanesMatter(st.ledger.lanes, st1.ledger.lanes, xs[1..], ids[k]);
    }
  }

  // ----- the check of the positions, in closed form

  ghost predicate NetPayersCovered(totals: seq<u64>, positions: seq<int>)
    requires |totals| == |positions|
  {
    forall k :: 0 <= k < |positions| ==> 0 <= totals[k] + positions[k]
  }

  lemma {:induction false} CheckOutcome(totals: seq<u64>, positions: seq<int>)
    requires |totals| == |positions| && Positives(positions) < TWO64
    ensures PositionsChecked(totals, positions).Ok? <==> NetPayersCovered(totals, positions)
    ensures NetPayersCovered(totals, positions) ==>
              PositionsChecked(totals, positions).value == Positives(positions)
    decreases |positions|
  {
    if positions != [] {
      var n := |positions| - 1;
      CheckOutcome(totals[..n], positions[..n]);
      if !NetPayersCovered(totals[..n], positions[..n]) {
        var k :| 0 <= k < n && totals[..n][k] + positions[..n][k] < 0;
        assert totals[k] + positions[k] < 0;
      }
    }
  }

  // ----- the participants, in closed form

  /** The participant of `block` exists and, if it pays, has a usable key. */
  ghost predicate Listed(l: Ledger, block: Block) {
    && block.participant in l.slots
    && l.slots[block.participant].owner != DEFAULT_KEY
    && (block.entries != [] ==> l.slots[block.participant].blsSchemeVersion == BLS_SCHEME_VERSION_V1)
  }

  ghost predicate RosterListed(l: Ledger, blocks: seq<Block>) {
    && DistinctIds(Roster(blocks))
    && (forall b :: b in blocks ==> Listed(l, b))
  }

  /** Available and withdrawing together fit a 64-bit word, for everyone on the roster. */
  ghost predicate BalancesFit(l: Ledger, t: u16, blocks: seq<Block>) {
    forall b :: b in blocks ==> Total(l, b.participant, t) < TWO64
  }

  ghost predicate RosterReady(l: Ledger, t: u16, blocks: seq<Block>) {
    RosterListed(l, blocks) && BalancesFit(l, t, blocks)
  }

  lemma RosterSplits(l: Ledger, t: u16, blocks: seq<Block>)
    requires blocks != []
    ensures var n := |blocks| - 1;
            RosterReady(l, t, blocks) <==>
              && RosterReady(l, t, blocks[..n])
              && blocks[n].participant !in Roster(blocks[..n])
              && Listed(l, blocks[n]) && Total(l, blocks[n].participant, t) < TWO64
  {
    var n := |blocks| - 1;
    var ids, front := Roster(blocks), Roster(blocks[..n]);
    assert blocks == blocks[..n] + [blocks[n]];
    assert front == ids[..n];
    if RosterReady(l, t, blocks) {
      assert ids[n] !in front;
    }
  }

  lemma {:induction false} LoadOutcome(l: Ledger, t: u16, blocks: seq<Block>)
    ensures ParticipantsLoaded(l, t, blocks).Ok? <==> RosterReady(l, t, blocks)
    ensures RosterReady(l, t, blocks) ==> forall k :: 0 <= k < |blocks| ==>
              ParticipantsLoaded(l, t, blocks).value[k] == Total(l, blocks[k].participant, t)
    decreases |blocks|
  {
    if blocks != [] {
      LoadOutcome(l, t, blocks[..|blocks| - 1]);
      RosterSplits(l, t, blocks);
    }
  }

  // ----- the round as a whole

  /** The references are sound, every lane advances and the gross sum fits. */
  ghost predicate LoopOk(l: Ledger, t: u16, blocks: seq<Block>) {
    var ids, es := Roster(blocks), EntriesFrom(blocks, 0);
    && RefsOk(ids, {}, es)
    && AllAdvance(l.lanes, TransfersAt(ids, t, es))
    && Gross(l.lanes, TransfersAt(ids, t, es)) < TWO64
  }

  ghost function NetPositions(l: Ledger, t: u16, blocks: seq<Block>): seq<int>
    requires InRange(Roster(blocks), EntriesFrom(blocks, 0))
  {
    var ids := Roster(blocks);
    seq(|ids|, k requires 0 <= k < |ids| => Net(l.lanes, TransfersAt(ids, t, EntriesFrom(blocks, 0)), ids[k]))
  }

  ghost predicate RoundOk(l: Ledger, tokens: set<u16>, t: u16, blocks: seq<Block>, signatureValid: bool) {
    && t in tokens
    && RosterReady(l, t, blocks)
    && EntriesFrom(blocks, 0) != []
    && signatureValid
    && LoopOk(l, t, blocks)
    && DeltasOk(l, Roster(blocks), t, NetPositions(l, t, blocks))
  }

  lemma StartIsBalanced(l: Ledger, size: nat)
    ensures Balanced(RoundStart(l, size))
  {
    ZerosHaveNoPositives(size);
  }

  lemma {:induction false} ZerosHaveNoPositives(size: nat)
    ensures Positives(seq(size, _ => 0)) == 0
  {
    if size > 0 {
      assert seq(size, _ => 0)[..size - 1] == seq(size - 1, _ => 0);
      ZerosHaveNoPositives(size - 1);
    }
  }

  ghost predicate LoopLanded(l: Ledger, st: RoundState, t: u16, blocks: seq<Block>) {
    var ids, es := Roster(blocks), EntriesFrom(blocks, 0);
    && InRange(ids, es)
    && st.ledger == l.(lanes := st.ledger.lanes)
    && LanesAdvanced(l.lanes, st.ledger.lanes, TransfersAt(ids, t, es))
    && st.gross == Gross(l.lanes, TransfersAt(ids, t, es))
    && st.positions == NetPositions(l, t, blocks)
    && Positives(st.positions) < TWO64
  }

  /** The state after the entry loop of a round that starts from `l`. */
  lemma LoopOutcome(l: Ledger, t: u16, blocks: seq<Block>)
    requires DistinctIds(Roster(blocks)) && PayersListed(Roster(blocks), EntriesFrom(blocks, 0))
    ensures var ids, es := Roster(blocks), EntriesFrom(blocks, 0);
            EntriesApplied(RoundStart(l, |ids|), ids, t, es).Ok? <==> LoopOk(l, t, blocks)
    ensures var ids, es := Roster(blocks), EntriesFrom(blocks, 0);
            EntriesApplied(RoundStart(l, |ids|), ids, t, es).Ok? ==>
              LoopLanded(l, EntriesApplied(RoundStart(l, |ids|), ids, t, es).value, t, blocks)
  {
    hide EntriesApplied, AllAdvance, LanesAdvanced, Gross, Net;
    var ids, es := Roster(blocks), EntriesFrom(blocks, 0);
    StartIsBalanced(l, |ids|);
    EntriesOutcome(RoundStart(l, |ids|), ids, t, es);
  }

  /** `r` is the outcome of a round that starts from `l`. */
  ghost predicate RoundLanded(l: Ledger, r: RoundOutcome, t: u16, blocks: seq<Block>) {
    var ids, es := Roster(blocks), EntriesFrom(blocks, 0);
    && InRange(ids, es)
    && r.ledger.slots == l.slots
    && LanesAdvanced(l.lanes, r.ledger.lanes, TransfersAt(ids, t, es))
    && r.totalGross == Gross(l.lanes, TransfersAt(ids, t, es))
    && r.totalNetAdjusted == Positives(NetPositions(l, t, blocks))
    && (forall k :: 0 <= k < |ids| ==>
          && Total(r.ledger, ids[k], t) == Total(l, ids[k], t) + Net(l.lanes, TransfersAt(ids, t, es), ids[k])
          && Shifted(l, r.ledger, ids[k], t, Net(l.lanes, TransfersAt(ids, t, es), ids[k])))
    && (forall p :: p !in ids ==> SameAccounts(l, r.ledger, p))
  }

  /** A round succeeds exactly when its roster is ready, its references are sound, every lane
      advances, the gross sum fits, and each participant can land its own net position. */
  lemma RoundSucceedsExactlyWhen(l: Ledger, tokens: set<u16>, t: u16, blocks: seq<Block>, signatureValid: bool)
    ensures RoundSettled(l, tokens, t, blocks, signatureValid).Ok? <==>
              RoundOk(l, tokens, t, blocks, signatureValid)
    ensures RoundOk(l, tokens, t, blocks, signatureValid) ==>
              RoundLanded(l, RoundSettled(l, tokens, t, blocks, signatureValid).value, t, blocks)
  {
    hide RosterReady, LoopOk, RoundLanded, DeltasOk, RoundBody;
    LoadOutcome(l, t, blocks);
    if RosterReady(l, t, blocks) {
      BodyOutcome(l, t, blocks, ParticipantsLoaded(l, t, blocks).value);
    }
  }

  lemma BodyOutcome(l: Ledger, t: u16, blocks: seq<Block>, totals: seq<u64>)
    requires RosterReady(l, t, blocks) && |totals| == |blocks|
    requires forall k :: 0 <= k < |blocks| ==> totals[k] == Total(l, blocks[k].participant, t)
    ensures RoundBody(l, t, blocks, totals).Ok? <==>
              LoopOk(l, t, blocks) && DeltasOk(l, Roster(blocks), t, NetPositions(l, t, blocks))
    ensures RoundBody(l, t, blocks, totals).Ok? ==>
              RoundLanded(l, RoundBody(l, t, blocks, totals).value, t, blocks)
  {
    hide RosterReady, RoundLanded, DeltasOk;
    var ids, es := Roster(blocks), EntriesFrom(blocks, 0);
    EntriesFromAreListed(blocks, 0);
    RosterIsDistinct(l, t, blocks);
    LoopOutcome(l, t, blocks);
    var loop := EntriesApplied(RoundStart(l, |ids|), ids, t, es);
    if loop.Ok? {
      RoundTail(l, t, blocks, loop.value, totals);
    }
  }

  lemma RosterIsDistinct(l: Ledger, t: u16, blocks: seq<Block>)
    requires RosterReady(l, t, blocks)
    ensures DistinctIds(Roster(blocks))
  {
  }

  /** What remains once the entry loop has succeeded. */
  lemma RoundTail(l: Ledger, t: u16, blocks: seq<Block>, st: RoundState, totals: seq<u64>)
    requires RosterReady(l, t, blocks) && |totals| == |blocks| == |st.positions|
    requires forall k :: 0 <= k < |blocks| ==> totals[k] == Total(l, blocks[k].participant, t)
    requires LoopLanded(l, st, t, blocks)
    ensures var ids := Roster(blocks);
            var checked, applied := PositionsChecked(totals, st.positions),
                                    PositionsApplied(st.ledger, ids, t, st.positions);
            && (checked.Ok? && applied.Ok? <==> DeltasOk(l, ids, t, st.positions))
            && (DeltasOk(l, ids, t, st.positions) ==>
                  RoundLanded(l, RoundOutcome(applied.value, st.gross, checked.value), t, blocks))
  {
    var ids := Roster(blocks);
    LandingOutcome(l, st.ledger, totals, ids, t, st.positions);
    if DeltasOk(l, ids, t, st.positions) {
      var l' := PositionsApplied(st.ledger, ids, t, st.positions).value;
      forall p | p !in ids ensures SameAccounts(l, l', p) {
        assert SameAccounts(l, st.ledger, p) && SameAccounts(st.ledger, l', p);
      }
      forall k | 0 <= k < |ids| ensures Shifted(l, l', ids[k], t, st.positions[k]) {
        assert Shifted(st.ledger, l', ids[k], t, st.positions[k]) && SameAccounts(l, st.ledger, ids[k]);
      }
    }
  }

  /** Check and application of the positions succeed together exactly when each can be applied. */
  lemma LandingOutcome(l: Ledger, l1: Ledger, totals: seq<u64>, ids: seq<u32>, t: u16, positions: seq<int>)
    requires |ids| == |positions| == |totals| && DistinctIds(ids)
    requires l1 == l.(lanes := l1.lanes)
    requires forall k :: 0 <= k < |ids| ==> totals[k] == Total(l, ids[k], t)
    requires Positives(positions) < TWO64
    ensures PositionsChecked(totals, positions).Ok? && PositionsApplied(l1, ids, t, positions).Ok?
            <==> DeltasOk(l, ids, t, positions)
    ensures DeltasOk(l, ids, t, positions) ==>
              && PositionsChecked(totals, positions).value == Positives(positions)
              && Landed(l1, PositionsApplied(l1, ids, t, positions).value, ids, t, positions)
              && (forall k :: 0 <= k < |ids| ==> Total(l1, ids[k], t) == Total(l, ids[k], t))
              && (forall p :: SameAccounts(l, l1, p))
  {
    CheckOutcome(totals, positions);
    PositionsOutcome(l1, ids, t, positions);
    forall k | 0 <= k < |ids|
      ensures DeltaOk(l1, ids[k], t, positions[k]) <==> DeltaOk(l, ids[k], t, positions[k])
      ensures Total(l1, ids[k], t) == Total(l, ids[k], t)
    {
      DeltaOkIsLocal(l, l1, ids[k], t, positions[k]);
    }
  }

  // ----- refinement

  /** What settling one by one shows about one participant is what the round needs to know. */
  lemma SequenceLandsNet(l: Ledger, tokens: set<u16>, ss: seq<Submission>, t: u16, p: u32)
    requires OneToken(ss, t) && DistinctLanes(TransfersOf(ss)) && SettledAll(l, tokens, ss).Ok?
    requires p in l.slots && Total(l, p, t) < TWO64
    ensures DeltaOk(l, p, t, Net(l.lanes, TransfersOf(ss), p))
  {
    SequenceOutcome(l, tokens, ss, t, p);
  }

  lemma {:induction false} NetOutsideRoster(lanes: Lanes, ids: seq<u32>, t: u16, es: seq<Entry>, p: u32)
    requires InRange(ids, es) && p !in ids
    ensures Net(lanes, TransfersAt(ids, t, es), p) == 0
  {
    if es != [] {
      assert es[0] in es;
      assert TransfersAt(ids, t, es)[1..] == TransfersAt(ids, t, es[1..]);
      NetOutsideRoster(lanes, ids, t, es[1..], p);
    }
  }

  lemma SequenceMakesRoundOk(l: Ledger, tokens: set<u16>, t: u16, blocks: seq<Block>, ss: seq<Submission>)
    requires t in tokens && RosterReady(l, t, blocks)
    requires EntriesFrom(blocks, 0) != [] && RefsOk(Roster(blocks), {}, EntriesFrom(blocks, 0))
    requires OneToken(ss, t) && DistinctLanes(TransfersOf(ss))
    requires var xs := TransfersAt(Roster(blocks), t, EntriesFrom(blocks, 0));
             && (forall x :: x in xs <==> x in TransfersOf(ss))
             && (forall p :: Net(l.lanes, xs, p) == Net(l.lanes, TransfersOf(ss), p))
             && Gross(l.lanes, xs) == Gross(l.lanes, TransfersOf(ss))
    requires SettledAll(l, tokens, ss).Ok? && Gross(l.lanes, TransfersOf(ss)) < TWO64
    ensures RoundOk(l, tokens, t, blocks, true)
  {
    hide LanesAdvanced, Gross, Net, DistinctIds, DeltaOk, SettledAll;
    var ids := Roster(blocks);
    var xs := TransfersAt(ids, t, EntriesFrom(blocks, 0));
    assert AllAdvance(l.lanes, xs) by {
      SequenceAdvances(l, tokens, ss, t);
    }
    forall k | 0 <= k < |ids| ensures DeltaOk(l, ids[k], t, NetPositions(l, t, blocks)[k]) {
      assert blocks[k] in blocks && ids[k] == blocks[k].participant;
      SequenceLandsNet(l, tokens, ss, t, ids[k]);
    }
  }

  lemma SequenceAdvances(l: Ledger, tokens: set<u16>, ss: seq<Submission>, t: u16)
    requires OneToken(ss, t) && DistinctLanes(TransfersOf(ss)) && SettledAll(l, tokens, ss).Ok?
    ensures AllAdvance(l.lanes, TransfersOf(ss))
  {
    SequenceOutcome(l, tokens, ss, t, 0);
  }

  /** If the lanes of a round can be settled one by one, in some order and by any submitters, and
      the gross sum fits, then the round leaves the same lanes and the same total balance of every
      participant. It succeeds exactly when the total balances of its roster fit 64 bits: the
      round reads every participant's total, a single settlement only the payer's. */
  lemma RoundRefinesSequence(l: Ledger, tokens: set<u16>, t: u16, blocks: seq<Block>, ss: seq<Submission>)
    requires t in tokens && RosterListed(l, blocks)
    requires EntriesFrom(blocks, 0) != [] && RefsOk(Roster(blocks), {}, EntriesFrom(blocks, 0))
    requires OneToken(ss, t)
    requires multiset(TransfersOf(ss)) == multiset(TransfersAt(Roster(blocks), t, EntriesFrom(blocks, 0)))
    requires SettledAll(l, tokens, ss).Ok? && Gross(l.lanes, TransfersOf(ss)) < TWO64
    ensures RoundSettled(l, tokens, t, blocks, true).Ok? <==> BalancesFit(l, t, blocks)
    ensures RoundSettled(l, tokens, t, blocks, true).Ok? ==>
              var one, all := SettledAll(l, tokens, ss).value, RoundSettled(l, tokens, t, blocks, true).value.ledger;
              all.lanes == one.lanes && forall p :: Total(all, p, t) == Total(one, p, t)
  {
    hide AllAdvance, LanesAdvanced, Gross, Net, DeltaOk, SettledAll, RoundSettled;
    RoundSucceedsExactlyWhen(l, tokens, t, blocks, true);
    if BalancesFit(l, t, blocks) {
      RoundAgrees(l, tokens, t, blocks, ss);
    }
  }

  lemma RoundAgrees(l: Ledger, tokens: set<u16>, t: u16, blocks: seq<Block>, ss: seq<Submission>)
    requires t in tokens && RosterReady(l, t, blocks)
    requires EntriesFrom(blocks, 0) != [] && RefsOk(Roster(blocks), {}, EntriesFrom(blocks, 0))
    requires OneToken(ss, t)
    requires multiset(TransfersOf(ss)) == multiset(TransfersAt(Roster(blocks), t, EntriesFrom(blocks, 0)))
    requires SettledAll(l, tokens, ss).Ok? && Gross(l.lanes, TransfersOf(ss)) < TWO64
    ensures RoundSettled(l, tokens, t, blocks, true).Ok?
    ensures var one, all := SettledAll(l, tokens, ss).value, RoundSettled(l, tokens, t, blocks, true).value.ledger;
            all.lanes == one.lanes && forall p :: Total(all, p, t) == Total(one, p, t)
  {
    hide AllAdvance, LanesAdvanced, Gross, Net, DistinctIds, DeltaOk, SettledAll, RoundSettled;
    var ids, es := Roster(blocks), EntriesFrom(blocks, 0);
    var xs, ys := TransfersAt(ids, t, es), TransfersOf(ss);
    RefsNameDistinctLanes(ids, t, {}, es) by { RosterIsDistinct(l, t, blocks); }
    DistinctUnderReordering(xs, ys);
    SameMembers(xs, ys);
    OrderDoesNotMatter(l.lanes, xs, ys, 0);
    forall p: u32 ensures Net(l.lanes, xs, p) == Net(l.lanes, ys, p) {
      OrderDoesNotMatter(l.lanes, xs, ys, p);
    }
    assert RoundOk(l, tokens, t, blocks, true) by {
      SequenceMakesRoundOk(l, tokens, t, blocks, ss);
    }
    RoundSucceedsExactlyWhen(l, tokens, t, blocks, true);
    var one, all := SettledAll(l, tokens, ss).value, RoundSettled(l, tokens, t, blocks, true).value.ledger;
    assert all.lanes == one.lanes by {
      SequenceOutcome(l, tokens, ss, t, 0);
      LanesAdvancedIsFunctional(l.lanes, one.lanes, all.lanes, ys, xs);
    }
    forall p: u32 ensures Total(all, p, t) == Total(one, p, t) {
      SequenceOutcome(l, tokens, ss, t, p);
      if p !in ids {
        NetOutsideRoster(l.lanes, ids, t, es, p);
        DeltaOkIsLocal(l, all, p, t, 0);
      } else {
        var k :| 0 <= k < |ids| && ids[k] == p;
      }
    }
  }

  /** One participant whose total does not fit a word stops the round. */
  lemma OverfullStopsRound(l: Ledger, tokens: set<u16>, t: u16, blocks: seq<Block>, k: nat)
    requires k < |blocks| && Total(l, blocks[k].participant, t) >= TWO64
    ensures RoundSettled(l, tokens, t, blocks, true).Err?
  {
    hide LoopOk, DeltasOk, RoundLanded, RoundSettled, RosterListed;
    RoundSucceedsExactlyWhen(l, tokens, t, blocks, true);
    assert blocks[k] in blocks;
  }

  // ----- the round is strictly more permissive

  /** A round in which everyone nets to zero needs no balance at all. */
  lemma NettedRoundSucceeds(l: Ledger, tokens: set<u16>, t: u16, blocks: seq<Block>)
    requires t in tokens && RosterReady(l, t, blocks) && EntriesFrom(blocks, 0) != [] && LoopOk(l, t, blocks)
    requires forall p :: Net(l.lanes, TransfersAt(Roster(blocks), t, EntriesFrom(blocks, 0)), p) == 0
    ensures RoundSettled(l, tokens, t, blocks, true).Ok?
    ensures var r := RoundSettled(l, tokens, t, blocks, true).value;
            r.totalGross > 0 && forall p :: Total(r.ledger, p, t) == Total(l, p, t)
  {
    RoundSucceedsExactlyWhen(l, tokens, t, blocks, true);
    var ids, es := Roster(blocks), EntriesFrom(blocks, 0);
    var l' := RoundSettled(l, tokens, t, blocks, true).value.ledger;
    assert Amount(l.lanes, TransfersAt(ids, t, es)[0]) > 0;
    forall p ensures Total(l', p, t) == Total(l, p, t) {
      if p !in ids {
        DeltaOkIsLocal(l, l', p, t, 0);
      } else {
        var k :| 0 <= k < |ids| && ids[k] == p;
      }
    }
  }

  /** With neither balances nor collateral no order of single settlements gets past its first step. */
  lemma EmptyPayersCannotSettle(l: Ledger, tokens: set<u16>, t: u16, ss: seq<Submission>)
    requires ss != [] && OneToken(ss, t)
    requires forall x :: x in TransfersOf(ss) && x.lane in l.lanes ==>
               l.lanes[x.lane].lockedBalance == 0 && Total(l, x.lane.payer, t) == 0
    ensures SettledAll(l, tokens, ss).Err?
  {
    assert ss[0] in ss && TransfersOf(ss)[0] == TransferOf(ss[0]);
    assert TransfersOf(ss)[0] in TransfersOf(ss);
    ExaminedMeansAcceptable(l, tokens, ss[0]);
  }
}
