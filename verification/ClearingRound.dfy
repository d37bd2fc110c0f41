/** A clearing round: many lanes advance at once and only net positions touch the balances. */
module ClearingRound {
  import opened Machine
  import opened Ledgers
  import opened SettleIndividual
  import opened BalanceDeltas

  const BLS_SCHEME_VERSION_UNREGISTERED: u8 := 0
  const BLS_SCHEME_VERSION_V1: u8 := 1

  /** One lane of a round: the payee is named by its position in the roster. */
  datatype ChannelEntry = ChannelEntry(payeeRef: u8, targetCumulative: u64)

  datatype Block = Block(participant: u32, entries: seq<ChannelEntry>)

  /** An entry together with the roster position of its payer. */
  datatype Entry = Entry(payer: nat, payee: nat, target: u64)

  function Roster(blocks: seq<Block>): seq<u32> {
    seq(|blocks|, i requires 0 <= i < |blocks| => blocks[i].participant)
  }

  function OwnEntries(payer: nat, entries: seq<ChannelEntry>): seq<Entry> {
    seq(|entries|, i requires 0 <= i < |entries| =>
      Entry(payer, entries[i].payeeRef, entries[i].targetCumulative))
  }

  /** The entries of the blocks from `first` on, in message order. */
  function EntriesFrom(blocks: seq<Block>, first: nat): seq<Entry>
    requires first <= |blocks|
    decreases |blocks| - first
  {
    if first == |blocks| then []
    else OwnEntries(first, blocks[first].entries) + EntriesFrom(blocks, first + 1)
  }

  // ----- first pass: the participants

  function ParticipantLoaded(l: Ledger, t: u16, block: Block): Result<u64> {
    var total :- ReadTotalOrZero(l, block.participant, t);
    var slot := l.slots[block.participant];
    :- Require(slot.owner != DEFAULT_KEY, ParticipantNotFound);
    :- Require(block.entries == [] || slot.blsSchemeVersion != BLS_SCHEME_VERSION_UNREGISTERED,
               ParticipantBlsKeyNotFound);
    :- Require(block.entries == [] || slot.blsSchemeVersion == BLS_SCHEME_VERSION_V1,
               AccountBlsKeyMismatch);
    Ok(total)
  }

  /** The total balances of the roster, in order; a repeated participant is refused. */
  function ParticipantsLoaded(l: Ledger, t: u16, blocks: seq<Block>): (r: Result<seq<u64>>)
    ensures r.Ok? ==> |r.value| == |blocks|
  {
    if blocks == [] then Ok([])
    else
      var n := |blocks| - 1;
      var totals :- ParticipantsLoaded(l, t, blocks[..n]);
      :- Require(blocks[n].participant !in Roster(blocks[..n]), InvalidClearingRoundMessage);
      var total :- ParticipantLoaded(l, t, blocks[n]);
      Ok(totals + [total])
  }

  // ----- second pass: the lanes

  /** What the entry loop carries: the lanes written so far, the net positions in roster order, the
      gross sum, and the payee references each payer has used. */
  datatype RoundState = RoundState(ledger: Ledger, positions: seq<int>, gross: u64, seen: set<(nat, nat)>)

  function EntryApplied(st: RoundState, ids: seq<u32>, t: u16, e: Entry): (r: Result<RoundState>)
    requires |st.positions| == |ids| && e.payer < |ids|
    ensures r.Ok? ==> |r.value.positions| == |ids|
  {
    if e.payee >= |ids| then Err(InvalidClearingRoundMessage)
    else
      :- Require((e.payer, e.payee) !in st.seen, InvalidClearingRoundMessage);
      var id := LaneId(ids[e.payer], ids[e.payee], t);
      var lane :- ReadLane(st.ledger, id);
      :- Require(e.target > lane.settledCumulative, CommitmentAmountMustIncrease);
      var a := AdvanceOf(lane, e.target);
      var gross :- Checked64(st.gross + a.amount);
      var debited :- CheckedSigned128(st.positions[e.payer] - (a.amount - a.consumed));
      var positions := st.positions[e.payer := debited];
      var credited :- CheckedSigned128(positions[e.payee] + a.amount);
      Ok(RoundState(st.ledger.(lanes := st.ledger.lanes[id := LaneAdvanced(lane, e.target)]),
                    positions[e.payee := credited], gross, st.seen + {(e.payer, e.payee)}))
  }

  ghost predicate PayersListed(ids: seq<u32>, es: seq<Entry>) {
    forall e :: e in es ==> e.payer < |ids|
  }

  function EntriesApplied(st: RoundState, ids: seq<u32>, t: u16, es: seq<Entry>): (r: Result<RoundState>)
    requires |st.positions| == |ids| && PayersListed(ids, es)
    ensures r.Ok? ==> |r.value.positions| == |ids|
    decreases |es|
  {
    if es == [] then Ok(st)
    else
      var st' :- EntryApplied(st, ids, t, es[0]);
      EntriesApplied(st', ids, t, es[1..])
  }

  // ----- third pass: the balances

  /** `total_net_adjusted`, provided every net payer can pay and every sum fits. */
  function PositionsChecked(totals: seq<u64>, positions: seq<int>): Result<u64>
    requires |totals| == |positions|
  {
    if positions == [] then Ok(0)
    else
      var n := |positions| - 1;
      var net :- PositionsChecked(totals[..n], positions[..n]);
      if positions[n] < 0 then
        var amount :- Checked64(-positions[n]);
        :- Require(totals[n] >= amount, InsufficientBalance);
        Ok(net)
      else
        var amount :- Checked64(positions[n]);
        Checked64(net + amount)
  }

  // ----- the handler

  datatype RoundOutcome = RoundOutcome(ledger: Ledger, totalGross: u64, totalNetAdjusted: u64)

  function RoundStart(l: Ledger, size: nat): (st: RoundState)
    ensures |st.positions| == size
  {
    RoundState(l, seq(size, _ => 0), 0, {})
  }

  lemma EntriesFromAreListed(blocks: seq<Block>, first: nat)
    requires first <= |blocks|
    ensures PayersListed(Roster(blocks), EntriesFrom(blocks, first))
    decreases |blocks| - first
  {
  }

  /** Everything after the roster is loaded and the signature is checked. */
  function RoundBody(l: Ledger, t: u16, blocks: seq<Block>, totals: seq<u64>): Result<RoundOutcome>
    requires |totals| == |blocks|
  {
    var ids := Roster(blocks);
    EntriesFromAreListed(blocks, 0);
    var st :- EntriesApplied(RoundStart(l, |ids|), ids, t, EntriesFrom(blocks, 0));
    var net :- PositionsChecked(totals, st.positions);
    var l' :- PositionsApplied(st.ledger, ids, t, st.positions);
    Ok(RoundOutcome(l', st.gross, net))
  }

  function RoundSettled(l: Ledger, tokens: set<u16>, t: u16, blocks: seq<Block>, signatureValid: bool)
    : Result<RoundOutcome>
  {
    if t !in tokens then Err(TokenNotFound)
    else
      var totals :- ParticipantsLoaded(l, t, blocks);
      :- Require(EntriesFrom(blocks, 0) != [], ParticipantBlsKeyNotFound);
      :- Require(signatureValid, InvalidBlsSignature);
      RoundBody(l, t, blocks, totals)
  }
}
