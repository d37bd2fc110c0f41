/** The clearing-round handler as it runs: two passes over the blocks, then two over the positions. */
module RoundHandler {
  import opened Machine
  import opened Ledgers
  import opened BalanceDeltas
  import opened ClearingRound
  import opened Buckets
  import opened SortedVectors
  import opened SettlementHandlers
  import opened SettleCommitmentBundle
  import opened LaneLookup
  import opened AccountBindings
  import opened Varint
  import opened CommitmentMessages
  import opened ClearingRoundMessages

  // ----- the participants

  lemma {:induction false} LoadedPrefixDecides(l: Ledger, t: u16, blocks: seq<Block>, n: nat)
    requires n <= |blocks| && ParticipantsLoaded(l, t, blocks[..n]).Err?
    ensures ParticipantsLoaded(l, t, blocks) == ParticipantsLoaded(l, t, blocks[..n])
    decreases |blocks|
  {
    if n == |blocks| {
      assert blocks[..n] == blocks;
    } else {
      assert blocks[..|blocks| - 1][..n] == blocks[..n];
      LoadedPrefixDecides(l, t, blocks[..|blocks| - 1], n);
    }
  }

  /** One block of the first pass. */
  method LoadParticipant(b: BucketAccounts, t: u16, block: Block) returns (r: Result<u64>)
    ensures r == ParticipantLoaded(b.State(), t, block)
  {
    var p := block.participant;
    :- Require(p in b.slots, ParticipantNotFound);
    var total := 0;
    if Account(p, t) in b.balances {
      var balance := b.balances[Account(p, t)];
      total :- Checked64(balance.available + balance.withdrawing);
    }
    :- Require(b.slots[p].owner != DEFAULT_KEY, ParticipantNotFound);
    if |block.entries| > 0 {
      :- Require(b.slots[p].blsSchemeVersion != BLS_SCHEME_VERSION_UNREGISTERED, ParticipantBlsKeyNotFound);
      :- Require(b.slots[p].blsSchemeVersion == BLS_SCHEME_VERSION_V1, AccountBlsKeyMismatch);
    }
    return Ok(total);
  }

  lemma {:induction false} NoEntriesFrom(blocks: seq<Block>, first: nat)
    requires first <= |blocks|
    ensures EntriesFrom(blocks, first) != [] <==> exists i :: first <= i < |blocks| && blocks[i].entries != []
    decreases |blocks| - first
  {
    if first < |blocks| {
      NoEntriesFrom(blocks, first + 1);
      assert |OwnEntries(first, blocks[first].entries)| == |blocks[first].entries|;
    }
  }

  /** What the next block adds to the first pass. */
  lemma LoadedNext(l: Ledger, t: u16, blocks: seq<Block>, i: nat, totals: seq<u64>)
    requires i < |blocks| && ParticipantsLoaded(l, t, blocks[..i]) == Ok(totals)
    ensures var next := ParticipantsLoaded(l, t, blocks[..i + 1]);
            && (blocks[i].participant in Roster(blocks[..i]) ==> next == Err(InvalidClearingRoundMessage))
            && (blocks[i].participant !in Roster(blocks[..i]) ==>
                  match ParticipantLoaded(l, t, blocks[i])
                  case Ok(total) => next == Ok(totals + [total])
                  case Err(e) => next == Err(e))
            && (next.Err? ==> ParticipantsLoaded(l, t, blocks) == next)
  {
    hide ParticipantLoaded;
    assert blocks[..i + 1][..i] == blocks[..i] && blocks[..i + 1][i] == blocks[i];
    assert Roster(blocks[..i + 1]) == Roster(blocks[..i]) + [blocks[i].participant];
    if ParticipantsLoaded(l, t, blocks[..i + 1]).Err? {
      LoadedPrefixDecides(l, t, blocks, i + 1);
    }
  }

  // ----- the account list

  /** The bucket of the channel that an entry names. */
  function EntryBucket(ids: seq<u32>, e: Entry): nat {
    if e.payer < |ids| && e.payee < |ids| then PairBucket(ids[e.payer], ids[e.payee]) else 0
  }

  function EntryBuckets(ids: seq<u32>, es: seq<Entry>): seq<nat> {
    seq(|es|, i requires 0 <= i < |es| => EntryBucket(ids, es[i]))
  }

  function RosterBuckets(blocks: seq<Block>): seq<nat> {
    FirstAppearances(ParticipantBuckets(Roster(blocks)))
  }

  function LaneBuckets(blocks: seq<Block>): seq<nat> {
    FirstAppearances(EntryBuckets(Roster(blocks), EntriesFrom(blocks, 0)))
  }

  /** The remaining accounts of a round. */
  function RoundAccounts(t: u16, blocks: seq<Block>): seq<AccountInfo> {
    AccountList(RosterBuckets(blocks), LaneBuckets(blocks), t)
  }

  ghost predicate RosterSupplied(blocks: seq<Block>, accounts: seq<AccountInfo>) {
    Supplied(OfParticipants, ParticipantBuckets(Roster(blocks)), 0, accounts)
  }

  lemma RosterNext(blocks: seq<Block>, accounts: seq<AccountInfo>, i: nat)
    requires i < |blocks| && RosterSupplied(blocks[..i], accounts)
    ensures var bound := RosterBuckets(blocks[..i]);
            && RosterBuckets(blocks[..i + 1]) == Appended(bound, BucketOf(blocks[i].participant))
            && (RosterSupplied(blocks[..i + 1], accounts) <==>
                  Resolvable(OfParticipants, bound, 0, BucketOf(blocks[i].participant), accounts))
    ensures RosterSupplied(blocks, accounts) ==> RosterSupplied(blocks[..i + 1], accounts)
  {
    var all := ParticipantBuckets(Roster(blocks));
    assert ParticipantBuckets(Roster(blocks[..i])) == all[..i];
    assert ParticipantBuckets(Roster(blocks[..i + 1])) == all[..i + 1];
    SuppliedNext(OfParticipants, all, 0, accounts, i);
  }

  lemma EmptyRoster(accounts: seq<AccountInfo>)
    ensures RosterSupplied([], accounts) && RosterBuckets([]) == []
  {
    assert ParticipantBuckets(Roster([])) == [];
    NothingBound(OfParticipants, 0, accounts);
  }

  /** `seen_participant_ids` holds the participants of the blocks so far. */
  ghost predicate HoldsRoster(seen: seq<nat>, blocks: seq<Block>) {
    StrictlySorted(seen) && forall p: u32 :: p in seen <==> p in Roster(blocks)
  }

  lemma NobodySeen()
    ensures HoldsRoster([], [])
  {
  }

  method NoteParticipant(seen: seq<nat>, blocks: seq<Block>, i: nat) returns (r: Result<seq<nat>>)
    requires i < |blocks| && HoldsRoster(seen, blocks[..i])
    ensures blocks[i].participant in Roster(blocks[..i]) ==> r == Err(InvalidClearingRoundMessage)
    ensures blocks[i].participant !in Roster(blocks[..i]) ==> r.Ok? && HoldsRoster(r.value, blocks[..i + 1])
  {
    assert Roster(blocks[..i + 1]) == Roster(blocks[..i]) + [blocks[i].participant];
    r := InsertUnique(seen, blocks[i].participant, InvalidClearingRoundMessage);
  }

  /** The first pass: every participant has its bucket among the accounts; total balances in roster
      order, and whether anybody has to sign. */
  method LoadParticipants(b: BucketAccounts, t: u16, blocks: seq<Block>, accounts: seq<AccountInfo>)
    returns (r: Result<(seq<u64>, bool, nat)>)
    ensures r.Ok? ==> RosterSupplied(blocks, accounts) && ParticipantsLoaded(b.State(), t, blocks) == Ok(r.value.0)
    ensures r.Ok? ==> (r.value.1 <==> EntriesFrom(blocks, 0) != []) && r.value.2 == |RosterBuckets(blocks)|
    ensures r.Err? ==> ParticipantsLoaded(b.State(), t, blocks) == Err(r.error) || !RosterSupplied(blocks, accounts)
  {
    hide ParticipantLoaded, RosterSupplied, RosterBuckets, Resolvable, Bound, HoldsRoster;
    var totals: seq<u64>, seen: seq<nat>, signers := [], [], false;
    var table := new BindingTable(OfParticipants, 0);
    var i := 0;
    assert blocks[..0] == [];
    EmptyRoster(accounts);
    NobodySeen();
    while i < |blocks|
      invariant 0 <= i <= |blocks| && fresh(table) && table.Valid() && table.kind == OfParticipants && table.base == 0
      invariant HoldsRoster(seen, blocks[..i])
      invariant ParticipantsLoaded(b.State(), t, blocks[..i]) == Ok(totals)
      invariant RosterSupplied(blocks[..i], accounts) && table.order == RosterBuckets(blocks[..i])
      invariant signers <==> exists k :: 0 <= k < i && blocks[k].entries != []
    {
      hide ParticipantsLoaded, Roster, Appended;
      var block := blocks[i];
      LoadedNext(b.State(), t, blocks, i, totals);
      RosterNext(blocks, accounts, i);
      seen :- NoteParticipant(seen, blocks, i);
      var position :- table.Resolve(BucketOf(block.participant), accounts, InvalidClearingRoundMessage);
      var total :- LoadParticipant(b, t, block);
      totals := totals + [total];
      if |block.entries| > 0 {
        signers := true;
      }
      i := i + 1;
    }
    assert blocks[..i] == blocks;
    NoEntriesFrom(blocks, 0);
    var next := table.Next();
    return Ok((totals, signers, next));
  }

  // ----- the lanes

  /** The four words hold the payee references that `payer` has used. */
  ghost predicate WordsMatch(words: seq<nat>, payer: nat, seen: set<(nat, nat)>) {
    && |words| == 4
    && (forall i :: 0 <= i < 4 ==> words[i] < Pow2(64))
    && (forall ref: nat :: ref < 256 ==> (Bit(words[ref / 64], ref % 64) <==> (payer, ref) in seen))
  }

  method NewWords(payer: nat, ghost seen: set<(nat, nat)>) returns (words: seq<nat>)
    requires forall ref: nat :: (payer, ref) !in seen
    ensures WordsMatch(words, payer, seen)
  {
    words := [0, 0, 0, 0];
    forall ref: nat | ref < 256 ensures !Bit(words[ref / 64], ref % 64) {
      ZeroHasNoBits(ref % 64);
    }
  }

  /** Tests and sets the bit of one reference. */
  method NoteReference(words: seq<nat>, payer: nat, ref: u8, ghost seen: set<(nat, nat)>) returns (r: Result<seq<nat>>)
    requires WordsMatch(words, payer, seen)
    ensures (payer, ref) in seen ==> r == Err(InvalidClearingRoundMessage)
    ensures (payer, ref) !in seen ==> r.Ok? && WordsMatch(r.value, payer, seen + {(payer, ref)})
  {
    var word, bit := ref / 64, ref % 64;
    :- Require(!Bit(words[word], bit), InvalidClearingRoundMessage);
    SettingABit(words[word], bit, 64);
    var words' := words[word := words[word] + Pow2(bit)];
    forall other: nat | other < 256
      ensures Bit(words'[other / 64], other % 64) <==> (payer, other) in seen + {(payer, ref)}
    {
      if other / 64 == word {
        assert other == ref <==> other % 64 == bit;
      }
    }
    return Ok(words');
  }

  /** One entry: its channel bucket is resolved, the lane is read, the amount is booked at the two
      positions, and the lane is written. */
  method SettleEntry(b: BucketAccounts, ids: seq<u32>, t: u16, payer: nat, entry: ChannelEntry, positions: seq<int>,
                     gross: u64, words: seq<nat>, ghost seen: set<(nat, nat)>, table: BindingTable,
                     accounts: seq<AccountInfo>)
    returns (r: Result<(seq<int>, u64, seq<nat>)>)
    requires |positions| == |ids| && payer < |ids| && WordsMatch(words, payer, seen) && table.Valid()
    modifies b`lanes, table
    ensures table.Valid()
    ensures var st := RoundState(old(b.State()), positions, gross, seen);
            var e := Entry(payer, entry.payeeRef, entry.targetCumulative);
            && (r.Ok? ==>
                  && EntryApplied(st, ids, t, e)
                     == Ok(RoundState(b.State(), r.value.0, r.value.1, seen + {(payer, entry.payeeRef as nat)}))
                  && WordsMatch(r.value.2, payer, seen + {(payer, entry.payeeRef as nat)})
                  && Resolvable(table.kind, old(table.order), table.base, EntryBucket(ids, e), accounts)
                  && table.order == Appended(old(table.order), EntryBucket(ids, e)))
            && (r.Err? ==>
                  || EntryApplied(st, ids, t, e) == Err(r.error)
                  || !Resolvable(table.kind, old(table.order), table.base, EntryBucket(ids, e), accounts))
  {
    hide WordsMatch, PairOrdinal, Bound, Resolvable;
    :- Require(entry.payeeRef < |ids|, InvalidClearingRoundMessage);
    var newWords :- NoteReference(words, payer, entry.payeeRef, seen);
    var id := LaneId(ids[payer], ids[entry.payeeRef], t);
    var pair :- Canonicalize(id.payer, id.payee);
    var position :- table.Resolve(PairOrdinal(pair.lower, pair.higher) / CHANNEL_BUCKET_SLOT_COUNT, accounts,
                                  InvalidClearingRoundMessage);
    :- Require(id in b.lanes, ChannelNotInitialized);
    var lane := b.lanes[id];
    :- Require(entry.targetCumulative > lane.settledCumulative, CommitmentAmountMustIncrease);
    var amount := entry.targetCumulative - lane.settledCumulative;
    var newGross :- Checked64(gross + amount);
    var consumed := Min(lane.lockedBalance, amount);
    var debited :- CheckedSigned128(positions[payer] - (amount - consumed));
    var newPositions := positions[payer := debited];
    var credited :- CheckedSigned128(newPositions[entry.payeeRef] + amount);
    newPositions := newPositions[entry.payeeRef := credited];
    b.ApplyLaneSettlement(id, entry.targetCumulative, consumed);
    return Ok((newPositions, newGross, newWords));
  }

  ghost predicate RowsBelow(seen: set<(nat, nat)>, row: nat) {
    forall x :: x in seen ==> x.0 < row
  }

  ghost predicate RowReady(seen: set<(nat, nat)>, row: nat, words: seq<nat>) {
    WordsMatch(words, row, seen) && RowsBelow(seen, row + 1)
  }

  lemma RowStays(seen: set<(nat, nat)>, row: nat, ref: nat, words: seq<nat>, words': seq<nat>)
    requires RowReady(seen, row, words) && WordsMatch(words', row, seen + {(row, ref)})
    ensures RowReady(seen + {(row, ref)}, row, words')
  {
  }

  /** The table holds the buckets of the first `n` entries. */
  ghost predicate LanesBound(order: seq<nat>, base: nat, t: u16, ids: seq<u32>, all: seq<Entry>, n: nat,
                             accounts: seq<AccountInfo>)
    requires n <= |all|
  {
    && order == FirstAppearances(EntryBuckets(ids, all[..n]))
    && Supplied(OfChannels(t), EntryBuckets(ids, all[..n]), base, accounts)
  }

  lemma LanesBoundNext(base: nat, t: u16, ids: seq<u32>, all: seq<Entry>, n: nat, accounts: seq<AccountInfo>,
                       order: seq<nat>)
    requires n < |all| && LanesBound(order, base, t, ids, all, n, accounts)
    ensures Resolvable(OfChannels(t), order, base, EntryBucket(ids, all[n]), accounts) ==>
              LanesBound(Appended(order, EntryBucket(ids, all[n])), base, t, ids, all, n + 1, accounts)
    ensures !Resolvable(OfChannels(t), order, base, EntryBucket(ids, all[n]), accounts) ==>
              !Supplied(OfChannels(t), EntryBuckets(ids, all), base, accounts)
  {
    hide Resolvable;
    var buckets := EntryBuckets(ids, all);
    assert EntryBuckets(ids, all[..n]) == buckets[..n] && EntryBuckets(ids, all[..n + 1]) == buckets[..n + 1];
    SuppliedNext(OfChannels(t), buckets, base, accounts, n);
  }

  /** Entry `k` of the block is entry `n + k` of the round. */
  ghost predicate BlockAt(payer: nat, entries: seq<ChannelEntry>, all: seq<Entry>, n: nat) {
    && n + |entries| <= |all|
    && forall k :: 0 <= k < |entries| ==> all[n + k] == Entry(payer, entries[k].payeeRef, entries[k].targetCumulative)
  }

  lemma EntriesStep(st: RoundState, ids: seq<u32>, t: u16, all: seq<Entry>, n: nat)
    requires n < |all| && |st.positions| == |ids| && PayersListed(ids, all)
    ensures all[n].payer < |ids| && PayersListed(ids, all[n..]) && PayersListed(ids, all[n + 1..])
    ensures EntriesApplied(st, ids, t, all[n..]) ==
            match EntryApplied(st, ids, t, all[n])
            case Ok(st') => EntriesApplied(st', ids, t, all[n + 1..])
            case Err(e) => Err(e)
  {
    hide EntryApplied;
    assert all[n] in all && all[n..][0] == all[n] && all[n..][1..] == all[n + 1..];
  }

  /** The entries of one block, which stand in the round from entry `n` on. */
  method SettleBlock(b: BucketAccounts, ids: seq<u32>, t: u16, payer: nat, entries: seq<ChannelEntry>,
                     positions0: seq<int>, gross0: u64, table: BindingTable, accounts: seq<AccountInfo>,
                     ghost seen0: set<(nat, nat)>, ghost all: seq<Entry>, ghost n: nat)
    returns (r: Result<(seq<int>, u64)>, ghost seen: set<(nat, nat)>)
    requires |positions0| == |ids| && payer < |ids| && RowsBelow(seen0, payer)
    requires PayersListed(ids, all) && BlockAt(payer, entries, all, n)
    requires table.Valid() && table.kind == OfChannels(t) && LanesBound(table.order, table.base, t, ids, all, n, accounts)
    modifies b`lanes, table
    ensures table.Valid() && PayersListed(ids, all[n..]) && PayersListed(ids, all[n + |entries|..])
    ensures var spec := EntriesApplied(RoundState(old(b.State()), positions0, gross0, seen0), ids, t, all[n..]);
            && (r.Ok? ==>
                  && |r.value.0| == |ids|
                  && spec == EntriesApplied(RoundState(b.State(), r.value.0, r.value.1, seen), ids, t,
                                            all[n + |entries|..])
                  && RowsBelow(seen, payer + 1)
                  && LanesBound(table.order, table.base, t, ids, all, n + |entries|, accounts))
            && (r.Err? ==> spec == Err(r.error) || !Supplied(OfChannels(t), EntryBuckets(ids, all), table.base, accounts))
  {
    hide EntryApplied, EntriesApplied, WordsMatch, Bit, Pow2, LanesBound, Supplied, Resolvable, Bound, EntryBuckets,
         EntryBucket, Appended;
    var positions, gross := positions0, gross0;
    seen := seen0;
    var words := NewWords(payer, seen);
    ghost var spec := EntriesApplied(RoundState(b.State(), positions, gross, seen), ids, t, all[n..]);
    var k := 0;
    while k < |entries|
      invariant 0 <= k <= |entries| && |positions| == |ids|
      invariant RowReady(seen, payer, words)
      invariant table.Valid() && LanesBound(table.order, table.base, t, ids, all, n + k, accounts)
      invariant spec == EntriesApplied(RoundState(b.State(), positions, gross, seen), ids, t, all[n + k..])
    {
      EntriesStep(RoundState(b.State(), positions, gross, seen), ids, t, all, n + k);
      LanesBoundNext(table.base, t, ids, all, n + k, accounts, table.order);
      var settled :- SettleEntry(b, ids, t, payer, entries[k], positions, gross, words, seen, table, accounts);
      RowStays(seen, payer, entries[k].payeeRef, words, settled.2);
      positions, gross, words := settled.0, settled.1, settled.2;
      seen := seen + {(payer, entries[k].payeeRef as nat)};
      k := k + 1;
    }
    return Ok((positions, gross)), seen;
  }

  lemma {:induction false} EntriesOfBlock(blocks: seq<Block>, first: nat, i: nat, n: nat)
    requires first <= |blocks| && i < |blocks|
    requires n <= |EntriesFrom(blocks, first)| && EntriesFrom(blocks, i) == EntriesFrom(blocks, first)[n..]
    ensures BlockAt(i, blocks[i].entries, EntriesFrom(blocks, first), n)
    ensures EntriesFrom(blocks, i + 1) == EntriesFrom(blocks, first)[n + |blocks[i].entries|..]
  {
    var all, own := EntriesFrom(blocks, first), OwnEntries(i, blocks[i].entries);
    assert all[n..] == own + EntriesFrom(blocks, i + 1);
    assert |own| == |blocks[i].entries|;
    assert all[n + |own|..] == all[n..][|own|..];
    forall k | 0 <= k < |own| ensures all[n + k] == own[k] {
      assert all[n + k] == all[n..][k];
    }
  }

  /** The second pass over all blocks. */
  method SettleBlocks(b: BucketAccounts, t: u16, blocks: seq<Block>, base: nat, accounts: seq<AccountInfo>)
    returns (r: Result<(seq<int>, u64, nat)>)
    requires PayersListed(Roster(blocks), EntriesFrom(blocks, 0)) && base <= |accounts|
    modifies b`lanes
    ensures var spec := EntriesApplied(RoundStart(old(b.State()), |blocks|), Roster(blocks), t, EntriesFrom(blocks, 0));
            var supplied := Supplied(OfChannels(t), EntryBuckets(Roster(blocks), EntriesFrom(blocks, 0)), base, accounts);
            && (r.Ok? ==> spec.Ok? && spec.value.ledger == b.State() && spec.value.positions == r.value.0
                          && spec.value.gross == r.value.1 && |r.value.0| == |blocks|
                          && supplied && r.value.2 == base + |LaneBuckets(blocks)|)
            && (r.Err? ==> spec == Err(r.error) || !supplied)
  {
    hide EntryApplied, OwnEntries, Supplied, Bound, EntryBuckets, FirstAppearances;
    var ids := Roster(blocks);
    var positions: seq<int>, gross: u64 := seq(|blocks|, _ => 0), 0;
    var table := new BindingTable(OfChannels(t), base);
    ghost var all := EntriesFrom(blocks, 0);
    ghost var seen: set<(nat, nat)>, n: nat := {}, 0;
    ghost var spec := EntriesApplied(RoundStart(b.State(), |blocks|), ids, t, all);
    var i := 0;
    assert all[0..] == all;
    NoLanesBound(base, t, ids, all, accounts);
    while i < |blocks|
      invariant 0 <= i <= |blocks| && |positions| == |ids| == |blocks| && n <= |all|
      invariant RowsBelow(seen, i) && EntriesFrom(blocks, i) == all[n..] && PayersListed(ids, all[n..])
      invariant fresh(table) && table.Valid() && table.kind == OfChannels(t) && table.base == base
      invariant LanesBound(table.order, base, t, ids, all, n, accounts)
      invariant spec == EntriesApplied(RoundState(b.State(), positions, gross, seen), ids, t, all[n..])
    {
      hide EntriesApplied, LanesBound;
      EntriesOfBlock(blocks, 0, i, n);
      var settled;
      settled, seen := SettleBlock(b, ids, t, i, blocks[i].entries, positions, gross, table, accounts, seen, all, n);
      if settled.Err? {
        return Err(settled.error);
      }
      positions, gross := settled.value.0, settled.value.1;
      n := n + |blocks[i].entries|;
      i := i + 1;
    }
    assert all[n..] == [] && all[..n] == all;
    var next := table.Next();
    return Ok((positions, gross, next));
  }

  lemma NoLanesBound(base: nat, t: u16, ids: seq<u32>, all: seq<Entry>, accounts: seq<AccountInfo>)
    requires base <= |accounts|
    ensures LanesBound([], base, t, ids, all, 0, accounts)
  {
    assert EntryBuckets(ids, all[..0]) == [];
    NothingBound(OfChannels(t), base, accounts);
  }

  // ----- the balances

  /** `negative_position_abs_to_u64`. */
  method NegativePositionAbsToU64(position: int) returns (r: Result<u64>)
    ensures r.Ok? <==> -TWO64 < position <= 0
    ensures r.Ok? ==> r.value == -position
    ensures r.Err? ==> r.error == MathOverflow
  {
    r := Checked64(-position);
  }

  lemma {:induction false} CheckedPrefixDecides(totals: seq<u64>, positions: seq<int>, n: nat)
    requires |totals| == |positions| && n <= |totals| && PositionsChecked(totals[..n], positions[..n]).Err?
    ensures PositionsChecked(totals, positions) == PositionsChecked(totals[..n], positions[..n])
    decreases |totals|
  {
    var m := |totals| - 1;
    if n == |totals| {
      assert totals[..n] == totals && positions[..n] == positions;
    } else {
      assert totals[..m][..n] == totals[..n] && positions[..m][..n] == positions[..n];
      CheckedPrefixDecides(totals[..m], positions[..m], n);
    }
  }

  /** The third pass: every net payer can pay, and the net credits fit. */
  method CheckPositions(totals: seq<u64>, positions: seq<int>) returns (r: Result<u64>)
    requires |totals| == |positions|
    ensures r == PositionsChecked(totals, positions)
  {
    var net: u64 := 0;
    var k := 0;
    while k < |positions|
      invariant 0 <= k <= |positions|
      invariant PositionsChecked(totals[..k], positions[..k]) == Ok(net)
    {
      assert totals[..k + 1][..k] == totals[..k] && positions[..k + 1][..k] == positions[..k];
      if PositionsChecked(totals[..k + 1], positions[..k + 1]).Err? {
        CheckedPrefixDecides(totals, positions, k + 1);
      }
      if positions[k] < 0 {
        var amount :- NegativePositionAbsToU64(positions[k]);
        :- Require(totals[k] >= amount, InsufficientBalance);
      } else {
        var amount :- Checked64(positions[k]);
        net :- Checked64(net + amount);
      }
      k := k + 1;
    }
    assert totals[..k] == totals && positions[..k] == positions;
    return Ok(net);
  }

  /** The fourth pass: every position that is not zero reaches its account. */
  method ApplyPositions(b: BucketAccounts, ids: seq<u32>, t: u16, positions: seq<int>) returns (r: Result<()>)
    requires |ids| == |positions|
    modifies b`balances
    ensures r.Ok? ==> PositionsApplied(old(b.State()), ids, t, positions) == Ok(b.State())
    ensures r.Err? ==> PositionsApplied(old(b.State()), ids, t, positions) == Err(r.error)
  {
    ghost var l := b.State();
    var k := 0;
    while k < |ids|
      invariant 0 <= k <= |ids|
      invariant PositionsApplied(l, ids[..k], t, positions[..k]) == Ok(b.State())
    {
      assert ids[..k + 1][..k] == ids[..k] && positions[..k + 1][..k] == positions[..k];
      if PositionsApplied(l, ids[..k + 1], t, positions[..k + 1]).Err? {
        PrefixDecides(l, ids, t, positions, k + 1);
      }
      if positions[k] != 0 {
        var _ :- b.ApplyTokenDelta(ids[k], t, positions[k]);
      }
      k := k + 1;
    }
    assert ids[..k] == ids && positions[..k] == positions;
    return Ok(());
  }

  lemma RoundAccountsSplit(t: u16, blocks: seq<Block>, accounts: seq<AccountInfo>)
    ensures accounts == RoundAccounts(t, blocks) <==>
              && RosterSupplied(blocks, accounts)
              && Supplied(OfChannels(t), EntryBuckets(Roster(blocks), EntriesFrom(blocks, 0)), |RosterBuckets(blocks)|, accounts)
              && |RosterBuckets(blocks)| + |LaneBuckets(blocks)| == |accounts|
    ensures RosterSupplied(blocks, accounts) ==> |RosterBuckets(blocks)| <= |accounts|
  {
    hide FirstAppearances, EntryBuckets, ParticipantBuckets;
    ListsTogether(RosterBuckets(blocks), LaneBuckets(blocks), t, accounts);
  }

  /** With the accounts of the round, and no others, the handler computes the specified round, result
      and error alike; with any other accounts it fails. */
  method SettleClearingRound(b: BucketAccounts, tokens: set<u16>, t: u16, blocks: seq<Block>,
                             accounts: seq<AccountInfo>, signatureValid: bool)
    returns (r: Result<(u64, u64)>)
    modifies b
    ensures r.Ok? ==> accounts == RoundAccounts(t, blocks)
    ensures r.Ok? ==> RoundSettled(old(b.State()), tokens, t, blocks, signatureValid)
                      == Ok(RoundOutcome(b.State(), r.value.0, r.value.1))
    ensures r.Err? ==> RoundSettled(old(b.State()), tokens, t, blocks, signatureValid) == Err(r.error)
                       || accounts != RoundAccounts(t, blocks)
  {
    hide EntriesApplied, PositionsApplied, PositionsChecked, ParticipantsLoaded, RoundAccounts, RosterSupplied, Supplied,
         EntryBuckets, RosterBuckets, LaneBuckets;
    RoundAccountsSplit(t, blocks, accounts);
    :- Require(t in tokens, TokenNotFound);
    var loaded :- LoadParticipants(b, t, blocks, accounts);
    :- Require(loaded.1, ParticipantBlsKeyNotFound);
    :- Require(signatureValid, InvalidBlsSignature);
    EntriesFromAreListed(blocks, 0);
    var settled :- SettleBlocks(b, t, blocks, loaded.2, accounts);
    :- Require(settled.2 == |accounts|, InvalidClearingRoundMessage);
    var net :- CheckPositions(loaded.0, settled.0);
    var _ :- ApplyPositions(b, Roster(blocks), t, settled.0);
    return Ok((settled.1, net));
  }

  // ----- from the bytes of the message

  /** The entries of one block, parsed again from where the layout found them. */
  method ReadBlock(msg: Bytes, meta: BlockMeta) returns (r: Result<Block>)
    requires meta.entriesOffset <= |msg|
    ensures r.Ok? ==> ReadEntries(msg, meta.entriesOffset, meta.entryCount).Ok?
                      && r.value == Block(meta.participant, ReadEntries(msg, meta.entriesOffset, meta.entryCount).value.0)
    ensures r.Err? ==> ReadEntries(msg, meta.entriesOffset, meta.entryCount) == Err(r.error)
  {
    hide ReadEntry;
    var offset: nat, entries: seq<ChannelEntry> := meta.entriesOffset, [];
    assert forall rest: seq<ChannelEntry> :: [] + rest == rest;
    var k := 0;
    while k < meta.entryCount
      invariant 0 <= k <= meta.entryCount && offset <= |msg|
      invariant ReadEntries(msg, meta.entriesOffset, meta.entryCount) ==
                match ReadEntries(msg, offset, meta.entryCount - k)
                case Ok(rest) => Ok((entries + rest.0, rest.1))
                case Err(e) => Err(e)
    {
      var entry :- ParseChannelEntry(msg, offset);
      ghost var rest := ReadEntries(msg, entry.1, meta.entryCount - k - 1);
      if rest.Ok? {
        assert entries + ([entry.0] + rest.value.0) == (entries + [entry.0]) + rest.value.0;
      }
      entries, offset := entries + [entry.0], entry.1;
      k := k + 1;
    }
    assert entries + [] == entries;
    return Ok(Block(meta.participant, entries));
  }

  method ReadBlockList(msg: Bytes, metas: seq<BlockMeta>) returns (r: Result<seq<Block>>)
    ensures r == ReadAgain(msg, metas)
  {
    hide ReadEntries;
    var blocks: seq<Block> := [];
    var i := 0;
    assert metas[0..] == metas;
    assert forall rest: seq<Block> :: [] + rest == rest;
    while i < |metas|
      invariant 0 <= i <= |metas|
      invariant ReadAgain(msg, metas) ==
                match ReadAgain(msg, metas[i..])
                case Ok(rest) => Ok(blocks + rest)
                case Err(e) => Err(e)
    {
      assert metas[i..][0] == metas[i] && metas[i..][1..] == metas[i + 1..];
      :- Require(metas[i].entriesOffset <= |msg|, InvalidClearingRoundMessage);
      var block :- ReadBlock(msg, metas[i]);
      if ReadAgain(msg, metas[i + 1..]).Ok? {
        assert blocks + ([block] + ReadAgain(msg, metas[i + 1..]).value)
               == (blocks + [block]) + ReadAgain(msg, metas[i + 1..]).value;
      }
      blocks := blocks + [block];
      i := i + 1;
    }
    assert blocks + [] == blocks;
    return Ok(blocks);
  }

  /** `settle_clearing_round`, from the bytes that were signed and the accounts that were supplied. */
  method SettleRoundMessage(b: BucketAccounts, tokens: set<u16>, domain: Domain, version: u8, msg: Bytes,
                            accounts: seq<AccountInfo>, signatureValid: bool)
    returns (r: Result<(u64, u64)>)
    modifies b
    ensures ParsedRound(msg, domain, version).Err? ==> r == Err(ParsedRound(msg, domain, version).error)
    ensures ParsedRound(msg, domain, version).Ok? ==>
              var layout := ParsedRound(msg, domain, version).value;
              && ReadAgain(msg, layout.blocks).Ok?
              && var blocks := ReadAgain(msg, layout.blocks).value;
              && (r.Ok? ==> accounts == RoundAccounts(layout.token, blocks))
              && (r.Ok? ==> RoundSettled(old(b.State()), tokens, layout.token, blocks, signatureValid)
                            == Ok(RoundOutcome(b.State(), r.value.0, r.value.1)))
              && (r.Err? ==> RoundSettled(old(b.State()), tokens, layout.token, blocks, signatureValid) == Err(r.error)
                             || accounts != RoundAccounts(layout.token, blocks))
  {
    hide ParsedRound, ReadAgain, RoundSettled, RoundAccounts;
    var layout :- ParseClearingRoundLayout(msg, domain, version);
    SecondPassNeverFails(msg, domain, version);
    var read := ReadBlockList(msg, layout.blocks);
    r := SettleClearingRound(b, tokens, layout.token, read.value, accounts, signatureValid);
  }

  /** For a printed round the handler settles exactly the blocks that were printed. */
  lemma PrintedRoundIsSettled(domain: Domain, version: u8, token: u16, blocks: seq<Block>)
    requires 1 <= |blocks| <= 255 && Printable(blocks)
    ensures var msg := PrintedRound(domain, version, token, blocks);
            && ParsedRound(msg, domain, version).Ok?
            && ParsedRound(msg, domain, version).value.token == token
            && ReadAgain(msg, ParsedRound(msg, domain, version).value.blocks) == Ok(blocks)
  {
    ClearingRoundRoundTrip(domain, version, token, blocks);
  }
}
