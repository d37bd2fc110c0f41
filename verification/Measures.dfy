/** Two measures of a ledger that settlement never changes: what the program owes in a token, and
    the stake of one participant in it. */
module Measures {
  import opened Machine
  import opened Sums
  import opened Ledgers
  import opened SettleIndividual
  import opened BalanceDeltas
  import opened Transfers
  import opened ClearingRound
  import opened SettleCommitmentBundle
  import opened BundleEquivalence

  /** `Liability` is everything held for the owners of a token: balances and collateral. `Stake` is
      what one participant holds, has locked and has paid on its lanes, less what it was paid. */
  datatype Measure =
    | Liability(token: u16)
    | Stake(participant: u32, token: u16)
  {
    predicate Counts(p: u32, t: u16) {
      t == token && (Stake? ==> p == participant)
    }

    function OfAccount(a: Account, b: Balance): int {
      if Counts(a.participant, a.token) then b.available + b.withdrawing else 0
    }

    function OfLane(id: LaneId, lane: Lane): int {
      (if Counts(id.payer, id.token) then
         lane.lockedBalance + (if Stake? then lane.settledCumulative else 0)
       else 0)
      - (if Stake? && Counts(id.payee, id.token) then lane.settledCumulative else 0)
    }
  }

  function AccountTerms(mu: Measure, balances: map<Account, Balance>): map<Account, int> {
    map a | a in balances :: mu.OfAccount(a, balances[a])
  }

  function LaneTerms(mu: Measure, lanes: Lanes): map<LaneId, int> {
    map id | id in lanes :: mu.OfLane(id, lanes[id])
  }

  ghost function OfBalances(mu: Measure, balances: map<Account, Balance>): int {
    SumOf(AccountTerms(mu, balances))
  }

  ghost function OfLanes(mu: Measure, lanes: Lanes): int {
    SumOf(LaneTerms(mu, lanes))
  }

  ghost function Measured(mu: Measure, l: Ledger): int {
    OfBalances(mu, l.balances) + OfLanes(mu, l.lanes)
  }

  // ----- one entry written

  lemma BalanceWritten(mu: Measure, balances: map<Account, Balance>, a: Account, b: Balance)
    ensures OfBalances(mu, balances[a := b])
            == OfBalances(mu, balances) + mu.OfAccount(a, b)
               - (if a in balances then mu.OfAccount(a, balances[a]) else 0)
  {
    var w := AccountTerms(mu, balances);
    assert AccountTerms(mu, balances[a := b]) == w[a := mu.OfAccount(a, b)];
    SumUpdate(w, a, mu.OfAccount(a, b));
  }

  lemma LaneWritten(mu: Measure, lanes: Lanes, id: LaneId, lane: Lane)
    ensures OfLanes(mu, lanes[id := lane])
            == OfLanes(mu, lanes) + mu.OfLane(id, lane) - (if id in lanes then mu.OfLane(id, lanes[id]) else 0)
  {
    var w := LaneTerms(mu, lanes);
    assert LaneTerms(mu, lanes[id := lane]) == w[id := mu.OfLane(id, lane)];
    SumUpdate(w, id, mu.OfLane(id, lane));
  }

  /** A delta of `d` for `p`, as `mu` sees it. */
  function Seen(mu: Measure, p: u32, t: u16, d: int): int {
    if mu.Counts(p, t) then d else 0
  }

  lemma DeltaMeasured(mu: Measure, l: Ledger, p: u32, t: u16, delta: int)
    requires DeltaApplied(l, p, t, delta).Ok?
    ensures Measured(mu, DeltaApplied(l, p, t, delta).value) == Measured(mu, l) + Seen(mu, p, t, delta)
  {
    var l' := DeltaApplied(l, p, t, delta).value;
    if delta != 0 {
      BalanceWritten(mu, l.balances, Account(p, t), l'.balances[Account(p, t)]);
    }
  }

  lemma AvailableDebitMeasured(mu: Measure, l: Ledger, p: u32, t: u16, amount: u64)
    requires AvailableDebited(l, p, t, amount).Ok?
    ensures Measured(mu, AvailableDebited(l, p, t, amount).value) == Measured(mu, l) - Seen(mu, p, t, amount)
  {
    var l' := AvailableDebited(l, p, t, amount).value;
    BalanceWritten(mu, l.balances, Account(p, t), l'.balances[Account(p, t)]);
  }

  lemma InitiationMeasured(mu: Measure, l: Ledger, p: u32, t: u16, amount: u64, destination: Key, unlockAt: i64)
    requires WithdrawalInitiated(l, p, t, amount, destination, unlockAt).Ok?
    ensures Measured(mu, WithdrawalInitiated(l, p, t, amount, destination, unlockAt).value) == Measured(mu, l)
  {
    var l' := WithdrawalInitiated(l, p, t, amount, destination, unlockAt).value;
    BalanceWritten(mu, l.balances, Account(p, t), l'.balances[Account(p, t)]);
  }

  lemma CancellationMeasured(mu: Measure, l: Ledger, p: u32, t: u16)
    requires WithdrawalCancelled(l, p, t).Ok?
    ensures Measured(mu, WithdrawalCancelled(l, p, t).value) == Measured(mu, l)
  {
    var l' := WithdrawalCancelled(l, p, t).value;
    BalanceWritten(mu, l.balances, Account(p, t), l'.balances[Account(p, t)]);
  }

  lemma ClearingMeasured(mu: Measure, l: Ledger, p: u32, t: u16)
    requires WithdrawalCleared(l, p, t).Ok?
    ensures Measured(mu, WithdrawalCleared(l, p, t).value)
            == Measured(mu, l) - Seen(mu, p, t, l.balances[Account(p, t)].withdrawing)
  {
    var l' := WithdrawalCleared(l, p, t).value;
    BalanceWritten(mu, l.balances, Account(p, t), l'.balances[Account(p, t)]);
  }

  // ----- one lane

  lemma LockMeasured(mu: Measure, l: Ledger, id: LaneId, amount: u64)
    requires LockAdded(l, id, amount).Ok?
    ensures Measured(mu, LockAdded(l, id, amount).value) == Measured(mu, l) + Seen(mu, id.payer, id.token, amount)
  {
    LaneWritten(mu, l.lanes, id, LockAdded(l, id, amount).value.lanes[id]);
  }

  lemma RequestMeasured(mu: Measure, l: Ledger, id: LaneId, amount: u64, now: i64)
    requires UnlockRequested(l, id, amount, now).Ok?
    ensures Measured(mu, UnlockRequested(l, id, amount, now).value) == Measured(mu, l)
  {
    LaneWritten(mu, l.lanes, id, UnlockRequested(l, id, amount, now).value.lanes[id]);
  }

  lemma ExecutionMeasured(mu: Measure, l: Ledger, id: LaneId)
    requires UnlockExecuted(l, id).Ok?
    ensures Measured(mu, UnlockExecuted(l, id).value.0)
            == Measured(mu, l) - Seen(mu, id.payer, id.token, UnlockExecuted(l, id).value.1)
  {
    LaneWritten(mu, l.lanes, id, UnlockExecuted(l, id).value.0.lanes[id]);
  }

  lemma CooperationMeasured(mu: Measure, l: Ledger, id: LaneId, amount: u64)
    requires CooperativelyUnlocked(l, id, amount).Ok?
    ensures Measured(mu, CooperativelyUnlocked(l, id, amount).value)
            == Measured(mu, l) - Seen(mu, id.payer, id.token, amount)
  {
    LaneWritten(mu, l.lanes, id, CooperativelyUnlocked(l, id, amount).value.lanes[id]);
  }

  lemma CreationMeasured(mu: Measure, l: Ledger, id: LaneId, signer: Key)
    requires LaneCreated(l, id, signer).Ok?
    ensures Measured(mu, LaneCreated(l, id, signer).value) == Measured(mu, l)
  {
    LaneWritten(mu, l.lanes, id, Lane(0, 0, signer, 0, 0));
  }

  /** Advancing a lane leaves exactly the balance movements still to be made. */
  lemma AdvanceMeasured(mu: Measure, lanes: Lanes, id: LaneId, target: u64)
    requires id in lanes && id.payer != id.payee && lanes[id].settledCumulative < target
    ensures var a := AdvanceOf(lanes[id], target);
            OfLanes(mu, lanes[id := LaneAdvanced(lanes[id], target)])
            == OfLanes(mu, lanes) + Seen(mu, id.payer, id.token, a.amount - a.consumed)
               - Seen(mu, id.payee, id.token, a.amount)
  {
    LaneWritten(mu, lanes, id, LaneAdvanced(lanes[id], target));
  }

  // ----- the three settlement routes

  /** One commitment settled changes neither what is owed nor anyone's stake. */
  lemma SettlementMeasured(mu: Measure, l: Ledger, tokens: set<u16>, s: Submission)
    requires Settled(l, tokens, s).Ok?
    ensures Measured(mu, Settled(l, tokens, s).value) == Measured(mu, l)
  {
    hide DeltaApplied;
    var c := s.commitment;
    var advance := Examined(l, tokens, s).value;
    var l1 := l.(lanes := l.lanes[LaneOf(c) := LaneAdvanced(l.lanes[LaneOf(c)], c.committedAmount)]);
    AdvanceMeasured(mu, l.lanes, LaneOf(c), c.committedAmount);
    DeltaMeasured(mu, l1, c.payer, c.token, -(advance.amount - advance.consumed));
    var l2 := DeltaApplied(l1, c.payer, c.token, -(advance.amount - advance.consumed)).value;
    DeltaMeasured(mu, l2, c.payee, c.token, advance.amount);
  }

  lemma {:induction false} SequenceMeasured(mu: Measure, l: Ledger, tokens: set<u16>, ss: seq<Submission>)
    requires SettledAll(l, tokens, ss).Ok?
    ensures Measured(mu, SettledAll(l, tokens, ss).value) == Measured(mu, l)
    decreases |ss|
  {
    hide Settled;
    if ss != [] {
      SettlementMeasured(mu, l, tokens, ss[0]);
      SequenceMeasured(mu, Settled(l, tokens, ss[0]).value, tokens, ss[1..]);
    }
  }

  /** The positions of a roster, as `mu` sees them. */
  function SeenAll(mu: Measure, ids: seq<u32>, t: u16, positions: seq<int>): int
    requires |ids| == |positions|
  {
    if ids == [] then 0
    else
      var n := |ids| - 1;
      SeenAll(mu, ids[..n], t, positions[..n]) + Seen(mu, ids[n], t, positions[n])
  }

  lemma {:induction false} SeenAllUpdate(mu: Measure, ids: seq<u32>, t: u16, positions: seq<int>, k: nat, v: int)
    requires |ids| == |positions| && k < |ids|
    ensures SeenAll(mu, ids, t, positions[k := v])
            == SeenAll(mu, ids, t, positions) + Seen(mu, ids[k], t, v - positions[k])
    decreases |ids|
  {
    var n := |ids| - 1;
    if k == n {
      assert positions[k := v][..n] == positions[..n];
    } else {
      assert positions[k := v][..n] == positions[..n][k := v];
      SeenAllUpdate(mu, ids[..n], t, positions[..n], k, v);
    }
  }

  lemma {:induction false} PositionsMeasured(mu: Measure, l: Ledger, ids: seq<u32>, t: u16, positions: seq<int>)
    requires |ids| == |positions| && PositionsApplied(l, ids, t, positions).Ok?
    ensures Measured(mu, PositionsApplied(l, ids, t, positions).value)
            == Measured(mu, l) + SeenAll(mu, ids, t, positions)
    decreases |ids|
  {
    if ids != [] {
      var n := |ids| - 1;
      PositionsMeasured(mu, l, ids[..n], t, positions[..n]);
      DeltaMeasured(mu, PositionsApplied(l, ids[..n], t, positions[..n]).value, ids[n], t, positions[n]);
    }
  }

  lemma EntryMeasured(mu: Measure, st: RoundState, ids: seq<u32>, t: u16, e: Entry)
    requires |st.positions| == |ids| && e.payer < |ids| && EntryApplied(st, ids, t, e).Ok?
    ensures var st' := EntryApplied(st, ids, t, e).value;
            Measured(mu, st'.ledger) + SeenAll(mu, ids, t, st'.positions)
            == Measured(mu, st.ledger) + SeenAll(mu, ids, t, st.positions)
  {
    var id := LaneId(ids[e.payer], ids[e.payee], t);
    var a := AdvanceOf(st.ledger.lanes[id], e.target);
    AdvanceMeasured(mu, st.ledger.lanes, id, e.target);
    SeenAllUpdate(mu, ids, t, st.positions, e.payer, st.positions[e.payer] - (a.amount - a.consumed));
    var positions := st.positions[e.payer := st.positions[e.payer] - (a.amount - a.consumed)];
    SeenAllUpdate(mu, ids, t, positions, e.payee, positions[e.payee] + a.amount);
  }

  lemma {:induction false} EntriesMeasured(mu: Measure, st: RoundState, ids: seq<u32>, t: u16, es: seq<Entry>)
    requires |st.positions| == |ids| && PayersListed(ids, es) && EntriesApplied(st, ids, t, es).Ok?
    ensures var st' := EntriesApplied(st, ids, t, es).value;
            Measured(mu, st'.ledger) + SeenAll(mu, ids, t, st'.positions)
            == Measured(mu, st.ledger) + SeenAll(mu, ids, t, st.positions)
    decreases |es|
  {
    hide EntryApplied;
    if es != [] {
      EntryMeasured(mu, st, ids, t, es[0]);
      EntriesMeasured(mu, EntryApplied(st, ids, t, es[0]).value, ids, t, es[1..]);
    }
  }

  lemma {:induction false} NothingSeen(mu: Measure, ids: seq<u32>, t: u16)
    ensures SeenAll(mu, ids, t, seq(|ids|, _ => 0)) == 0
    decreases |ids|
  {
    if ids != [] {
      var n := |ids| - 1;
      assert seq(|ids|, _ => 0)[..n] == seq(n, _ => 0);
      NothingSeen(mu, ids[..n], t);
    }
  }

  /** A clearing round changes neither what is owed nor anyone's stake. */
  lemma RoundMeasured(mu: Measure, l: Ledger, tokens: set<u16>, t: u16, blocks: seq<Block>, signatureValid: bool)
    requires RoundSettled(l, tokens, t, blocks, signatureValid).Ok?
    ensures Measured(mu, RoundSettled(l, tokens, t, blocks, signatureValid).value.ledger) == Measured(mu, l)
  {
    hide EntriesApplied, PositionsApplied, PositionsChecked, ParticipantsLoaded;
    var ids, es := Roster(blocks), EntriesFrom(blocks, 0);
    EntriesFromAreListed(blocks, 0);
    EntriesMeasured(mu, RoundStart(l, |ids|), ids, t, es);
    NothingSeen(mu, ids, t);
    var st := EntriesApplied(RoundStart(l, |ids|), ids, t, es).value;
    PositionsMeasured(mu, st.ledger, ids, t, st.positions);
  }

  // ----- the bundle, through the sequence it equals

  /** A bundle changes neither what is owed nor anyone's stake. */
  lemma BundleMeasured(mu: Measure, l: Ledger, tokens: set<u16>, submitter: Key, items: seq<SignedCommitment>)
    requires BundleSettled(l, tokens, submitter, items).Ok?
    ensures Measured(mu, BundleSettled(l, tokens, submitter, items).value.ledger) == Measured(mu, l)
  {
    hide BundleSettled, SettledAll;
    var ss := SubmissionsOf(submitter, items);
    AcceptedBundleHasOnePayee(l, tokens, submitter, items);
    BundleEqualsSequence(l, tokens, submitter, items, ss);
    SequenceMeasured(mu, l, tokens, ss);
  }
}
