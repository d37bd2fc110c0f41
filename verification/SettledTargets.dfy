/** Which lanes a settlement brings to which amounts, in the terms of the message that asks for it. */
module SettledTargets {
  import opened Machine
  import opened Ledgers
  import opened SettleIndividual
  import opened Transfers
  import opened ClearingRound
  import opened RoundRefinement
  import opened SettleCommitmentBundle
  import opened BundleEquivalence

  lemma AdvancedTo(before: Lanes, after: Lanes, xs: seq<Transfer>, x: Transfer)
    requires LanesAdvanced(before, after, xs) && x in xs
    ensures x.lane in before && x.lane in after
    ensures before[x.lane].settledCumulative < x.target == after[x.lane].settledCumulative
  {
  }

  /** Entry `k` of block `i` is among the entries of the round. */
  lemma {:induction false} EntryIsThere(blocks: seq<Block>, first: nat, i: nat, k: nat)
    requires first <= i < |blocks| && k < |blocks[i].entries|
    ensures Entry(i, blocks[i].entries[k].payeeRef, blocks[i].entries[k].targetCumulative) in EntriesFrom(blocks, first)
    decreases |blocks| - first
  {
    var own := OwnEntries(first, blocks[first].entries);
    if first == i {
      assert own[k] in own;
    } else {
      EntryIsThere(blocks, first + 1, i, k);
    }
  }

  /** After a round, for every entry of every block: the lane from the block's participant to the
      participant of the block that the entry refers to is settled up to the entry's amount. */
  lemma RoundSettlesNamedLanes(l: Ledger, tokens: set<u16>, t: u16, blocks: seq<Block>, signatureValid: bool, i: nat, k: nat)
    requires RoundSettled(l, tokens, t, blocks, signatureValid).Ok?
    requires i < |blocks| && k < |blocks[i].entries|
    ensures var l' := RoundSettled(l, tokens, t, blocks, signatureValid).value.ledger;
            var e := blocks[i].entries[k];
            && e.payeeRef < |blocks|
            && var id := LaneId(blocks[i].participant, blocks[e.payeeRef].participant, t);
            && id.payer != id.payee && id in l.lanes && id in l'.lanes
            && l.lanes[id].settledCumulative < e.targetCumulative == l'.lanes[id].settledCumulative
  {
    hide RoundSettled, LanesAdvanced;
    RoundSucceedsExactlyWhen(l, tokens, t, blocks, signatureValid);
    EntryIsThere(blocks, 0, i, k);
    var ids, es := Roster(blocks), EntriesFrom(blocks, 0);
    var e := Entry(i, blocks[i].entries[k].payeeRef, blocks[i].entries[k].targetCumulative);
    var j :| 0 <= j < |es| && es[j] == e;
    var xs := TransfersAt(ids, t, es);
    assert xs[j] == TransferAt(ids, t, e) && xs[j] in xs;
    AdvancedTo(l.lanes, RoundSettled(l, tokens, t, blocks, signatureValid).value.ledger.lanes, xs, xs[j]);
    AdvancingLanesHaveTwoEnds(l.lanes, RoundSettled(l, tokens, t, blocks, signatureValid).value.ledger.lanes, xs, xs[j]);
  }

  lemma AdvancingLanesHaveTwoEnds(before: Lanes, after: Lanes, xs: seq<Transfer>, x: Transfer)
    requires LanesAdvanced(before, after, xs) && x in xs
    ensures x.lane.payer != x.lane.payee
  {
    assert Advances(before, x);
  }

  /** After a bundle the lane of every commitment is settled up to it. */
  lemma BundleSettlesNamedLanes(l: Ledger, tokens: set<u16>, submitter: Key, items: seq<SignedCommitment>, i: nat)
    requires BundleSettled(l, tokens, submitter, items).Ok? && i < |items|
    ensures var c, l' := items[i].commitment, BundleSettled(l, tokens, submitter, items).value.ledger;
            var id := LaneId(c.payer, c.payee, c.token);
            && id in l.lanes && id in l'.lanes
            && l.lanes[id].settledCumulative < c.committedAmount == l'.lanes[id].settledCumulative
            && items[i].signer == l.lanes[id].authorizedSigner
            && c.payee in l.slots
            && (submitter == l.slots[c.payee].owner || c.authorizedSettler == Some(submitter))
  {
    hide BundleSettled, LanesAdvanced, OnePayee, Net;
    var ss := SubmissionsOf(submitter, items);
    AcceptedBundleHasOnePayee(l, tokens, submitter, items);
    BundleVerdict(l, tokens, submitter, items);
    assert ss[i] in ss && Acceptable(l, tokens, ss[i]);
    var xs := TransfersOf(ss);
    assert xs[i] == TransferOf(ss[i]) && xs[i] in xs;
    AdvancedTo(l.lanes, BundleSettled(l, tokens, submitter, items).value.ledger.lanes, xs, xs[i]);
  }

  // ----- the order of accounts

  /** Where `x` first stands in `xs`. */
  function FirstIndex<T(==)>(xs: seq<T>, x: T): nat
    requires x in xs
  {
    if xs[0] == x then 0 else 1 + FirstIndex(xs[1..], x)
  }

  lemma {:induction false} FirstIndexOfPrefix<T>(xs: seq<T>, x: T, last: T)
    requires x in xs
    ensures FirstIndex(xs + [last], x) == FirstIndex(xs, x) < |xs|
  {
    assert (xs + [last])[1..] == xs[1..] + [last];
    if xs[0] != x {
      FirstIndexOfPrefix(xs[1..], x, last);
    }
  }

  lemma {:induction false} FirstIndexOfNew<T>(xs: seq<T>, last: T)
    requires last !in xs
    ensures FirstIndex(xs + [last], last) == |xs|
  {
    if xs != [] {
      assert (xs + [last])[1..] == xs[1..] + [last];
      FirstIndexOfNew(xs[1..], last);
    }
  }

  lemma {:induction false} FirstAppearancesAreMembers<T>(xs: seq<T>, x: T)
    ensures x in FirstAppearances(xs) <==> x in xs
    decreases |xs|
  {
    if xs != [] {
      assert xs == xs[..|xs| - 1] + [xs[|xs| - 1]];
      FirstAppearancesAreMembers(xs[..|xs| - 1], x);
    }
  }

  /** The list of first appearances holds members only, in the order in which they first stand. */
  lemma {:induction false} FirstAppearancesInOrder<T>(xs: seq<T>, i: nat, j: nat)
    requires i < j < |FirstAppearances(xs)|
    ensures var order := FirstAppearances(xs);
            order[i] in xs && order[j] in xs && FirstIndex(xs, order[i]) < FirstIndex(xs, order[j])
    decreases |xs|
  {
    var order := FirstAppearances(xs);
    var front, last := xs[..|xs| - 1], xs[|xs| - 1];
    var seen := FirstAppearances(front);
    assert xs == front + [last];
    assert order == if last in seen then seen else seen + [last];
    FirstAppearancesAreMembers(xs, order[i]);
    FirstAppearancesAreMembers(xs, order[j]);
    FirstAppearancesAreMembers(front, seen[i]);
    FirstIndexOfPrefix(front, seen[i], last);
    if j < |seen| {
      FirstAppearancesInOrder(front, i, j);
      FirstIndexOfPrefix(front, seen[j], last);
    } else {
      FirstAppearancesAreMembers(front, last);
      FirstIndexOfNew(front, last);
    }
  }
}
