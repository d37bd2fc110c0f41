/** The three settlement handlers as they run: in place, lane by lane and bucket by bucket. */
module SettlementHandlers {
  import opened Machine
  import opened Ledgers
  import opened SettleIndividual
  import opened BalanceDeltas
  import opened SettleCommitmentBundle
  import opened LaneLookup
  import opened AccountBindings
  import opened Buckets
  import opened SortedVectors

  // ----- one commitment

  /** Verifies the first accounts against the participant buckets, one by one. */
  method VerifyParticipants(buckets: seq<u32>, accounts: seq<AccountInfo>) returns (r: Result<()>)
    requires |buckets| <= |accounts|
    ensures r.Ok? <==> Lists(OfParticipants, buckets, 0, accounts)
  {
    var i := 0;
    assert accounts[0..0] == [] && buckets[..0] == [];
    while i < |buckets|
      invariant 0 <= i <= |buckets|
      invariant Lists(OfParticipants, buckets[..i], 0, accounts)
    {
      hide Lists;
      assert buckets[..i + 1] == buckets[..i] + [buckets[i]];
      ListsNext(OfParticipants, buckets[..i], buckets[i], 0, accounts);
      if Lists(OfParticipants, buckets, 0, accounts) {
        ListsPrefix(OfParticipants, buckets[..i + 1], buckets, 0, accounts);
      }
      :- Require(accounts[i] == ParticipantBucketInfo(buckets[i]), BucketAccountMismatch);
      i := i + 1;
    }
    assert buckets[..i] == buckets;
    return Ok(());
  }

  /** The buckets of payer and payee, once if they are the same. */
  function PartyBuckets(c: Commitment): seq<u32> {
    if BucketOf(c.payer) == BucketOf(c.payee) then [BucketOf(c.payer)] else [BucketOf(c.payer), BucketOf(c.payee)]
  }

  /** The remaining accounts of a single settlement. */
  function IndividualAccounts(c: Commitment): seq<AccountInfo> {
    AccountList(PartyBuckets(c), [PairBucket(c.payer, c.payee)], c.token)
  }

  method BindIndividual(c: Commitment, accounts: seq<AccountInfo>) returns (r: Result<()>)
    ensures r.Ok? ==> accounts == IndividualAccounts(c)
    ensures r.Err? ==> accounts != IndividualAccounts(c) || (c.payer == c.payee && r.error == SelfChannelNotAllowed)
  {
    hide PairOrdinal;
    var pair :- Canonicalize(c.payer, c.payee);
    var bucket := PairOrdinal(pair.lower, pair.higher) / CHANNEL_BUCKET_SLOT_COUNT;
    var buckets := [BucketOf(c.payer)];
    if BucketOf(c.payee) != BucketOf(c.payer) {
      buckets := buckets + [BucketOf(c.payee)];
    }
    ListsTogether(buckets, [bucket], c.token, accounts);
    :- Require(|accounts| == |buckets| + 1, InvalidCommitmentMessage);
    var _ :- VerifyParticipants(buckets, accounts);
    OneMore(c.token, bucket, |buckets|, accounts);
    :- Require(accounts[|buckets|] == ChannelBucketInfo(c.token, bucket), BucketAccountMismatch);
    return Ok(());
  }

  lemma OneMore(t: u16, bucket: nat, base: nat, accounts: seq<AccountInfo>)
    requires base < |accounts|
    ensures Lists(OfChannels(t), [bucket], base, accounts) <==> accounts[base] == ChannelBucketInfo(t, bucket)
  {
    assert accounts[base..base + 1] == [accounts[base]];
    assert Infos(OfChannels(t), [bucket]) == [ChannelBucketInfo(t, bucket)];
  }

  /** With the accounts of the settlement, and no others, the handler computes the specified one,
      result and error alike; with any other accounts it fails. */
  method SettleIndividually(b: BucketAccounts, tokens: set<u16>, s: Submission, accounts: seq<AccountInfo>)
    returns (r: Result<u64>)
    modifies b
    ensures r.Ok? ==> accounts == IndividualAccounts(s.commitment)
    ensures r.Ok? ==> Settled(old(b.State()), tokens, s) == Ok(b.State())
    ensures r.Ok? ==> r.value == s.commitment.committedAmount - old(b.lanes)[LaneOf(s.commitment)].settledCumulative
    ensures r.Err? ==> Settled(old(b.State()), tokens, s) == Err(r.error) || accounts != IndividualAccounts(s.commitment)
  {
    hide DeltaApplied, PendingCapped, IndividualAccounts;
    var c := s.commitment;
    var id := LaneOf(c);
    :- Require(c.token in tokens, TokenNotFound);
    var bound := BindIndividual(c, accounts);
    if bound.Err? {
      return Err(bound.error);
    }
    :- Require(c.payer != c.payee, SelfChannelNotAllowed);
    :- Require(id in b.lanes, ChannelNotInitialized);
    :- Require(s.signer == b.lanes[id].authorizedSigner, InvalidSignature);
    :- Require(c.payee in b.slots, ParticipantNotFound);
    :- Require(s.submitter == b.slots[c.payee].owner || c.authorizedSettler == Some(s.submitter), UnauthorizedSettler);
    :- Require(c.committedAmount > b.lanes[id].settledCumulative, CommitmentAmountMustIncrease);
    var amount := c.committedAmount - b.lanes[id].settledCumulative;
    :- Require(c.payer in b.slots, ParticipantNotFound);
    :- Require(Account(c.payer, c.token) in b.balances, TokenNotFound);
    var payerBalance := b.balances[Account(c.payer, c.token)];
    var payerTotal :- Checked64(payerBalance.available + payerBalance.withdrawing);
    var covered :- Checked64(b.lanes[id].lockedBalance + payerTotal);
    :- Require(covered >= amount, InsufficientBalance);
    var consumed := Min(b.lanes[id].lockedBalance, amount);
    var sharedDebit := amount - consumed;
    b.ApplyLaneSettlement(id, c.committedAmount, consumed);
    var _ :- b.ApplyTokenDelta(c.payer, c.token, -sharedDebit);
    var _ :- b.ApplyTokenDelta(c.payee, c.token, amount);
    return Ok(amount);
  }

  // ----- the bundle

  /** `add_balance_delta`: the entry of `p`, found from the front, is updated in place. */
  method AddBalanceDelta(deltas: seq<BalanceDelta>, p: u32, amount: int) returns (r: Result<seq<BalanceDelta>>)
    ensures r == DeltaAdded(deltas, p, amount)
  {
    if amount == 0 {
      return Ok(deltas);
    }
    var i := 0;
    while i < |deltas| && deltas[i].participant != p
      invariant 0 <= i <= |deltas|
      invariant forall k :: 0 <= k < i ==> deltas[k].participant != p
    {
      i := i + 1;
    }
    FindingMovesOn(deltas, i, p, amount);
    if i < |deltas| {
      var sum := deltas[i].amountDelta + amount;
      :- Require(CheckedSigned128(sum).Ok?, NetPositionOverflow);
      return Ok(deltas[i := BalanceDelta(p, sum)]);
    }
    return Ok(deltas + [BalanceDelta(p, amount)]);
  }

  /** What the search from the front finds decides what is added and where. */
  lemma {:induction false} FindingMovesOn(deltas: seq<BalanceDelta>, i: nat, p: u32, amount: int)
    requires i <= |deltas| && amount != 0 && forall k :: 0 <= k < i ==> deltas[k].participant != p
    requires i < |deltas| ==> deltas[i].participant == p
    ensures DeltaAdded(deltas, p, amount) ==
            if i == |deltas| then Ok(deltas + [BalanceDelta(p, amount)])
            else if CheckedSigned128(deltas[i].amountDelta + amount).Err? then Err(NetPositionOverflow)
            else Ok(deltas[i := BalanceDelta(p, deltas[i].amountDelta + amount)])
  {
    if i > 0 {
      var rest := deltas[1..];
      FindingMovesOn(rest, i - 1, p, amount);
      assert deltas == [deltas[0]] + rest;
      assert deltas[0].participant != p;
      assert [deltas[0]] + (rest + [BalanceDelta(p, amount)]) == deltas + [BalanceDelta(p, amount)];
      if i < |deltas| {
        var d := BalanceDelta(p, deltas[i].amountDelta + amount);
        assert [deltas[0]] + rest[i - 1 := d] == deltas[i := d];
      }
    } else if deltas == [] {
      assert deltas + [BalanceDelta(p, amount)] == [BalanceDelta(p, amount)];
    } else {
      var d := BalanceDelta(p, deltas[0].amountDelta + amount);
      assert [d] + deltas[1..] == deltas[0 := d];
    }
  }

  /** The channel bucket of each commitment. */
  function ItemBuckets(items: seq<SignedCommitment>): seq<nat> {
    seq(|items|, i requires 0 <= i < |items| => PairBucket(items[i].commitment.payer, items[i].commitment.payee))
  }

  /** The remaining accounts of a bundle. */
  function BundleAccounts(items: seq<SignedCommitment>): seq<AccountInfo>
    requires items != []
  {
    AccountList(BundleBuckets(items), FirstAppearances(ItemBuckets(items)), items[0].commitment.token)
  }

  ghost predicate KeysMatch(keys: seq<nat>, seen: set<u64>) {
    StrictlySorted(keys) && forall k: u64 :: k in seen <==> k in keys
  }

  /** One commitment of a bundle: checks, its channel bucket, the two deltas, then the lane. */
  method SettleItem(b: BucketAccounts, submitter: Key, owner: Key, item: SignedCommitment, deltas: seq<BalanceDelta>,
                    total: u64, seenKeys: seq<nat>, ghost seen: set<u64>, table: BindingTable, accounts: seq<AccountInfo>)
    returns (r: Result<(seq<BalanceDelta>, u64, seq<nat>)>)
    requires KeysMatch(seenKeys, seen) && table.Valid()
    modifies b`lanes, table
    ensures table.Valid()
    ensures var st := BundleState(old(b.State()), deltas, total, seen);
            var c := item.commitment;
            var resolvable := Resolvable(table.kind, old(table.order), table.base, PairBucket(c.payer, c.payee), accounts);
            && (r.Ok? ==>
                  && ItemApplied(st, submitter, owner, item)
                     == Ok(BundleState(b.State(), r.value.0, r.value.1, seen + {LaneKey(c.payer, c.payee)}))
                  && KeysMatch(r.value.2, seen + {LaneKey(c.payer, c.payee)})
                  && resolvable && table.order == Appended(old(table.order), PairBucket(c.payer, c.payee)))
            && (r.Err? ==> ItemApplied(st, submitter, owner, item) == Err(r.error) || !resolvable)
  {
    hide PairOrdinal, Bound, Resolvable, DeltaAdded, LaneSettled;
    var c := item.commitment;
    var id := LaneOf(c);
    :- Require(submitter == owner || c.authorizedSettler == Some(submitter), UnauthorizedSettler);
    var keys :- InsertUnique(seenKeys, LaneKey(c.payer, c.payee), InvalidCommitmentMessage);
    var pair :- Canonicalize(c.payer, c.payee);
    var position :- table.Resolve(PairOrdinal(pair.lower, pair.higher) / CHANNEL_BUCKET_SLOT_COUNT, accounts,
                                  InvalidCommitmentMessage);
    :- Require(id in b.lanes, ChannelNotInitialized);
    :- Require(item.signer == b.lanes[id].authorizedSigner, InvalidSignature);
    :- Require(c.committedAmount > b.lanes[id].settledCumulative, CommitmentAmountMustIncrease);
    var amount := c.committedAmount - b.lanes[id].settledCumulative;
    var consumed := Min(b.lanes[id].lockedBalance, amount);
    :- Require(c.payer in b.slots, ParticipantNotFound);
    :- Require(Account(c.payer, c.token) in b.balances, TokenNotFound);
    var payerBalance := b.balances[Account(c.payer, c.token)];
    var payerTotal :- Checked64(payerBalance.available + payerBalance.withdrawing);
    var covered :- Checked64(b.lanes[id].lockedBalance + payerTotal);
    :- Require(covered >= amount, InsufficientBalance);
    var newTotal :- Checked64(total + amount);
    var debited :- AddBalanceDelta(deltas, c.payer, -(amount - consumed));
    var credited :- AddBalanceDelta(debited, c.payee, amount);
    b.ApplyLaneSettlement(id, c.committedAmount, consumed);
    return Ok((credited, newTotal, keys));
  }

  lemma {:induction false} PrefixDecides(l: Ledger, ids: seq<u32>, t: u16, positions: seq<int>, n: nat)
    requires |ids| == |positions| && n <= |ids|
    ensures PositionsApplied(l, ids[..n], t, positions[..n]).Err? ==>
              PositionsApplied(l, ids, t, positions) == PositionsApplied(l, ids[..n], t, positions[..n])
    decreases |ids|
  {
    if n == |ids| {
      assert ids[..n] == ids && positions[..n] == positions;
    } else {
      var m := |ids| - 1;
      assert ids[..m][..n] == ids[..n] && positions[..m][..n] == positions[..n];
      PrefixDecides(l, ids[..m], t, positions[..m], n);
    }
  }

  /** The deltas of an order, each applied to its participant. */
  function InOrder(l: Ledger, order: seq<BalanceDelta>, t: u16): Result<Ledger> {
    PositionsApplied(l, Participants(order), t, Amounts(order))
  }

  lemma InOrderStep(l: Ledger, done: seq<BalanceDelta>, d: BalanceDelta, rest: seq<BalanceDelta>, t: u16)
    requires InOrder(l, done, t).Ok?
    ensures InOrder(l, done + [d], t) == DeltaApplied(InOrder(l, done, t).value, d.participant, t, d.amountDelta)
    ensures InOrder(l, done + [d], t).Err? ==> InOrder(l, done + ([d] + rest), t) == InOrder(l, done + [d], t)
  {
    var one, all := done + [d], done + ([d] + rest);
    var n := |done|;
    assert Participants(one)[..n] == Participants(done) && Amounts(one)[..n] == Amounts(done);
    assert Participants(all)[..n + 1] == Participants(one) && Amounts(all)[..n + 1] == Amounts(one);
    PrefixDecides(l, Participants(all), t, Amounts(all), n + 1);
  }

  lemma InBucketNext(deltas: seq<BalanceDelta>, bucket: u32, j: nat)
    requires j < |deltas|
    ensures InBucket(deltas[j..], bucket)
            == (if BucketOf(deltas[j].participant) == bucket then [deltas[j]] else []) + InBucket(deltas[j + 1..], bucket)
  {
    assert deltas[j..][0] == deltas[j] && deltas[j..][1..] == deltas[j + 1..];
  }

  /** One delta of the bucket, between those applied and those to come. */
  lemma BucketStep(l: Ledger, done: seq<BalanceDelta>, applied: seq<BalanceDelta>, d: BalanceDelta,
                   later: seq<BalanceDelta>, rest: seq<BalanceDelta>, t: u16)
    requires InOrder(l, done + applied, t).Ok?
    ensures var next := DeltaApplied(InOrder(l, done + applied, t).value, d.participant, t, d.amountDelta);
            && InOrder(l, done + (applied + [d]), t) == next
            && (next.Err? ==> InOrder(l, done + ((applied + ([d] + later)) + rest), t) == next)
  {
    hide InOrder, DeltaApplied;
    InOrderStep(l, done + applied, d, later + rest, t);
    assert (done + applied) + [d] == done + (applied + [d]);
    assert (done + applied) + ([d] + (later + rest)) == done + ((applied + ([d] + later)) + rest);
  }

  /** The deltas of one bucket. */
  method ApplyBucket(b: BucketAccounts, bucket: u32, deltas: seq<BalanceDelta>, t: u16,
                     ghost l: Ledger, ghost done: seq<BalanceDelta>, ghost rest: seq<BalanceDelta>)
    returns (r: Result<()>)
    requires InOrder(l, done, t) == Ok(b.State())
    modifies b`balances
    ensures r.Ok? ==> InOrder(l, done + InBucket(deltas, bucket), t) == Ok(b.State())
    ensures r.Err? ==> InOrder(l, done + (InBucket(deltas, bucket) + rest), t) == Err(r.error)
  {
    hide DeltaApplied, PositionsApplied, InOrder, InBucket;
    var j := 0;
    ghost var applied := [];
    assert deltas[0..] == deltas;
    assert done + applied == done;
    while j < |deltas|
      invariant 0 <= j <= |deltas|
      invariant applied + InBucket(deltas[j..], bucket) == InBucket(deltas, bucket)
      invariant InOrder(l, done + applied, t) == Ok(b.State())
    {
      InBucketNext(deltas, bucket, j);
      if BucketOf(deltas[j].participant) == bucket {
        BucketStep(l, done, applied, deltas[j], InBucket(deltas[j + 1..], bucket), rest, t);
        assert applied + ([deltas[j]] + InBucket(deltas[j + 1..], bucket))
               == (applied + [deltas[j]]) + InBucket(deltas[j + 1..], bucket);
        var _ :- b.ApplyTokenDelta(deltas[j].participant, t, deltas[j].amountDelta);
        applied := applied + [deltas[j]];
      }
      j := j + 1;
    }
    EmptyBucket(bucket);
    assert deltas[j..] == [] && applied == InBucket(deltas, bucket);
    return Ok(());
  }

  lemma EmptyBucket(bucket: u32)
    ensures InBucket([], bucket) == []
  {
  }

  lemma FirstAppearancesGrow(xs: seq<u32>, x: u32)
    ensures FirstAppearances(xs + [x]) == Appended(FirstAppearances(xs), x)
  {
    assert (xs + [x])[..|xs|] == xs;
  }

  /** `insert_seen_sorted_u32`, with the list of buckets it decides on. */
  method NoteBucket(seen: seq<nat>, buckets: seq<u32>, bucket: u32) returns (seen': seq<nat>, buckets': seq<u32>)
    requires StrictlySorted(seen) && forall x: u32 :: x in seen <==> x in buckets
    ensures StrictlySorted(seen') && forall x: u32 :: x in seen' <==> x in buckets'
    ensures buckets' == Appended(buckets, bucket)
  {
    var inserted := InsertUnique(seen, bucket, InvalidCommitmentMessage);
    if inserted.Ok? {
      return inserted.value, buckets + [bucket];
    }
    return seen, buckets;
  }

  /** The buckets that a list of commitments names, the payee's first. */
  function NamedBuckets(payee: u32, items: seq<SignedCommitment>): seq<u32> {
    [BucketOf(payee)] + seq(|items|, i requires 0 <= i < |items| => BucketOf(items[i].commitment.payer))
  }

  lemma NextItem(items: seq<SignedCommitment>, i: nat, t: u16, payee: u32)
    requires i < |items|
    ensures FirstAppearances(NamedBuckets(payee, items[..i + 1]))
            == Appended(FirstAppearances(NamedBuckets(payee, items[..i])), BucketOf(items[i].commitment.payer))
    ensures Uniform(items[i..], t, payee) ==
            if items[i].commitment.token != t then Err(InvalidCommitmentMessage)
            else if items[i].commitment.payee != payee then Err(AccountIdMismatch)
            else Uniform(items[i + 1..], t, payee)
  {
    assert items[i..][0] == items[i] && items[i..][1..] == items[i + 1..];
    FirstAppearancesGrow(NamedBuckets(payee, items[..i]), BucketOf(items[i].commitment.payer));
    assert NamedBuckets(payee, items[..i]) + [BucketOf(items[i].commitment.payer)] == NamedBuckets(payee, items[..i + 1]);
  }

  /** The first pass: one token, one payee, and the buckets in order of first appearance. */
  method CollectBuckets(items: seq<SignedCommitment>) returns (r: Result<seq<u32>>)
    requires items != []
    ensures var t, payee := items[0].commitment.token, items[0].commitment.payee;
            && (r.Ok? ==> Uniform(items, t, payee).Ok? && r.value == BundleBuckets(items))
            && (r.Err? ==> Uniform(items, t, payee) == Err(r.error))
  {
    var t, payee := items[0].commitment.token, items[0].commitment.payee;
    var seen: seq<nat>, buckets: seq<u32> := [], [];
    seen, buckets := NoteBucket(seen, buckets, BucketOf(payee));
    var i := 0;
    assert items[0..] == items;
    assert NamedBuckets(payee, items[..0]) == [BucketOf(payee)];
    FirstAppearancesGrow([], BucketOf(payee));
    while i < |items|
      invariant 0 <= i <= |items|
      invariant StrictlySorted(seen) && forall x: u32 :: x in seen <==> x in buckets
      invariant buckets == FirstAppearances(NamedBuckets(payee, items[..i]))
      invariant Uniform(items, t, payee) == Uniform(items[i..], t, payee)
    {
      hide FirstAppearances, NamedBuckets, Uniform, Appended;
      var c := items[i].commitment;
      NextItem(items, i, t, payee);
      :- Require(c.token == t, InvalidCommitmentMessage);
      :- Require(c.payee == payee, AccountIdMismatch);
      seen, buckets := NoteBucket(seen, buckets, BucketOf(c.payer));
      i := i + 1;
    }
    assert items[..i] == items;
    return Ok(buckets);
  }

  /** The table holds the channel buckets of the first `n` commitments. */
  ghost predicate ItemsBound(order: seq<nat>, base: nat, t: u16, items: seq<SignedCommitment>, n: nat,
                             accounts: seq<AccountInfo>)
    requires n <= |items|
  {
    && order == FirstAppearances(ItemBuckets(items[..n]))
    && Supplied(OfChannels(t), ItemBuckets(items[..n]), base, accounts)
  }

  lemma ItemsBoundNext(base: nat, t: u16, items: seq<SignedCommitment>, n: nat, accounts: seq<AccountInfo>,
                       order: seq<nat>)
    requires n < |items| && ItemsBound(order, base, t, items, n, accounts)
    ensures var bucket := PairBucket(items[n].commitment.payer, items[n].commitment.payee);
            && (Resolvable(OfChannels(t), order, base, bucket, accounts) ==>
                  ItemsBound(Appended(order, bucket), base, t, items, n + 1, accounts))
            && (!Resolvable(OfChannels(t), order, base, bucket, accounts) ==>
                  !Supplied(OfChannels(t), ItemBuckets(items), base, accounts))
  {
    hide Resolvable;
    var buckets := ItemBuckets(items);
    assert ItemBuckets(items[..n]) == buckets[..n] && ItemBuckets(items[..n + 1]) == buckets[..n + 1];
    SuppliedNext(OfChannels(t), buckets, base, accounts, n);
  }

  lemma NoItemsBound(base: nat, t: u16, items: seq<SignedCommitment>, accounts: seq<AccountInfo>)
    requires base <= |accounts|
    ensures ItemsBound([], base, t, items, 0, accounts)
  {
    assert ItemBuckets(items[..0]) == [];
    NothingBound(OfChannels(t), base, accounts);
  }

  lemma AllItemsBound(order: seq<nat>, base: nat, t: u16, items: seq<SignedCommitment>, accounts: seq<AccountInfo>)
    requires ItemsBound(order, base, t, items, |items|, accounts)
    ensures order == FirstAppearances(ItemBuckets(items)) && Supplied(OfChannels(t), ItemBuckets(items), base, accounts)
  {
    assert items[..|items|] == items;
  }

  lemma NoKeys()
    ensures KeysMatch([], {})
  {
  }

  /** The second pass: the lanes, and what is left to do to the balances. */
  method SettleItems(b: BucketAccounts, submitter: Key, owner: Key, items: seq<SignedCommitment>, t: u16, base: nat,
                     accounts: seq<AccountInfo>)
    returns (r: Result<(seq<BalanceDelta>, u64, nat)>)
    requires base <= |accounts|
    modifies b`lanes
    ensures var spec := ItemsApplied(BundleStart(old(b.State())), submitter, owner, items);
            var supplied := Supplied(OfChannels(t), ItemBuckets(items), base, accounts);
            && (r.Ok? ==> spec.Ok? && spec.value.ledger == b.State() && spec.value.deltas == r.value.0
                          && spec.value.total == r.value.1
                          && supplied && r.value.2 == base + |FirstAppearances(ItemBuckets(items))|)
            && (r.Err? ==> spec == Err(r.error) || !supplied)
  {
    hide ItemApplied, Supplied, ItemsBound, Resolvable, Bound, KeysMatch, Appended, FirstAppearances, ItemBuckets;
    var deltas: seq<BalanceDelta>, total: u64, keys: seq<nat> := [], 0, [];
    var table := new BindingTable(OfChannels(t), base);
    ghost var seen: set<u64> := {};
    ghost var start := BundleStart(b.State());
    var i := 0;
    assert items[0..] == items;
    NoItemsBound(base, t, items, accounts);
    NoKeys();
    while i < |items|
      invariant 0 <= i <= |items|
      invariant KeysMatch(keys, seen)
      invariant fresh(table) && table.Valid() && table.kind == OfChannels(t) && table.base == base
      invariant ItemsBound(table.order, base, t, items, i, accounts)
      invariant ItemsApplied(start, submitter, owner, items)
                == ItemsApplied(BundleState(b.State(), deltas, total, seen), submitter, owner, items[i..])
    {
      assert items[i..][0] == items[i] && items[i..][1..] == items[i + 1..];
      ItemsBoundNext(base, t, items, i, accounts, table.order);
      var settled :- SettleItem(b, submitter, owner, items[i], deltas, total, keys, seen, table, accounts);
      deltas, total, keys := settled.0, settled.1, settled.2;
      seen := seen + {LaneKey(items[i].commitment.payer, items[i].commitment.payee)};
      i := i + 1;
    }
    AllItemsBound(table.order, base, t, items, accounts);
    var next := table.Next();
    return Ok((deltas, total, next));
  }

  /** The third pass: bucket by bucket, every delta once. */
  method ApplyBuckets(b: BucketAccounts, buckets: seq<u32>, deltas: seq<BalanceDelta>, t: u16) returns (r: Result<()>)
    modifies b`balances
    ensures r.Ok? ==> InOrder(old(b.State()), ByBucket(buckets, deltas), t) == Ok(b.State())
    ensures r.Err? ==> InOrder(old(b.State()), ByBucket(buckets, deltas), t) == Err(r.error)
  {
    hide InBucket, PositionsApplied;
    ghost var l, done := b.State(), [];
    var k := 0;
    assert buckets[0..] == buckets;
    NothingInOrder(l, t);
    while k < |buckets|
      invariant 0 <= k <= |buckets|
      invariant done + ByBucket(buckets[k..], deltas) == ByBucket(buckets, deltas)
      invariant InOrder(l, done, t) == Ok(b.State())
    {
      assert buckets[k..][0] == buckets[k] && buckets[k..][1..] == buckets[k + 1..];
      var _ :- ApplyBucket(b, buckets[k], deltas, t, l, done, ByBucket(buckets[k + 1..], deltas));
      done := done + InBucket(deltas, buckets[k]);
      k := k + 1;
    }
    assert done == ByBucket(buckets, deltas);
    return Ok(());
  }

  lemma NothingInOrder(l: Ledger, t: u16)
    ensures InOrder(l, [], t) == Ok(l)
  {
  }

  lemma BundleAccountsSplit(items: seq<SignedCommitment>, accounts: seq<AccountInfo>)
    requires items != []
    ensures var n, m := |BundleBuckets(items)|, |FirstAppearances(ItemBuckets(items))|;
            accounts == BundleAccounts(items) <==>
              && Lists(OfParticipants, BundleBuckets(items), 0, accounts)
              && Supplied(OfChannels(items[0].commitment.token), ItemBuckets(items), n, accounts)
              && n + m == |accounts|
    ensures Lists(OfParticipants, BundleBuckets(items), 0, accounts) ==> |BundleBuckets(items)| <= |accounts|
  {
    hide FirstAppearances, BundleBuckets, ItemBuckets;
    ListsTogether(BundleBuckets(items), FirstAppearances(ItemBuckets(items)), items[0].commitment.token, accounts);
  }

  /** With the accounts of the bundle, and no others, the handler computes the specified bundle,
      result and error alike; with any other accounts it fails. */
  method SettleCommitmentsTogether(b: BucketAccounts, tokens: set<u16>, submitter: Key, items: seq<SignedCommitment>,
                                   accounts: seq<AccountInfo>)
    returns (r: Result<u64>)
    modifies b
    ensures r.Ok? ==> items != [] && accounts == BundleAccounts(items)
    ensures r.Ok? ==> BundleSettled(old(b.State()), tokens, submitter, items) == Ok(BundleOutcome(b.State(), r.value))
    ensures r.Err? ==> BundleSettled(old(b.State()), tokens, submitter, items) == Err(r.error)
                       || (items != [] && accounts != BundleAccounts(items))
  {
    hide ItemsApplied, PositionsApplied, Uniform, ByBucket, BundleBuckets, BundleAccounts, Supplied, Lists, ItemBuckets;
    :- Require(items != [], InvalidCommitmentMessage);
    var t, payee := items[0].commitment.token, items[0].commitment.payee;
    BundleAccountsSplit(items, accounts);
    var buckets :- CollectBuckets(items);
    :- Require(t in tokens, TokenNotFound);
    :- Require(|accounts| >= |buckets|, InvalidCommitmentMessage);
    var _ :- VerifyParticipants(buckets, accounts);
    :- Require(payee in b.slots, ParticipantNotFound);
    var gathered :- SettleItems(b, submitter, b.slots[payee].owner, items, t, |buckets|, accounts);
    :- Require(gathered.2 == |accounts|, InvalidCommitmentMessage);
    var _ :- ApplyBuckets(b, buckets, gathered.0, t);
    return Ok(gathered.1);
  }
}
