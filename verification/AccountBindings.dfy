/** The bucket accounts of a settlement: each supplied once, in order of first appearance, and found
    again by binary search. */
module AccountBindings {
  import opened Machine
  import opened Ledgers
  import opened SortedVectors
  import opened LaneLookup
  import opened SettleCommitmentBundle

  /** What `verify_account_info` can tell about an account. */
  datatype AccountInfo =
    | ParticipantBucketInfo(bucket: nat)
    | ChannelBucketInfo(token: u16, bucket: nat)
    | OtherInfo

  /** Which accounts a table binds. */
  datatype Kind = OfParticipants | OfChannels(token: u16) {
    function Info(bucket: nat): AccountInfo {
      match this
      case OfParticipants => ParticipantBucketInfo(bucket)
      case OfChannels(token) => ChannelBucketInfo(token, bucket)
    }
  }

  ghost predicate NoRepeats(xs: seq<nat>) {
    forall i, j :: 0 <= i < j < |xs| ==> xs[i] != xs[j]
  }

  /** `buckets` is sorted, and holds what `order` holds; each is bound to its place in `order`. */
  ghost predicate Bound(buckets: seq<nat>, positions: seq<nat>, order: seq<nat>, base: nat) {
    && StrictlySorted(buckets) && NoRepeats(order)
    && |positions| == |buckets| == |order|
    && (forall x :: x in buckets <==> x in order)
    && (forall j :: 0 <= j < |buckets| ==>
          base <= positions[j] < base + |order| && order[positions[j] - base] == buckets[j])
  }

  lemma BindingOneMore(buckets: seq<nat>, positions: seq<nat>, order: seq<nat>, base: nat, bucket: nat, at: nat)
    requires Bound(buckets, positions, order, base) && bucket !in order && at <= |buckets|
    requires forall i :: 0 <= i < at ==> buckets[i] < bucket
    requires forall i :: at <= i < |buckets| ==> bucket < buckets[i]
    ensures Bound(Inserted(buckets, at, bucket), Inserted(positions, at, base + |positions|), order + [bucket], base)
  {
    var bs, ps := Inserted(buckets, at, bucket), Inserted(positions, at, base + |positions|);
    InsertedSorted(buckets, at, bucket);
    InsertedMembers(buckets, at, bucket);
    assert |bs| == |ps| == |order| + 1;
    forall j | 0 <= j < |bs|
      ensures base <= ps[j] < base + |order| + 1 && (order + [bucket])[ps[j] - base] == bs[j]
    {
      hide Inserted;
      InsertedAt(buckets, at, bucket, j);
      InsertedAt(positions, at, base + |positions|, j);
    }
  }

  /** A sorted vector of bucket identifiers with the account position each is bound to. `order` holds
      the identifiers in the order in which they were bound. */
  class BindingTable {
    const kind: Kind
    const base: nat
    var buckets: seq<nat>
    var positions: seq<nat>
    ghost var order: seq<nat>

    ghost predicate Valid()
      reads this
    {
      Bound(buckets, positions, order, base)
    }

    constructor (kind: Kind, base: nat)
      ensures Valid() && order == [] && this.kind == kind && this.base == base
    {
      this.kind, this.base := kind, base;
      buckets, positions, order := [], [], [];
    }

    /** Binds `bucket` to the next position. */
    method Bind(bucket: nat)
      requires Valid() && bucket !in order
      modifies this
      ensures Valid() && order == old(order) + [bucket]
    {
      var found, at := BinarySearch(buckets, bucket);
      BindingOneMore(buckets, positions, order, base, bucket, at);
      buckets, positions := Inserted(buckets, at, bucket), Inserted(positions, at, base + |positions|);
      order := order + [bucket];
    }

    /** The first position that is still free. */
    method Next() returns (next: nat)
      requires Valid()
      ensures next == base + |order|
    {
      return base + |positions|;
    }

    /** The account of `bucket`: bound already, or the next one that was supplied. */
    method Resolve(bucket: nat, accounts: seq<AccountInfo>, error: Error) returns (r: Result<nat>)
      requires Valid()
      modifies this
      ensures Valid()
      ensures r.Ok? <==> Resolvable(kind, old(order), base, bucket, accounts)
      ensures r.Ok? ==> order == Appended(old(order), bucket)
      ensures r.Ok? ==> base <= r.value < base + |order| && order[r.value - base] == bucket
    {
      var found, at := BinarySearch(buckets, bucket);
      if found {
        return Ok(positions[at]);
      }
      var next := base + |positions|;
      :- Require(next < |accounts|, error);
      :- Require(accounts[next] == kind.Info(bucket), BucketAccountMismatch);
      Bind(bucket);
      return Ok(next);
    }
  }

  ghost predicate PrefixOf(xs: seq<nat>, ys: seq<nat>) {
    |xs| <= |ys| && ys[..|xs|] == xs
  }

  lemma {:induction false} FirstAppearancesOfPrefix(xs: seq<nat>, n: nat)
    requires n <= |xs|
    ensures PrefixOf(FirstAppearances(xs[..n]), FirstAppearances(xs))
    decreases |xs|
  {
    if n < |xs| {
      var m := |xs| - 1;
      assert xs[..m][..n] == xs[..n];
      FirstAppearancesOfPrefix(xs[..m], n);
    } else {
      assert xs[..n] == xs;
    }
  }

  function Infos(kind: Kind, buckets: seq<nat>): seq<AccountInfo> {
    seq(|buckets|, i requires 0 <= i < |buckets| => kind.Info(buckets[i]))
  }

  /** The accounts from `base` on are those of `order`. */
  ghost predicate Lists(kind: Kind, order: seq<nat>, base: nat, accounts: seq<AccountInfo>) {
    base + |order| <= |accounts| && accounts[base..base + |order|] == Infos(kind, order)
  }

  /** The accounts from `base` on are those of the buckets, each once, in order of first appearance. */
  ghost predicate Supplied(kind: Kind, buckets: seq<nat>, base: nat, accounts: seq<AccountInfo>) {
    Lists(kind, FirstAppearances(buckets), base, accounts)
  }

  lemma ListsPrefix(kind: Kind, xs: seq<nat>, ys: seq<nat>, base: nat, accounts: seq<AccountInfo>)
    requires PrefixOf(xs, ys) && Lists(kind, ys, base, accounts)
    ensures Lists(kind, xs, base, accounts)
  {
    var all := accounts[base..base + |ys|];
    assert accounts[base..base + |xs|] == all[..|xs|];
    assert Infos(kind, ys)[..|xs|] == Infos(kind, xs);
  }

  lemma ListsNext(kind: Kind, order: seq<nat>, bucket: nat, base: nat, accounts: seq<AccountInfo>)
    requires Lists(kind, order, base, accounts)
    ensures Lists(kind, order + [bucket], base, accounts)
            <==> base + |order| < |accounts| && accounts[base + |order|] == kind.Info(bucket)
  {
    var n := |order|;
    assert Infos(kind, order + [bucket]) == Infos(kind, order) + [kind.Info(bucket)];
    if base + n < |accounts| {
      assert accounts[base..base + n + 1] == accounts[base..base + n] + [accounts[base + n]];
    }
  }

  /** One more bucket can be resolved exactly when the list goes on as it should. */
  lemma SuppliedNext(kind: Kind, buckets: seq<nat>, base: nat, accounts: seq<AccountInfo>, n: nat)
    requires n < |buckets| && Supplied(kind, buckets[..n], base, accounts)
    ensures var bound := FirstAppearances(buckets[..n]);
            && FirstAppearances(buckets[..n + 1]) == Appended(bound, buckets[n])
            && (Supplied(kind, buckets[..n + 1], base, accounts) <==>
                  Resolvable(kind, bound, base, buckets[n], accounts))
    ensures Supplied(kind, buckets, base, accounts) ==> Supplied(kind, buckets[..n + 1], base, accounts)
  {
    hide Lists;
    assert buckets[..n + 1][..n] == buckets[..n] && buckets[..n + 1][n] == buckets[n];
    ListsNext(kind, FirstAppearances(buckets[..n]), buckets[n], base, accounts);
    if Supplied(kind, buckets, base, accounts) {
      FirstAppearancesOfPrefix(buckets, n + 1);
      ListsPrefix(kind, FirstAppearances(buckets[..n + 1]), FirstAppearances(buckets), base, accounts);
    }
  }

  /** `positions` sends each bucket to the account at its place in `order`. */
  ghost predicate Resolved(positions: seq<nat>, buckets: seq<nat>, order: seq<nat>, base: nat) {
    && |positions| == |buckets|
    && forall k :: 0 <= k < |buckets| ==>
         base <= positions[k] < base + |order| && order[positions[k] - base] == buckets[k]
  }

  lemma ResolvedNext(positions: seq<nat>, buckets: seq<nat>, order: seq<nat>, base: nat, bucket: nat, position: nat)
    requires Resolved(positions, buckets, order, base)
    requires base <= position < base + |Appended(order, bucket)| && Appended(order, bucket)[position - base] == bucket
    ensures Resolved(positions + [position], buckets + [bucket], Appended(order, bucket), base)
  {
  }

  /** Every resolved position holds the account of its own bucket. */
  lemma ResolvedAccounts(kind: Kind, positions: seq<nat>, buckets: seq<nat>, order: seq<nat>, base: nat,
                         accounts: seq<AccountInfo>)
    requires Resolved(positions, buckets, order, base) && Lists(kind, order, base, accounts)
    ensures |positions| == |buckets|
    ensures forall k :: 0 <= k < |buckets| ==>
              positions[k] < |accounts| && accounts[positions[k]] == kind.Info(buckets[k])
  {
    forall k | 0 <= k < |buckets|
      ensures positions[k] < |accounts| && accounts[positions[k]] == kind.Info(buckets[k])
    {
      assert accounts[positions[k]] == accounts[base..base + |order|][positions[k] - base];
    }
  }

  /** Binds a list of buckets, in order. It is accepted exactly when the right accounts were
      supplied, and then resolves every bucket to its account at its first-appearance position. */
  method BindInOrder(kind: Kind, buckets: seq<nat>, base: nat, accounts: seq<AccountInfo>, error: Error)
    returns (r: Result<(seq<nat>, nat)>)
    requires base <= |accounts|
    ensures r.Ok? <==> Supplied(kind, buckets, base, accounts)
    ensures r.Ok? ==>
              && r.value.1 == base + |FirstAppearances(buckets)|
              && Resolved(r.value.0, buckets, FirstAppearances(buckets), base)
              && (forall k :: 0 <= k < |buckets| ==>
                    r.value.0[k] < |accounts| && accounts[r.value.0[k]] == kind.Info(buckets[k]))
  {
    hide Resolved, Bound;
    var table := new BindingTable(kind, base);
    var positions: seq<nat> := [];
    var i := 0;
    assert buckets[..0] == [];
    NothingBound(kind, base, accounts);
    while i < |buckets|
      invariant 0 <= i <= |buckets| && fresh(table) && table.Valid()
      invariant table.kind == kind && table.base == base
      invariant table.order == FirstAppearances(buckets[..i])
      invariant Supplied(kind, buckets[..i], base, accounts)
      invariant Resolved(positions, buckets[..i], table.order, base)
    {
      hide FirstAppearances, Supplied;
      SuppliedNext(kind, buckets, base, accounts, i);
      ghost var order := table.order;
      var position :- table.Resolve(buckets[i], accounts, error);
      ResolvedNext(positions, buckets[..i], order, base, buckets[i], position);
      assert buckets[..i] + [buckets[i]] == buckets[..i + 1];
      positions := positions + [position];
      i := i + 1;
    }
    assert buckets[..i] == buckets;
    ResolvedAccounts(kind, positions, buckets, table.order, base, accounts);
    var next := table.Next();
    return Ok((positions, next));
  }

  lemma NothingBound(kind: Kind, base: nat, accounts: seq<AccountInfo>)
    requires base <= |accounts|
    ensures Supplied(kind, [], base, accounts) && Resolved([], [], FirstAppearances<nat>([]), base)
  {
    assert accounts[base..base] == [];
  }

  // ----- the account list of a settlement

  /** The channel bucket of a pair; nobody has a channel with himself. */
  function PairBucket(p: u32, q: u32): nat {
    match Canonicalize(p, q)
    case Ok(c) => PairOrdinal(c.lower, c.higher) / CHANNEL_BUCKET_SLOT_COUNT
    case Err(_) => 0
  }

  function ParticipantBuckets(ids: seq<u32>): seq<nat> {
    seq(|ids|, i requires 0 <= i < |ids| => BucketOf(ids[i]))
  }

  /** Participant buckets first, channel buckets after them, and nothing else. */
  function AccountList(participants: seq<nat>, channels: seq<nat>, token: u16): seq<AccountInfo> {
    Infos(OfParticipants, participants) + Infos(OfChannels(token), channels)
  }

  /** The list is supplied exactly when each part is and no account is left over. */
  lemma ListsTogether(ps: seq<nat>, cs: seq<nat>, token: u16, accounts: seq<AccountInfo>)
    ensures accounts == AccountList(ps, cs, token) <==>
              Lists(OfParticipants, ps, 0, accounts) && Lists(OfChannels(token), cs, |ps|, accounts)
              && |ps| + |cs| == |accounts|
  {
    if |ps| + |cs| == |accounts| {
      assert accounts == accounts[0..|ps|] + accounts[|ps|..|ps| + |cs|];
    }
  }

  /** `bucket` is bound already, or the next account is its own. */
  ghost predicate Resolvable(kind: Kind, order: seq<nat>, base: nat, bucket: nat, accounts: seq<AccountInfo>) {
    bucket in order || (base + |order| < |accounts| && accounts[base + |order|] == kind.Info(bucket))
  }

  /** The channel account of a pair is the one that holds its lanes. */
  lemma PairBucketHoldsLane(id: LaneId)
    requires id.payer != id.payee
    ensures PlaceOf(id).Ok? && PairBucket(id.payer, id.payee) == PlaceOf(id).value.bucket
    ensures PairBucket(id.payer, id.payee) == PairBucket(id.payee, id.payer)
  {
  }
}
