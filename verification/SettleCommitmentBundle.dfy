/** Many commitments to one payee settled in one transaction. */
module SettleCommitmentBundle {
  import opened Machine
  import opened Ledgers
  import opened SettleIndividual
  import opened BalanceDeltas

  const PARTICIPANT_BUCKET_SLOT_COUNT: nat := 9

  function BucketOf(p: u32): u32 {
    p / PARTICIPANT_BUCKET_SLOT_COUNT
  }

  /** Nine participants share a bucket. */
  lemma NineToABucket(p: u32)
    ensures 9 * BucketOf(p) <= p < 9 * BucketOf(p) + 9
  {
  }

  /** One entry of the Ed25519 table: the verified signer and the commitment it signed. */
  datatype SignedCommitment = SignedCommitment(signer: Key, commitment: Commitment)

  /** `lane_key`. */
  function LaneKey(payer: u32, payee: u32): u64 {
    payer * 0x1_0000_0000 + payee
  }

  /** The first pass: every commitment names the token and the payee of the first. */
  function Uniform(items: seq<SignedCommitment>, token: u16, payee: u32): Result<()> {
    if items == [] then Ok(())
    else
      :- Require(items[0].commitment.token == token, InvalidCommitmentMessage);
      :- Require(items[0].commitment.payee == payee, AccountIdMismatch);
      Uniform(items[1..], token, payee)
  }

  // ----- second pass: the lanes and the gathered deltas

  datatype BundleState = BundleState(ledger: Ledger, deltas: seq<BalanceDelta>, total: u64, seen: set<u64>)

  function ItemExamined(l: Ledger, seen: set<u64>, submitter: Key, owner: Key, item: SignedCommitment)
    : Result<Advance>
  {
    var c := item.commitment;
    :- Require(submitter == owner || c.authorizedSettler == Some(submitter), UnauthorizedSettler);
    :- Require(LaneKey(c.payer, c.payee) !in seen, InvalidCommitmentMessage);
    var lane :- ReadLane(l, LaneOf(c));
    :- Require(item.signer == lane.authorizedSigner, InvalidSignature);
    :- Require(c.committedAmount > lane.settledCumulative, CommitmentAmountMustIncrease);
    var payerTotal :- ReadTotal(l, c.payer, c.token);
    var covered :- Checked64(lane.lockedBalance + payerTotal);
    var advance := AdvanceOf(lane, c.committedAmount);
    :- Require(covered >= advance.amount, InsufficientBalance);
    Ok(advance)
  }

  function ItemApplied(st: BundleState, submitter: Key, owner: Key, item: SignedCommitment): Result<BundleState> {
    var c := item.commitment;
    var a :- ItemExamined(st.ledger, st.seen, submitter, owner, item);
    var total :- Checked64(st.total + a.amount);
    var debited :- DeltaAdded(st.deltas, c.payer, -(a.amount - a.consumed));
    var credited :- DeltaAdded(debited, c.payee, a.amount);
    var lanes := st.ledger.lanes[LaneOf(c) := LaneAdvanced(st.ledger.lanes[LaneOf(c)], c.committedAmount)];
    Ok(BundleState(st.ledger.(lanes := lanes), credited, total, st.seen + {LaneKey(c.payer, c.payee)}))
  }

  function ItemsApplied(st: BundleState, submitter: Key, owner: Key, items: seq<SignedCommitment>)
    : Result<BundleState>
    decreases |items|
  {
    if items == [] then Ok(st)
    else
      var st' :- ItemApplied(st, submitter, owner, items[0]);
      ItemsApplied(st', submitter, owner, items[1..])
  }

  // ----- third pass: bucket by bucket

  function Appended<T(==)>(xs: seq<T>, x: T): seq<T> {
    if x in xs then xs else xs + [x]
  }

  /** Each value once, in the order of first appearance. */
  function FirstAppearances<T(==)>(xs: seq<T>): seq<T> {
    if xs == [] then [] else Appended(FirstAppearances(xs[..|xs| - 1]), xs[|xs| - 1])
  }

  /** The buckets of the payee and of the payers, as the account list names them. */
  function BundleBuckets(items: seq<SignedCommitment>): seq<u32>
    requires items != []
  {
    FirstAppearances<u32>([BucketOf(items[0].commitment.payee)]
                     + seq(|items|, i requires 0 <= i < |items| => BucketOf(items[i].commitment.payer)))
  }

  function InBucket(deltas: seq<BalanceDelta>, bucket: u32): seq<BalanceDelta> {
    if deltas == [] then []
    else (if BucketOf(deltas[0].participant) == bucket then [deltas[0]] else [])
         + InBucket(deltas[1..], bucket)
  }

  /** The order in which the nested loop over buckets and deltas applies the deltas. */
  function ByBucket(buckets: seq<u32>, deltas: seq<BalanceDelta>): seq<BalanceDelta> {
    if buckets == [] then [] else InBucket(deltas, buckets[0]) + ByBucket(buckets[1..], deltas)
  }

  // ----- the handler

  datatype BundleOutcome = BundleOutcome(ledger: Ledger, total: u64)

  function BundleStart(l: Ledger): BundleState {
    BundleState(l, [], 0, {})
  }

  function BundleSettled(l: Ledger, tokens: set<u16>, submitter: Key, items: seq<SignedCommitment>)
    : Result<BundleOutcome>
  {
    if items == [] then Err(InvalidCommitmentMessage)
    else
      var t, payee := items[0].commitment.token, items[0].commitment.payee;
      var _ :- Uniform(items, t, payee);
      :- Require(t in tokens, TokenNotFound);
      var owner :- ReadOwner(l, payee);
      var st :- ItemsApplied(BundleStart(l), submitter, owner, items);
      var order := ByBucket(BundleBuckets(items), st.deltas);
      var l' :- PositionsApplied(st.ledger, Participants(order), t, Amounts(order));
      Ok(BundleOutcome(l', st.total))
  }
}
