/** Settlement of signed commitments from the bytes of the Ed25519 instruction. */
module SettlementMessages {
  import opened Machine
  import opened SettleIndividual
  import opened SettleCommitmentBundle
  import opened Buckets
  import opened AccountBindings
  import opened SettlementHandlers
  import opened Varint
  import opened CommitmentMessages
  import opened Ed25519Table
  import opened ScalarReduction

  // ----- keys

  /** A public key as the number that its bytes spell. */
  function KeyOf(k: PublicKey): Key {
    Value(k)
  }

  lemma {:induction false} ValueIsInjective(a: Bytes, b: Bytes)
    requires |a| == |b| && Value(a) == Value(b)
    ensures a == b
    decreases |a|
  {
    if a != [] {
      var n := |a| - 1;
      ValueIsInjective(a[..n], b[..n]);
      assert a == a[..n] + [a[n]] && b == b[..n] + [b[n]];
    }
  }

  /** Comparing keys as numbers is comparing their bytes. */
  lemma KeysAreBytes(a: PublicKey, b: PublicKey)
    ensures KeyOf(a) == KeyOf(b) <==> a == b
  {
    if KeyOf(a) == KeyOf(b) {
      ValueIsInjective(a, b);
    }
  }

  function SettlerOf(settler: Option<PublicKey>): Option<Key> {
    match settler
    case None => None
    case Some(k) => Some(KeyOf(k))
  }

  function CommitmentOf(f: CommitmentFields): Commitment {
    Commitment(f.payer, f.payee, f.token, f.committedAmount, SettlerOf(f.authorizedSettler))
  }

  // ----- the signed commitments of an instruction

  /** Row `i` of the table: the verified signer and the commitment it signed. */
  function SignedItem(data: Bytes, i: nat, domain: Domain): Result<SignedCommitment> {
    var offsets :- ParseOffsets(data, i);
    var signer :- ExtractPubkey(data, offsets);
    var message :- ExtractMessage(data, offsets);
    var fields :- Parsed(message, domain);
    Ok(SignedCommitment(KeyOf(signer), CommitmentOf(fields)))
  }

  function SignedItems(data: Bytes, n: nat, domain: Domain): (r: Result<seq<SignedCommitment>>)
    ensures r.Ok? ==> |r.value| == n
  {
    if n == 0 then Ok([])
    else
      var front :- SignedItems(data, n - 1, domain);
      var item :- SignedItem(data, n - 1, domain);
      Ok(front + [item])
  }

  lemma {:induction false} PrefixOfItems(data: Bytes, n: nat, domain: Domain, i: nat)
    requires i <= n && SignedItems(data, i, domain).Err?
    ensures SignedItems(data, n, domain) == SignedItems(data, i, domain)
    decreases n
  {
    hide SignedItem;
    if i < n {
      PrefixOfItems(data, n - 1, domain, i);
    }
  }

  method ReadItem(data: Bytes, i: nat, domain: Domain) returns (r: Result<SignedCommitment>)
    ensures r == SignedItem(data, i, domain)
  {
    hide ParseOffsets, ExtractPubkey, ExtractMessage, Parsed;
    var offsets :- ParseOffsets(data, i);
    var signer :- ExtractPubkey(data, offsets);
    var message :- ExtractMessage(data, offsets);
    var fields :- ParseCommitmentMessage(message, domain);
    return Ok(SignedCommitment(KeyOf(signer), CommitmentOf(fields)));
  }

  method ReadItems(data: Bytes, count: u8, domain: Domain) returns (r: Result<seq<SignedCommitment>>)
    ensures r == SignedItems(data, count, domain)
  {
    hide SignedItem;
    var items: seq<SignedCommitment> := [];
    var i := 0;
    while i < count
      invariant 0 <= i <= count && SignedItems(data, i, domain) == Ok(items)
    {
      if SignedItems(data, i + 1, domain).Err? {
        PrefixOfItems(data, count, domain, i + 1);
      }
      var item :- ReadItem(data, i, domain);
      items := items + [item];
      i := i + 1;
    }
    return Ok(items);
  }

  // ----- the handlers

  /** `settle_individual`, from the bytes that the precompile verified. */
  method SettleCommitmentMessage(b: BucketAccounts, tokens: set<u16>, domain: Domain, submitter: Key, data: Bytes,
                                 accounts: seq<AccountInfo>)
    returns (r: Result<u64>)
    modifies b
    ensures data == [] || data[0] != 1 ==> r == Err(InvalidEd25519Data)
    ensures data != [] && data[0] == 1 ==>
              match SignedItem(data, 0, domain)
              case Err(e) => r == Err(e)
              case Ok(item) =>
                var s := Submission(submitter, item.signer, item.commitment);
                && (r.Ok? ==> accounts == IndividualAccounts(item.commitment))
                && (r.Ok? ==> Settled(old(b.State()), tokens, s) == Ok(b.State()))
                && (r.Err? ==> Settled(old(b.State()), tokens, s) == Err(r.error)
                               || accounts != IndividualAccounts(item.commitment))
  {
    hide SignedItem, Settled, IndividualAccounts;
    if data == [] || data[0] != 1 {
      return Err(InvalidEd25519Data);
    }
    var item :- ReadItem(data, 0, domain);
    r := SettleIndividually(b, tokens, Submission(submitter, item.signer, item.commitment), accounts);
  }

  /** `settle_commitment_bundle`, from the bytes that the precompile verified. */
  method SettleBundleMessage(b: BucketAccounts, tokens: set<u16>, domain: Domain, submitter: Key, count: u8, data: Bytes,
                             accounts: seq<AccountInfo>)
    returns (r: Result<u64>)
    modifies b
    ensures count == 0 || data == [] || data[0] != count ==> r == Err(InvalidCommitmentMessage)
    ensures count > 0 && data != [] && data[0] == count ==>
              match SignedItems(data, count, domain)
              case Err(e) => r == Err(e)
              case Ok(items) =>
                && (r.Ok? ==> accounts == BundleAccounts(items))
                && (r.Ok? ==> BundleSettled(old(b.State()), tokens, submitter, items)
                              == Ok(BundleOutcome(b.State(), r.value)))
                && (r.Err? ==> BundleSettled(old(b.State()), tokens, submitter, items) == Err(r.error)
                               || accounts != BundleAccounts(items))
  {
    hide SignedItem, BundleSettled, BundleAccounts;
    if count == 0 || data == [] || data[0] != count {
      return Err(InvalidCommitmentMessage);
    }
    var items :- ReadItems(data, count, domain);
    r := SettleCommitmentsTogether(b, tokens, submitter, items, accounts);
  }

  // ----- what a client builds is what is settled

  ghost predicate SignsAll(entries: seq<SignedMessage>, domain: Domain, commitments: seq<CommitmentFields>) {
    && |entries| == |commitments|
    && forall i :: 0 <= i < |entries| ==> entries[i].message == PrintedCommitment(domain, commitments[i])
  }

  function Signed(entries: seq<SignedMessage>, commitments: seq<CommitmentFields>): seq<SignedCommitment>
    requires |entries| == |commitments|
  {
    seq(|entries|, i requires 0 <= i < |entries| =>
      SignedCommitment(KeyOf(entries[i].signer), CommitmentOf(commitments[i])))
  }

  /** A table built over printed commitments is read as exactly these signers and commitments. */
  lemma {:induction false} BuiltBundleIsRead(data: Bytes, entries: seq<SignedMessage>, domain: Domain,
                                             commitments: seq<CommitmentFields>, n: nat)
    requires 1 <= |entries| <= 255 && IsTable(data, entries) && SignsAll(entries, domain, commitments)
    requires n <= |entries|
    ensures SignedItems(data, n, domain) == Ok(Signed(entries, commitments)[..n])
  {
    hide ParseOffsets, ExtractPubkey, ExtractMessage, Parsed, IsTable;
    var all := Signed(entries, commitments);
    if n > 0 {
      BuiltBundleIsRead(data, entries, domain, commitments, n - 1);
      TableRoundTrip(data, entries, n - 1);
      CommitmentRoundTrip(domain, commitments[n - 1]);
      assert all[..n] == all[..n - 1] + [all[n - 1]];
    }
  }

  /** Field by field: what comes out of a built table is what went into it. */
  lemma BuiltFieldsComeBack(data: Bytes, entries: seq<SignedMessage>, domain: Domain, commitments: seq<CommitmentFields>,
                            i: nat)
    requires 1 <= |entries| <= 255 && IsTable(data, entries) && SignsAll(entries, domain, commitments) && i < |entries|
    ensures SignedItems(data, |entries|, domain).Ok?
    ensures var item, f := SignedItems(data, |entries|, domain).value[i], commitments[i];
            && item.signer == KeyOf(entries[i].signer)
            && item.commitment.payer == f.payer && item.commitment.payee == f.payee
            && item.commitment.token == f.token && item.commitment.committedAmount == f.committedAmount
            && (f.authorizedSettler.None? ==> item.commitment.authorizedSettler.None?)
            && (f.authorizedSettler.Some? ==>
                  item.commitment.authorizedSettler == Some(KeyOf(f.authorizedSettler.value)))
  {
    hide SignedItems, IsTable;
    BuiltBundleIsRead(data, entries, domain, commitments, |entries|);
    assert Signed(entries, commitments)[..|entries|][i] == Signed(entries, commitments)[i];
  }
}
