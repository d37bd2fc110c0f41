/** One cumulative commitment settled on its own lane. */
module SettleIndividual {
  import opened Machine
  import opened Ledgers

  datatype Commitment = Commitment(
    payer: u32,
    payee: u32,
    token: u16,
    committedAmount: u64,
    authorizedSettler: Option<Key>)

  /** A commitment with the signer that the Ed25519 precompile verified and the account that
      submits it. */
  datatype Submission = Submission(submitter: Key, signer: Key, commitment: Commitment)

  function LaneOf(c: Commitment): LaneId {
    LaneId(c.payer, c.payee, c.token)
  }

  /** What one settlement moves: the amount, and the part of it that the lane's collateral covers. */
  datatype Advance = Advance(amount: u64, consumed: u64)

  function AdvanceOf(lane: Lane, target: u64): Advance
    requires target > lane.settledCumulative
  {
    var amount := target - lane.settledCumulative;
    Advance(amount, Min(lane.lockedBalance, amount))
  }

  /** A lane brought to `target`. */
  function LaneAdvanced(lane: Lane, target: u64): Lane
    requires target > lane.settledCumulative
  {
    LaneSettled(lane, target, AdvanceOf(lane, target).consumed)
  }

  /** Every check the handler makes before its first write. */
  function Examined(l: Ledger, tokens: set<u16>, s: Submission): Result<Advance> {
    var c := s.commitment;
    :- Require(c.token in tokens, TokenNotFound);
    var lane :- ReadLane(l, LaneOf(c));
    :- Require(s.signer == lane.authorizedSigner, InvalidSignature);
    var owner :- ReadOwner(l, c.payee);
    :- Require(s.submitter == owner || c.authorizedSettler == Some(s.submitter), UnauthorizedSettler);
    :- Require(c.committedAmount > lane.settledCumulative, CommitmentAmountMustIncrease);
    var payerTotal :- ReadTotal(l, c.payer, c.token);
    var covered :- Checked64(lane.lockedBalance + payerTotal);
    var advance := AdvanceOf(lane, c.committedAmount);
    :- Require(covered >= advance.amount, InsufficientBalance);
    Ok(advance)
  }

  /** The handler: checks, then the lane, the payer and the payee in that order. */
  function Settled(l: Ledger, tokens: set<u16>, s: Submission): Result<Ledger> {
    var c := s.commitment;
    var advance :- Examined(l, tokens, s);
    var lane := l.lanes[LaneOf(c)];
    var l1 := l.(lanes := l.lanes[LaneOf(c) := LaneAdvanced(lane, c.committedAmount)]);
    var l2 :- DeltaApplied(l1, c.payer, c.token, -(advance.amount - advance.consumed));
    DeltaApplied(l2, c.payee, c.token, advance.amount)
  }

  function SettledAll(l: Ledger, tokens: set<u16>, ss: seq<Submission>): Result<Ledger>
    decreases |ss|
  {
    if ss == [] then Ok(l)
    else
      var l1 :- Settled(l, tokens, ss[0]);
      SettledAll(l1, tokens, ss[1..])
  }

  // ----- the outcome, entry by entry

  ghost predicate CanReceive(l: Ledger, p: u32, t: u16, amount: nat) {
    && p in l.slots
    && (Account(p, t) in l.balances || HasRoom(l.balances, p))
    && BalanceOf(l, Account(p, t)).available + amount < TWO64
  }

  function Credited(b: Balance, amount: nat): Balance
    requires b.available + amount < TWO64
  {
    b.(available := b.available + amount)
  }

  lemma RoomDependsOnKeys(m: map<Account, Balance>, m': map<Account, Balance>, p: u32)
    requires forall a: Account :: a.participant == p ==> (a in m <==> a in m')
    ensures HasRoom(m, p) <==> HasRoom(m', p)
  {
    assert (set a | a in m && a.participant == p) == (set a | a in m' && a.participant == p);
  }

  /** The ledger with one lane advanced, the payer debited by what the collateral does not cover
      and the payee credited with the whole amount. */
  function Moved(l: Ledger, c: Commitment): Ledger
    requires LaneOf(c) in l.lanes && l.lanes[LaneOf(c)].settledCumulative < c.committedAmount
    requires Account(c.payer, c.token) in l.balances && c.payer != c.payee
    requires var a := AdvanceOf(l.lanes[LaneOf(c)], c.committedAmount);
             && a.amount - a.consumed <= Total(l, c.payer, c.token)
             && BalanceOf(l, Account(c.payee, c.token)).available + a.amount < TWO64
  {
    var a := AdvanceOf(l.lanes[LaneOf(c)], c.committedAmount);
    var payer, payee := Account(c.payer, c.token), Account(c.payee, c.token);
    Ledger(l.slots,
           l.balances[payer := DebitedBalance(l.balances[payer], a.amount - a.consumed)]
                     [payee := Credited(BalanceOf(l, payee), a.amount)],
           l.lanes[LaneOf(c) := LaneAdvanced(l.lanes[LaneOf(c)], c.committedAmount)])
  }

  /** The checks, spelled out. */
  ghost predicate Acceptable(l: Ledger, tokens: set<u16>, s: Submission) {
    var c := s.commitment;
    && c.token in tokens
    && c.payer != c.payee
    && LaneOf(c) in l.lanes
    && c.payer in l.slots && c.payee in l.slots
    && Account(c.payer, c.token) in l.balances
    && s.signer == l.lanes[LaneOf(c)].authorizedSigner
    && (s.submitter == l.slots[c.payee].owner || c.authorizedSettler == Some(s.submitter))
    && l.lanes[LaneOf(c)].settledCumulative < c.committedAmount
    && l.lanes[LaneOf(c)].lockedBalance + Total(l, c.payer, c.token) < TWO64
    && c.committedAmount - l.lanes[LaneOf(c)].settledCumulative
       <= l.lanes[LaneOf(c)].lockedBalance + Total(l, c.payer, c.token)
  }

  lemma ExaminedMeansAcceptable(l: Ledger, tokens: set<u16>, s: Submission)
    ensures Examined(l, tokens, s).Ok? <==> Acceptable(l, tokens, s)
    ensures Acceptable(l, tokens, s) ==>
              Examined(l, tokens, s).value
              == AdvanceOf(l.lanes[LaneOf(s.commitment)], s.commitment.committedAmount)
  {
  }

  /** A settlement succeeds exactly when the checks pass and the payee can take the amount; it
      advances one lane, debits the uncovered part and credits the whole. */
  lemma SettlementOutcome(l: Ledger, tokens: set<u16>, s: Submission)
    ensures var c := s.commitment;
            Settled(l, tokens, s).Ok? <==>
              && Acceptable(l, tokens, s)
              && CanReceive(l, c.payee, c.token,
                            AdvanceOf(l.lanes[LaneOf(c)], c.committedAmount).amount)
    ensures Settled(l, tokens, s).Ok? ==> Settled(l, tokens, s).value == Moved(l, s.commitment)
  {
    ExaminedMeansAcceptable(l, tokens, s);
    if Examined(l, tokens, s).Ok? {
      var c := s.commitment;
      var advance := Examined(l, tokens, s).value;
      var l1 := l.(lanes := l.lanes[LaneOf(c) := LaneAdvanced(l.lanes[LaneOf(c)], c.committedAmount)]);
      var payer := Account(c.payer, c.token);
      assert l.balances[payer := l.balances[payer]] == l.balances;
      var l2 := DeltaApplied(l1, c.payer, c.token, -(advance.amount - advance.consumed));
      assert l2.Ok? && l2.value.balances
             == l.balances[payer := DebitedBalance(l.balances[payer], advance.amount - advance.consumed)];
      RoomDependsOnKeys(l.balances, l2.value.balances, c.payee);
    }
  }

  // ----- path independence

  /** The lane does not remember in how many steps it was advanced. */
  lemma LaneAdvancesCompose(lane: Lane, first: u64, second: u64)
    requires lane.settledCumulative < first < second
    ensures LaneAdvanced(LaneAdvanced(lane, first), second) == LaneAdvanced(lane, second)
    ensures var a1 := AdvanceOf(lane, first);
            var a2 := AdvanceOf(LaneAdvanced(lane, first), second);
            AdvanceOf(lane, second) == Advance(a1.amount + a2.amount, a1.consumed + a2.consumed)
  {
  }

  lemma DebitsCompose(b: Balance, x: nat, y: nat)
    requires x + y <= b.available + b.withdrawing
    ensures DebitedBalance(DebitedBalance(b, x), y) == DebitedBalance(b, x + y)
  {
  }

  lemma SettledTwice(l: Ledger, tokens: set<u16>, s1: Submission, s2: Submission)
    ensures SettledAll(l, tokens, [s1, s2]) ==
            if Settled(l, tokens, s1).Ok? then Settled(Settled(l, tokens, s1).value, tokens, s2)
            else Settled(l, tokens, s1)
  {
    assert [s1, s2][1..] == [s2];
    if Settled(l, tokens, s1).Ok? {
      var l1 := Settled(l, tokens, s1).value;
      assert [s2][1..] == [];
      assert SettledAll(l1, tokens, [s2]) == Settled(l1, tokens, s2);
    }
  }

  function Smaller(s: Submission, amount: u64): Submission {
    s.(commitment := s.commitment.(committedAmount := amount))
  }

  ghost predicate Between(l: Ledger, s: Submission, first: u64) {
    && LaneOf(s.commitment) in l.lanes
    && l.lanes[LaneOf(s.commitment)].settledCumulative < first < s.commitment.committedAmount
  }

  /** The checks for the larger commitment imply those for the smaller. */
  lemma LargerImpliesSmaller(l: Ledger, tokens: set<u16>, s: Submission, first: u64)
    requires Between(l, s, first) && Settled(l, tokens, s).Ok?
    ensures Settled(l, tokens, Smaller(s, first)).Ok?
  {
    SettlementOutcome(l, tokens, s);
    SettlementOutcome(l, tokens, Smaller(s, first));
  }

  /** After the smaller commitment the larger one meets the same verdict. */
  lemma SameVerdictAfterSmaller(l: Ledger, tokens: set<u16>, s: Submission, first: u64)
    requires Between(l, s, first) && Settled(l, tokens, Smaller(s, first)).Ok?
    ensures Settled(Moved(l, Smaller(s, first).commitment), tokens, s).Ok? <==> Settled(l, tokens, s).Ok?
  {
    var id := LaneOf(s.commitment);
    SettlementOutcome(l, tokens, Smaller(s, first));
    SettlementOutcome(l, tokens, s);
    var l1 := Moved(l, Smaller(s, first).commitment);
    SettlementOutcome(l1, tokens, s);
    LaneAdvancesCompose(l.lanes[id], first, s.commitment.committedAmount);
  }

  lemma MovesCompose(l: Ledger, s: Submission, first: u64)
    requires Between(l, s, first)
    requires Moved.requires(l, Smaller(s, first).commitment)
    requires Moved.requires(Moved(l, Smaller(s, first).commitment), s.commitment)
    requires Moved.requires(l, s.commitment)
    ensures Moved(Moved(l, Smaller(s, first).commitment), s.commitment) == Moved(l, s.commitment)
  {
    var c := s.commitment;
    var id, payer := LaneOf(c), Account(c.payer, c.token);
    var l1 := Moved(l, Smaller(s, first).commitment);
    LaneAdvancesCompose(l.lanes[id], first, c.committedAmount);
    var a1, a2 := AdvanceOf(l.lanes[id], first), AdvanceOf(l1.lanes[id], c.committedAmount);
    DebitsCompose(l.balances[payer], a1.amount - a1.consumed, a2.amount - a2.consumed);
    assert Moved(l1, c).lanes == Moved(l, c).lanes;
    assert Moved(l1, c).balances == Moved(l, c).balances;
  }

  /** Settling a commitment and then a larger one on the same lane succeeds exactly when settling
      the larger one alone does, and leaves the identical ledger. */
  lemma PathIndependence(l: Ledger, tokens: set<u16>, s: Submission, first: u64)
    requires Between(l, s, first)
    ensures SettledAll(l, tokens, [Smaller(s, first), s]).Ok? <==> Settled(l, tokens, s).Ok?
    ensures Settled(l, tokens, s).Ok? ==>
              SettledAll(l, tokens, [Smaller(s, first), s]) == Settled(l, tokens, s)
  {
    var s1 := Smaller(s, first);
    SettledTwice(l, tokens, s1, s);
    if Settled(l, tokens, s).Ok? {
      LargerImpliesSmaller(l, tokens, s, first);
    }
    if Settled(l, tokens, s1).Ok? {
      SettlementOutcome(l, tokens, s1);
      SameVerdictAfterSmaller(l, tokens, s, first);
      if Settled(l, tokens, s).Ok? {
        SettlementOutcome(l, tokens, s);
        SettlementOutcome(Moved(l, s1.commitment), tokens, s);
        MovesCompose(l, s, first);
      }
    }
  }
}
