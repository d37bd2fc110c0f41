/** A bundle is exactly a sequence: it succeeds when the sequence does and ends in the same ledger. */
module BundleEquivalence {
  import opened Machine
  import opened Ledgers
  import opened SettleIndividual
  import opened BalanceDeltas
  import opened Transfers
  import opened SettleCommitmentBundle

  // ----- the shape of a bundle

  /** One token, one payee, and no lane twice. */
  ghost predicate OnePayee(ss: seq<Submission>, t: u16, payee: u32) {
    && (forall s :: s in ss ==> s.commitment.token == t && s.commitment.payee == payee)
    && DistinctLanes(TransfersOf(ss))
  }

  ghost predicate AllAcceptable(l: Ledger, tokens: set<u16>, ss: seq<Submission>) {
    forall s :: s in ss ==> Acceptable(l, tokens, s)
  }

  lemma RestOfOnePayee(ss: seq<Submission>, t: u16, payee: u32)
    requires ss != [] && OnePayee(ss, t, payee)
    ensures OnePayee(ss[1..], t, payee)
    ensures TransfersOf(ss[1..]) == TransfersOf(ss)[1..]
    ensures forall s :: s in ss[1..] ==> s.commitment.payer != ss[0].commitment.payer
    ensures forall s :: s in ss <==> s == ss[0] || s in ss[1..]
  {
    var xs := TransfersOf(ss);
    RestIsElsewhere(xs);
    assert TransfersOf(ss[1..]) == xs[1..];
    assert ss == [ss[0]] + ss[1..];
    assert ss[0] in ss;
    forall s | s in ss[1..] ensures s.commitment.payer != ss[0].commitment.payer {
      var i :| 0 <= i < |ss[1..]| && ss[1..][i] == s;
      assert s in ss;
      assert xs[1..][i] in xs[1..] && xs[1..][i] == TransferOf(s);
    }
  }

  ghost predicate ToPayee(lanes: Lanes, xs: seq<Transfer>, t: u16, payee: u32) {
    forall x :: x in xs ==> x.lane.token == t && x.lane.payee == payee && Advances(lanes, x)
  }

  lemma {:induction false} PayeeNet(lanes: Lanes, xs: seq<Transfer>, t: u16, payee: u32)
    requires ToPayee(lanes, xs, t, payee)
    ensures Net(lanes, xs, payee) == Gross(lanes, xs)
    ensures xs != [] ==> Gross(lanes, xs) > 0
  {
    if xs != [] {
      assert xs[0] in xs;
      PayeeNet(lanes, xs[1..], t, payee);
    }
  }

  lemma {:induction false} OutsiderNet(lanes: Lanes, xs: seq<Transfer>, p: u32)
    requires forall x :: x in xs ==> x.lane.payee != p && x.lane.payer != p
    ensures Net(lanes, xs, p) == 0
  {
    if xs != [] {
      assert xs[0] in xs;
      OutsiderNet(lanes, xs[1..], p);
    }
  }

  /** `l'` is `l` with the lanes of `xs` advanced and every account moved by its net effect. */
  ghost predicate WhollyMoved(l: Ledger, l': Ledger, t: u16, xs: seq<Transfer>) {
    && l'.slots == l.slots
    && LanesAdvanced(l.lanes, l'.lanes, xs)
    && (forall p :: Shifted(l, l', p, t, Net(l.lanes, xs, p)))
  }

  lemma WhollyMovedIsFunctional(l: Ledger, a: Ledger, b: Ledger, t: u16, xs: seq<Transfer>, ys: seq<Transfer>)
    requires WhollyMoved(l, a, t, xs) && WhollyMoved(l, b, t, ys)
    requires multiset(xs) == multiset(ys)
    ensures a == b
  {
    SameMembers(xs, ys);
    LanesAdvancedIsFunctional(l.lanes, a.lanes, b.lanes, xs, ys);
    forall k: Account
      ensures k in a.balances <==> k in b.balances
      ensures k in a.balances ==> a.balances[k] == b.balances[k]
    {
      OrderDoesNotMatter(l.lanes, xs, ys, k.participant);
      assert Shifted(l, a, k.participant, t, Net(l.lanes, xs, k.participant));
      assert Shifted(l, b, k.participant, t, Net(l.lanes, ys, k.participant));
    }
    assert a.balances == b.balances;
  }

  // ----- the sequence, in closed form

  lemma MoveShifts(l: Ledger, c: Commitment, p: u32)
    requires Moved.requires(l, c)
    ensures Shifted(l, Moved(l, c), p, c.token, Effect(l.lanes, Transfer(LaneOf(c), c.committedAmount), p))
  {
  }

  /** What one settlement leaves of the conditions for the others. */
  lemma OthersKeepTheirVerdict(l: Ledger, tokens: set<u16>, s0: Submission, s: Submission)
    requires Settled(l, tokens, s0).Ok?
    requires s.commitment.token == s0.commitment.token && s.commitment.payee == s0.commitment.payee
    requires s.commitment.payer != s0.commitment.payer
    ensures Acceptable(Moved(l, s0.commitment), tokens, s) <==> Acceptable(l, tokens, s)
  {
    SettlementOutcome(l, tokens, s0);
  }

  lemma ReceivingInTwoSteps(l: Ledger, c: Commitment, more: nat)
    requires Moved.requires(l, c) && c.payee in l.slots
    requires CanReceive(l, c.payee, c.token, AdvanceOf(l.lanes[LaneOf(c)], c.committedAmount).amount)
    ensures CanReceive(Moved(l, c), c.payee, c.token, more) <==>
              CanReceive(l, c.payee, c.token, AdvanceOf(l.lanes[LaneOf(c)], c.committedAmount).amount + more)
  {
  }

  lemma ShiftsCompose(l: Ledger, l1: Ledger, l2: Ledger, p: u32, t: u16, d1: int, d2: int)
    requires Shifted(l, l1, p, t, d1) && Shifted(l1, l2, p, t, d2)
    requires d1 == 0 || d2 == 0 || (d1 > 0 && d2 > 0)
    requires d1 > 0 && d2 > 0 ==> BalanceOf(l, Account(p, t)).available + d1 + d2 < TWO64
    ensures Shifted(l, l2, p, t, d1 + d2)
  {
    forall a: Account | a.participant == p
      ensures var d := if a.token == t then d1 + d2 else 0;
              && (a in l2.balances <==> a in l.balances || d > 0)
              && (a in l2.balances ==> l2.balances[a] == ShiftedBalance(BalanceOf(l, a), d))
    {
      assert a in l1.balances <==> a in l.balances || (a.token == t && d1 > 0);
      if a.token == t {
        assert a == Account(p, t);
      }
    }
  }

  /** Commitments to one payee settle one after another exactly when each is acceptable as things
      stand at the start and the payee can take the whole sum. */
  lemma {:induction false} SequenceVerdict(l: Ledger, tokens: set<u16>, ss: seq<Submission>, t: u16, payee: u32)
    requires OnePayee(ss, t, payee) && ss != []
    ensures SettledAll(l, tokens, ss).Ok? <==>
              AllAcceptable(l, tokens, ss) && CanReceive(l, payee, t, Gross(l.lanes, TransfersOf(ss)))
    ensures SettledAll(l, tokens, ss).Ok? ==>
              WhollyMoved(l, SettledAll(l, tokens, ss).value, t, TransfersOf(ss))
    decreases |ss|
  {
    hide WhollyMoved, Settled;
    var s0, xs := ss[0], TransfersOf(ss);
    RestOfOnePayee(ss, t, payee);
    SettlementOutcome(l, tokens, s0);
    if Settled(l, tokens, s0).Ok? {
      var l1 := Moved(l, s0.commitment);
      assert SettledAll(l, tokens, ss) == SettledAll(l1, tokens, ss[1..]);
      RestIsElsewhere(xs);
      OnlyNamedLanesMatter(l1.lanes, l.lanes, xs[1..], payee);
      forall s | s in ss[1..] ensures Acceptable(l1, tokens, s) <==> Acceptable(l, tokens, s) {
        OthersKeepTheirVerdict(l, tokens, s0, s);
      }
      ReceivingInTwoSteps(l, s0.commitment, Gross(l1.lanes, xs[1..]));
      if |ss| == 1 {
        assert SettledAll(l1, tokens, []) == Ok(l1);
        FirstMove(l, s0.commitment, t, xs);
      } else {
        SequenceVerdict(l1, tokens, ss[1..], t, payee);
        if SettledAll(l1, tokens, ss[1..]).Ok? {
          MovesJoin(l, tokens, SettledAll(l1, tokens, ss[1..]).value, ss, t, payee);
        }
      }
    }
  }

  lemma FirstMove(l: Ledger, c: Commitment, t: u16, xs: seq<Transfer>)
    requires Moved.requires(l, c) && c.token == t && xs == [Transfer(LaneOf(c), c.committedAmount)]
    ensures WhollyMoved(l, Moved(l, c), t, xs)
  {
    assert xs[1..] == [];
    forall p: u32 ensures Shifted(l, Moved(l, c), p, t, Net(l.lanes, xs, p)) {
      MoveShifts(l, c, p);
    }
  }

  lemma MovesJoin(l: Ledger, tokens: set<u16>, l': Ledger, ss: seq<Submission>, t: u16, payee: u32)
    requires |ss| > 1 && OnePayee(ss, t, payee) && Settled(l, tokens, ss[0]).Ok?
    requires Moved.requires(l, ss[0].commitment)
    requires WhollyMoved(Moved(l, ss[0].commitment), l', t, TransfersOf(ss[1..]))
    requires CanReceive(l, payee, t, Gross(l.lanes, TransfersOf(ss)))
    ensures WhollyMoved(l, l', t, TransfersOf(ss))
  {
    var c, xs := ss[0].commitment, TransfersOf(ss);
    var l1 := Moved(l, c);
    assert ss[0] in ss;
    RestOfOnePayee(ss, t, payee);
    RestIsElsewhere(xs);
    AdvanceFirstLane(l.lanes, l'.lanes, xs);
    forall p: u32 ensures Shifted(l, l', p, t, Net(l.lanes, xs, p)) {
      ShiftsJoin(l, l', ss, t, payee, p);
    }
  }

  lemma ShiftsJoin(l: Ledger, l': Ledger, ss: seq<Submission>, t: u16, payee: u32, p: u32)
    requires |ss| > 1 && OnePayee(ss, t, payee) && Moved.requires(l, ss[0].commitment)
    requires AllAdvance(Moved(l, ss[0].commitment).lanes, TransfersOf(ss[1..]))
    requires Shifted(Moved(l, ss[0].commitment), l', p, t,
                     Net(Moved(l, ss[0].commitment).lanes, TransfersOf(ss[1..]), p))
    requires CanReceive(l, payee, t, Gross(l.lanes, TransfersOf(ss)))
    ensures Shifted(l, l', p, t, Net(l.lanes, TransfersOf(ss), p))
  {
    hide Shifted, SameOn, AllAdvance;
    var c, xs := ss[0].commitment, TransfersOf(ss);
    var l1 := Moved(l, c);
    assert ss[0] in ss;
    var d1, d2 := Effect(l.lanes, xs[0], p), Net(l1.lanes, xs[1..], p);
    RestOfOnePayee(ss, t, payee);
    MoveShifts(l, c, p);
    RestAgrees(l, ss, t, payee, p);
    RestToPayee(ss, t, payee, l1.lanes, p);
    PayeeNet(l1.lanes, xs[1..], t, payee);
    ShiftsCompose(l, l1, l', p, t, d1, d2);
  }

  lemma RestAgrees(l: Ledger, ss: seq<Submission>, t: u16, payee: u32, p: u32)
    requires ss != [] && OnePayee(ss, t, payee) && Moved.requires(l, ss[0].commitment)
    ensures var rest := TransfersOf(ss)[1..];
            && Net(Moved(l, ss[0].commitment).lanes, rest, p) == Net(l.lanes, rest, p)
            && Gross(Moved(l, ss[0].commitment).lanes, rest) == Gross(l.lanes, rest)
  {
    RestIsElsewhere(TransfersOf(ss));
    OnlyNamedLanesMatter(Moved(l, ss[0].commitment).lanes, l.lanes, TransfersOf(ss)[1..], p);
  }

  lemma RestToPayee(ss: seq<Submission>, t: u16, payee: u32, lanes: Lanes, p: u32)
    requires ss != [] && OnePayee(ss, t, payee) && AllAdvance(lanes, TransfersOf(ss[1..]))
    ensures ToPayee(lanes, TransfersOf(ss[1..]), t, payee)
    ensures p == ss[0].commitment.payer && p != payee ==> Net(lanes, TransfersOf(ss[1..]), p) == 0
  {
    RestOfOnePayee(ss, t, payee);
    var xs := TransfersOf(ss[1..]);
    forall x | x in xs
      ensures x.lane.token == t && x.lane.payee == payee && x.lane.payer != ss[0].commitment.payer
    {
      var i :| 0 <= i < |xs| && xs[i] == x;
      assert ss[1..][i] in ss[1..];
    }
    if p == ss[0].commitment.payer && p != payee {
      OutsiderNet(lanes, xs, p);
    }
  }

  // ----- the bundle's loop, in closed form

  function SubmissionsOf(submitter: Key, items: seq<SignedCommitment>): seq<Submission> {
    seq(|items|, i requires 0 <= i < |items| => Submission(submitter, items[i].signer, items[i].commitment))
  }

  function TransfersIn(items: seq<SignedCommitment>): seq<Transfer> {
    TransfersOf(SubmissionsOf(DEFAULT_KEY, items))
  }

  lemma TransfersIgnoreSubmitter(submitter: Key, items: seq<SignedCommitment>)
    ensures TransfersOf(SubmissionsOf(submitter, items)) == TransfersIn(items)
  {
  }

  /** One entry per participant, and no sum larger than the total. */
  ghost predicate Gathered(st: BundleState) {
    && DistinctIds(Participants(st.deltas))
    && (forall p :: -(st.total as int) <= FindDelta(st.deltas, p) <= st.total)
  }

  /** What every bundle handler call has established before its second pass. */
  ghost predicate Prepared(st: BundleState, tokens: set<u16>, owner: Key, items: seq<SignedCommitment>,
                           t: u16, payee: u32)
  {
    && Gathered(st)
    && OnePayee(SubmissionsOf(DEFAULT_KEY, items), t, payee)
    && t in tokens
    && payee in st.ledger.slots && st.ledger.slots[payee].owner == owner
    && (forall item :: item in items ==> LaneKey(item.commitment.payer, item.commitment.payee) !in st.seen)
  }

  lemma ItemVerdict(st: BundleState, tokens: set<u16>, submitter: Key, owner: Key, item: SignedCommitment,
                    t: u16, payee: u32)
    requires Prepared(st, tokens, owner, [item], t, payee)
    ensures var s := Submission(submitter, item.signer, item.commitment);
            && (ItemExamined(st.ledger, st.seen, submitter, owner, item).Ok? <==> Acceptable(st.ledger, tokens, s))
            && (Acceptable(st.ledger, tokens, s) ==>
                  ItemExamined(st.ledger, st.seen, submitter, owner, item).value
                  == AdvanceOf(st.ledger.lanes[LaneOf(item.commitment)], item.commitment.committedAmount))
  {
    var ss := SubmissionsOf(DEFAULT_KEY, [item]);
    assert ss[0] in ss && item in [item];
  }

  lemma ItemOutcome(st: BundleState, tokens: set<u16>, submitter: Key, owner: Key, item: SignedCommitment,
                    t: u16, payee: u32)
    requires Prepared(st, tokens, owner, [item], t, payee)
    ensures var s, x := Submission(submitter, item.signer, item.commitment), TransfersIn([item])[0];
            ItemApplied(st, submitter, owner, item).Ok? <==>
              Acceptable(st.ledger, tokens, s) && st.total + Amount(st.ledger.lanes, x) < TWO64
    ensures ItemApplied(st, submitter, owner, item).Ok? ==>
              var st', x := ItemApplied(st, submitter, owner, item).value, TransfersIn([item])[0];
              && Advances(st.ledger.lanes, x)
              && st'.ledger == st.ledger.(lanes :=
                   st.ledger.lanes[x.lane := LaneAdvanced(st.ledger.lanes[x.lane], x.target)])
              && st'.total == st.total + Amount(st.ledger.lanes, x)
              && st'.seen == st.seen + {LaneKey(item.commitment.payer, item.commitment.payee)}
              && Gathered(st')
              && (forall p :: FindDelta(st'.deltas, p) == FindDelta(st.deltas, p) + Effect(st.ledger.lanes, x, p))
  {
    ItemVerdict(st, tokens, submitter, owner, item, t, payee);
    var c := item.commitment;
    if ItemExamined(st.ledger, st.seen, submitter, owner, item).Ok? {
      var a := AdvanceOf(st.ledger.lanes[LaneOf(c)], c.committedAmount);
      if st.total + a.amount < TWO64 {
        AddingOneDelta(st.deltas, c.payer, -(a.amount - a.consumed));
        AddingOneDelta(DeltaAdded(st.deltas, c.payer, -(a.amount - a.consumed)).value, c.payee, a.amount);
      }
    }
  }

  lemma PreparedForRest(st: BundleState, st': BundleState, tokens: set<u16>, owner: Key,
                        items: seq<SignedCommitment>, t: u16, payee: u32)
    requires items != [] && Prepared(st, tokens, owner, items, t, payee)
    requires Gathered(st') && st'.ledger.slots == st.ledger.slots
    requires st'.seen == st.seen + {LaneKey(items[0].commitment.payer, items[0].commitment.payee)}
    ensures Prepared(st', tokens, owner, items[1..], t, payee)
  {
    var ss := SubmissionsOf(DEFAULT_KEY, items);
    RestOfOnePayee(ss, t, payee);
    assert SubmissionsOf(DEFAULT_KEY, items[1..]) == ss[1..];
    forall item | item in items[1..]
      ensures LaneKey(item.commitment.payer, item.commitment.payee) !in st'.seen
    {
      var i :| 0 <= i < |items[1..]| && items[1..][i] == item;
      assert ss[1..][i] in ss[1..] && item in items;
    }
  }

  lemma PreparedForFirst(st: BundleState, tokens: set<u16>, owner: Key, items: seq<SignedCommitment>,
                         t: u16, payee: u32)
    requires items != [] && Prepared(st, tokens, owner, items, t, payee)
    ensures Prepared(st, tokens, owner, [items[0]], t, payee)
  {
    var ss, one := SubmissionsOf(DEFAULT_KEY, items), SubmissionsOf(DEFAULT_KEY, [items[0]]);
    assert one == [ss[0]] && ss[0] in ss && items[0] in items;
  }

  ghost predicate LoopDone(st: BundleState, st': BundleState, xs: seq<Transfer>) {
    && st'.ledger == st.ledger.(lanes := st'.ledger.lanes)
    && LanesAdvanced(st.ledger.lanes, st'.ledger.lanes, xs)
    && st'.total == st.total + Gross(st.ledger.lanes, xs)
    && Gathered(st')
    && (forall p :: FindDelta(st'.deltas, p) == FindDelta(st.deltas, p) + Net(st.ledger.lanes, xs, p))
  }

  lemma LoopJoins(st: BundleState, st1: BundleState, st2: BundleState, xs: seq<Transfer>)
    requires xs != [] && DistinctLanes(xs) && Advances(st.ledger.lanes, xs[0])
    requires st1.ledger == st.ledger.(lanes :=
               st.ledger.lanes[xs[0].lane := LaneAdvanced(st.ledger.lanes[xs[0].lane], xs[0].target)])
    requires st1.total == st.total + Amount(st.ledger.lanes, xs[0])
    requires forall p :: FindDelta(st1.deltas, p) == FindDelta(st.deltas, p) + Effect(st.ledger.lanes, xs[0], p)
    requires LoopDone(st1, st2, xs[1..])
    ensures LoopDone(st, st2, xs)
  {
    RestIsElsewhere(xs);
    AdvanceFirstLane(st.ledger.lanes, st2.ledger.lanes, xs);
    OnlyNamedLanesMatter(st.ledger.lanes, st1.ledger.lanes, xs[1..], 0);
    forall p: u32
      ensures FindDelta(st2.deltas, p) == FindDelta(st.deltas, p) + Net(st.ledger.lanes, xs, p)
    {
      OnlyNamedLanesMatter(st.ledger.lanes, st1.ledger.lanes, xs[1..], p);
    }
  }

  /** The second pass succeeds exactly when every commitment is acceptable as things stand at its
      start and the sum fits; it then holds the advanced lanes and every participant's net delta. */
  lemma {:induction false} ItemsOutcome(st: BundleState, tokens: set<u16>, submitter: Key, owner: Key,
                                        items: seq<SignedCommitment>, t: u16, payee: u32)
    requires Prepared(st, tokens, owner, items, t, payee)
    ensures ItemsApplied(st, submitter, owner, items).Ok? <==>
              && AllAcceptable(st.ledger, tokens, SubmissionsOf(submitter, items))
              && st.total + Gross(st.ledger.lanes, TransfersIn(items)) < TWO64
    ensures ItemsApplied(st, submitter, owner, items).Ok? ==>
              LoopDone(st, ItemsApplied(st, submitter, owner, items).value, TransfersIn(items))
    decreases |items|
  {
    if items != [] {
      var ss, xs := SubmissionsOf(submitter, items), TransfersIn(items);
      assert TransfersIn([items[0]])[0] == xs[0];
      PreparedForFirst(st, tokens, owner, items, t, payee);
      ItemOutcome(st, tokens, submitter, owner, items[0], t, payee);
      assert SubmissionsOf(submitter, items[1..]) == ss[1..] && TransfersIn(items[1..]) == xs[1..];
      assert ss == [ss[0]] + ss[1..];
      if ItemApplied(st, submitter, owner, items[0]).Ok? {
        var st1 := ItemApplied(st, submitter, owner, items[0]).value;
        PreparedForRest(st, st1, tokens, owner, items, t, payee);
        ItemsOutcome(st1, tokens, submitter, owner, items[1..], t, payee);
        RestKeepsVerdict(st, st1, tokens, submitter, items, t, payee);
        if ItemsApplied(st1, submitter, owner, items[1..]).Ok? {
          LoopJoins(st, st1, ItemsApplied(st1, submitter, owner, items[1..]).value, xs);
        }
      }
    }
  }

  lemma RestKeepsVerdict(st: BundleState, st1: BundleState, tokens: set<u16>, submitter: Key,
                         items: seq<SignedCommitment>, t: u16, payee: u32)
    requires items != [] && OnePayee(SubmissionsOf(DEFAULT_KEY, items), t, payee)
    requires Advances(st.ledger.lanes, TransfersIn(items)[0])
    requires var x := TransfersIn(items)[0];
             st1.ledger == st.ledger.(lanes :=
               st.ledger.lanes[x.lane := LaneAdvanced(st.ledger.lanes[x.lane], x.target)])
    ensures DistinctLanes(TransfersIn(items))
    ensures AllAcceptable(st1.ledger, tokens, SubmissionsOf(submitter, items)[1..])
            <==> AllAcceptable(st.ledger, tokens, SubmissionsOf(submitter, items)[1..])
    ensures Gross(st1.ledger.lanes, TransfersIn(items)[1..]) == Gross(st.ledger.lanes, TransfersIn(items)[1..])
  {
    var ss, xs := SubmissionsOf(submitter, items), TransfersIn(items);
    TransfersIgnoreSubmitter(submitter, items);
    RestIsElsewhere(xs);
    OnlyNamedLanesMatter(st.ledger.lanes, st1.ledger.lanes, xs[1..], 0);
    forall s | s in ss[1..]
      ensures Acceptable(st1.ledger, tokens, s) <==> Acceptable(st.ledger, tokens, s)
    {
      var i :| 0 <= i < |ss[1..]| && ss[1..][i] == s;
      assert xs[1..][i] in xs[1..] && xs[1..][i].lane == LaneOf(s.commitment);
    }
  }

  // ----- the nested loop over buckets and deltas

  lemma {:induction false} InBucketCounts(deltas: seq<BalanceDelta>, bucket: u32, d: BalanceDelta)
    ensures multiset(InBucket(deltas, bucket))[d]
            == if BucketOf(d.participant) == bucket then multiset(deltas)[d] else 0
  {
    if deltas != [] {
      InBucketCounts(deltas[1..], bucket, d);
      assert deltas == [deltas[0]] + deltas[1..];
    }
  }

  lemma {:induction false} ByBucketCounts(buckets: seq<u32>, deltas: seq<BalanceDelta>, d: BalanceDelta)
    requires DistinctIds(buckets)
    ensures multiset(ByBucket(buckets, deltas))[d]
            == if BucketOf(d.participant) in buckets then multiset(deltas)[d] else 0
  {
    if buckets != [] {
      assert buckets == [buckets[0]] + buckets[1..];
      DistinctSplits(buckets[0], buckets[1..]);
      InBucketCounts(deltas, buckets[0], d);
      ByBucketCounts(buckets[1..], deltas, d);
    }
  }

  /** The nested loop applies every gathered delta exactly once. */
  lemma NestedLoopAppliesEachOnce(buckets: seq<u32>, deltas: seq<BalanceDelta>)
    requires DistinctIds(buckets)
    requires forall d :: d in deltas ==> BucketOf(d.participant) in buckets
    ensures multiset(ByBucket(buckets, deltas)) == multiset(deltas)
  {
    forall d ensures multiset(ByBucket(buckets, deltas))[d] == multiset(deltas)[d] {
      ByBucketCounts(buckets, deltas, d);
      if BucketOf(d.participant) !in buckets {
        assert d !in deltas;
      }
    }
  }

  lemma {:induction false} ReorderedDeltas(deltas: seq<BalanceDelta>, order: seq<BalanceDelta>)
    requires DistinctIds(Participants(deltas)) && multiset(order) == multiset(deltas)
    ensures DistinctIds(Participants(order))
    ensures forall d :: d in order <==> d in deltas
    decreases |order|
  {
    forall d ensures d in order <==> d in deltas {
      assert d in order <==> d in multiset(order);
      assert d in deltas <==> d in multiset(deltas);
    }
    assert |order| == |deltas| by { assert |multiset(order)| == |multiset(deltas)|; }
    if order != [] {
      var i := Locate(order, deltas);
      var rest := deltas[..i] + deltas[i + 1..];
      assert Participants(rest) == Participants(deltas)[..i] + Participants(deltas)[i + 1..];
      ReorderedDeltas(rest, order[1..]);
      assert order == [order[0]] + order[1..];
      ParticipantsSplit(order[0], order[1..]);
      forall p | p in Participants(order[1..]) ensures p != order[0].participant {
        var j :| 0 <= j < |order[1..]| && order[1..][j].participant == p;
        assert order[1..][j] in rest;
        var k :| 0 <= k < |rest| && rest[k] == order[1..][j];
        var ids := Participants(deltas);
        assert k < i ==> ids[k] == p && ids[k] != ids[i];
        assert k >= i ==> ids[k + 1] == p && ids[i] != ids[k + 1];
      }
    }
  }

  lemma {:induction false} FirstAppearancesAreAll(xs: seq<u32>)
    ensures DistinctIds(FirstAppearances(xs))
    ensures forall x :: x in FirstAppearances(xs) <==> x in xs
  {
    if xs != [] {
      FirstAppearancesAreAll(xs[..|xs| - 1]);
      assert xs == xs[..|xs| - 1] + [xs[|xs| - 1]];
    }
  }

  // ----- the bundle as a whole

  lemma {:induction false} UniformMeans(items: seq<SignedCommitment>, t: u16, payee: u32)
    ensures Uniform(items, t, payee).Ok? <==>
              forall item :: item in items ==> item.commitment.token == t && item.commitment.payee == payee
  {
    if items != [] {
      assert items == [items[0]] + items[1..];
      UniformMeans(items[1..], t, payee);
    }
  }

  ghost predicate Party(items: seq<SignedCommitment>, p: u32) {
    exists item :: item in items && (p == item.commitment.payer || p == item.commitment.payee)
  }

  lemma ItemNamesTheParties(st: BundleState, submitter: Key, owner: Key, item: SignedCommitment, p: u32)
    requires ItemApplied(st, submitter, owner, item).Ok?
    requires p in Participants(ItemApplied(st, submitter, owner, item).value.deltas)
    ensures p in Participants(st.deltas) || p == item.commitment.payer || p == item.commitment.payee
  {
    var c := item.commitment;
    var a := ItemExamined(st.ledger, st.seen, submitter, owner, item).value;
    var u := -(a.amount - a.consumed);
    var mid := DeltaAdded(st.deltas, c.payer, u).value;
    AddingNamesOnlyOne(mid, c.payee, a.amount, p);
    if p in Participants(mid) {
      AddingNamesOnlyOne(st.deltas, c.payer, u, p);
    }
  }

  /** The participants with a delta are the payee and payers of the bundle. */
  lemma {:induction false} DeltasNameTheParties(st: BundleState, submitter: Key, owner: Key,
                                                items: seq<SignedCommitment>, p: u32)
    requires ItemsApplied(st, submitter, owner, items).Ok?
    requires p in Participants(ItemsApplied(st, submitter, owner, items).value.deltas)
    ensures p in Participants(st.deltas) || Party(items, p)
    decreases |items|
  {
    if items != [] {
      var st1 := ItemApplied(st, submitter, owner, items[0]).value;
      DeltasNameTheParties(st1, submitter, owner, items[1..], p);
      if Party(items[1..], p) {
        var item :| item in items[1..] && (p == item.commitment.payer || p == item.commitment.payee);
        assert item in items;
      } else {
        ItemNamesTheParties(st, submitter, owner, items[0], p);
        assert items[0] in items;
      }
    }
  }

  /** A participant other than the payee is debited for at most one of the commitments. */
  lemma {:induction false} PayerNet(lanes: Lanes, ss: seq<Submission>, t: u16, payee: u32, p: u32)
    requires OnePayee(ss, t, payee) && p != payee
    ensures var net := Net(lanes, TransfersOf(ss), p);
            || net == 0
            || exists s :: s in ss && s.commitment.payer == p && net == Effect(lanes, TransferOf(s), p)
  {
    if ss != [] {
      RestOfOnePayee(ss, t, payee);
      assert ss[0] in ss;
      PayerNet(lanes, ss[1..], t, payee, p);
      if ss[0].commitment.payer == p {
        var xs := TransfersOf(ss[1..]);
        forall x | x in xs ensures x.lane.payer != p && x.lane.payee != p {
          var i :| 0 <= i < |xs| && xs[i] == x;
          assert ss[1..][i] in ss[1..];
        }
        OutsiderNet(lanes, xs, p);
      } else if Net(lanes, TransfersOf(ss[1..]), p) != 0 {
        var s :| s in ss[1..] && s.commitment.payer == p
                 && Net(lanes, TransfersOf(ss[1..]), p) == Effect(lanes, TransferOf(s), p);
        assert s in ss;
      }
    }
  }

  lemma PayersCanPay(l: Ledger, tokens: set<u16>, ss: seq<Submission>, t: u16, payee: u32, p: u32)
    requires OnePayee(ss, t, payee) && p != payee && AllAcceptable(l, tokens, ss)
    ensures DeltaOk(l, p, t, Net(l.lanes, TransfersOf(ss), p))
  {
    PayerNet(l.lanes, ss, t, payee, p);
  }

  lemma AcceptableAdvance(l: Ledger, tokens: set<u16>, ss: seq<Submission>, t: u16, payee: u32)
    requires OnePayee(ss, t, payee) && AllAcceptable(l, tokens, ss) && ss != []
    ensures ToPayee(l.lanes, TransfersOf(ss), t, payee)
    ensures Net(l.lanes, TransfersOf(ss), payee) == Gross(l.lanes, TransfersOf(ss)) > 0
  {
    var xs := TransfersOf(ss);
    forall x | x in xs ensures x.lane.token == t && x.lane.payee == payee && Advances(l.lanes, x) {
      var i :| 0 <= i < |xs| && xs[i] == x;
      assert ss[i] in ss;
    }
    PayeeNet(l.lanes, xs, t, payee);
  }

  /** The last pass of a bundle whose second pass gathered the deltas of `ss`. */
  lemma LastPass(l: Ledger, st: BundleState, tokens: set<u16>, ss: seq<Submission>, t: u16, payee: u32,
                 order: seq<BalanceDelta>)
    requires ss != [] && OnePayee(ss, t, payee) && AllAcceptable(l, tokens, ss)
    requires LoopDone(BundleStart(l), st, TransfersOf(ss))
    requires multiset(order) == multiset(st.deltas)
    ensures var applied := PositionsApplied(st.ledger, Participants(order), t, Amounts(order));
            && (applied.Ok? <==> CanReceive(l, payee, t, Gross(l.lanes, TransfersOf(ss))))
            && (applied.Ok? ==> WhollyMoved(l, applied.value, t, TransfersOf(ss)))
  {
    LastPassAmounts(l, st, tokens, ss, t, order);
    LastPassVerdict(l, st, tokens, ss, t, payee, order);
    var applied := PositionsApplied(st.ledger, Participants(order), t, Amounts(order));
    PositionsOutcome(st.ledger, Participants(order), t, Amounts(order));
    if applied.Ok? {
      forall p: u32 ensures Shifted(l, applied.value, p, t, Net(l.lanes, TransfersOf(ss), p)) {
        LastPassShift(l, st, applied.value, ss, t, order, p);
      }
    }
  }

  /** The pass meets every participant with its net effect, and nobody else has one. */
  lemma LastPassAmounts(l: Ledger, st: BundleState, tokens: set<u16>, ss: seq<Submission>, t: u16,
                        order: seq<BalanceDelta>)
    requires LoopDone(BundleStart(l), st, TransfersOf(ss))
    requires multiset(order) == multiset(st.deltas)
    ensures DistinctIds(Participants(order))
    ensures forall k :: 0 <= k < |order| ==>
              Amounts(order)[k] == Net(l.lanes, TransfersOf(ss), Participants(order)[k])
    ensures forall p :: p !in Participants(order) ==> Net(l.lanes, TransfersOf(ss), p) == 0
  {
    ReorderedDeltas(st.deltas, order);
    forall k | 0 <= k < |order|
      ensures Amounts(order)[k] == Net(l.lanes, TransfersOf(ss), Participants(order)[k])
    {
      assert order[k] in st.deltas;
      FindMember(st.deltas, order[k]);
    }
    forall p | p !in Participants(order) ensures Net(l.lanes, TransfersOf(ss), p) == 0 {
      NamedInBoth(st.deltas, order, p);
      FindAbsent(st.deltas, p);
    }
  }

  lemma NamedInBoth(deltas: seq<BalanceDelta>, order: seq<BalanceDelta>, p: u32)
    requires forall d :: d in deltas ==> d in order
    ensures p in Participants(deltas) ==> p in Participants(order)
  {
    if p in Participants(deltas) {
      var j :| 0 <= j < |deltas| && Participants(deltas)[j] == p;
      assert deltas[j] in order;
      var k :| 0 <= k < |order| && order[k] == deltas[j];
      assert Participants(order)[k] == p;
    }
  }

  lemma LastPassVerdict(l: Ledger, st: BundleState, tokens: set<u16>, ss: seq<Submission>, t: u16, payee: u32,
                        order: seq<BalanceDelta>)
    requires ss != [] && OnePayee(ss, t, payee) && AllAcceptable(l, tokens, ss)
    requires st.ledger == l.(lanes := st.ledger.lanes)
    requires forall k :: 0 <= k < |order| ==>
               Amounts(order)[k] == Net(l.lanes, TransfersOf(ss), Participants(order)[k])
    requires forall p :: p !in Participants(order) ==> Net(l.lanes, TransfersOf(ss), p) == 0
    ensures DeltasOk(st.ledger, Participants(order), t, Amounts(order))
            <==> CanReceive(l, payee, t, Gross(l.lanes, TransfersOf(ss)))
  {
    hide OnePayee, AllAcceptable, ToPayee;
    var ids := Participants(order);
    AcceptableAdvance(l, tokens, ss, t, payee);
    var at :| 0 <= at < |ids| && ids[at] == payee;
    forall k | 0 <= k < |ids|
      ensures DeltaOk(st.ledger, ids[k], t, Amounts(order)[k])
              <==> (ids[k] != payee || CanReceive(l, payee, t, Gross(l.lanes, TransfersOf(ss))))
    {
      DeltaOkIsLocal(l, st.ledger, ids[k], t, Amounts(order)[k]);
      if ids[k] != payee {
        PayersCanPay(l, tokens, ss, t, payee, ids[k]);
      }
    }
  }

  lemma LastPassShift(l: Ledger, st: BundleState, l': Ledger, ss: seq<Submission>, t: u16,
                      order: seq<BalanceDelta>, p: u32)
    requires st.ledger == l.(lanes := st.ledger.lanes)
    requires Landed(st.ledger, l', Participants(order), t, Amounts(order))
    requires forall k :: 0 <= k < |order| ==>
               Amounts(order)[k] == Net(l.lanes, TransfersOf(ss), Participants(order)[k])
    requires p !in Participants(order) ==> Net(l.lanes, TransfersOf(ss), p) == 0
    ensures Shifted(l, l', p, t, Net(l.lanes, TransfersOf(ss), p))
  {
    var ids := Participants(order);
    if p in ids {
      var k :| 0 <= k < |ids| && ids[k] == p;
      assert Shifted(st.ledger, l', ids[k], t, Amounts(order)[k]);
    } else {
      assert SameAccounts(st.ledger, l', p);
    }
  }

  /** A bundle to one payee, with distinct lanes, succeeds exactly when each of its commitments is
      acceptable as things stand and the payee can take the sum. */
  lemma BundleVerdict(l: Ledger, tokens: set<u16>, submitter: Key, items: seq<SignedCommitment>)
    requires items != []
    requires OnePayee(SubmissionsOf(submitter, items), items[0].commitment.token, items[0].commitment.payee)
    ensures var t, payee, ss := items[0].commitment.token, items[0].commitment.payee, SubmissionsOf(submitter, items);
            && (BundleSettled(l, tokens, submitter, items).Ok? <==>
                  AllAcceptable(l, tokens, ss) && CanReceive(l, payee, t, Gross(l.lanes, TransfersOf(ss))))
            && (BundleSettled(l, tokens, submitter, items).Ok? ==>
                  && WhollyMoved(l, BundleSettled(l, tokens, submitter, items).value.ledger, t, TransfersOf(ss))
                  && BundleSettled(l, tokens, submitter, items).value.total == Gross(l.lanes, TransfersOf(ss)))
  {
    hide AllAcceptable, WhollyMoved, LoopDone;
    var t, payee, ss := items[0].commitment.token, items[0].commitment.payee, SubmissionsOf(submitter, items);
    BundleGuards(l, tokens, submitter, items);
    if t in tokens && payee in l.slots {
      var owner := l.slots[payee].owner;
      TransfersIgnoreSubmitter(submitter, items);
      StartIsPrepared(l, tokens, submitter, items, t, payee);
      ItemsOutcome(BundleStart(l), tokens, submitter, owner, items, t, payee);
      var loop := ItemsApplied(BundleStart(l), submitter, owner, items);
      if loop.Ok? {
        BundleOrder(l, submitter, owner, items);
        LastPass(l, loop.value, tokens, ss, t, payee, ByBucket(BundleBuckets(items), loop.value.deltas));
        LoopTotal(BundleStart(l), loop.value, TransfersOf(ss));
      }
    }
  }

  lemma LoopTotal(st: BundleState, st': BundleState, xs: seq<Transfer>)
    requires LoopDone(st, st', xs)
    ensures st'.total == st.total + Gross(st.ledger.lanes, xs)
  {
  }

  /** The first checks of a bundle never fail where the commitments are acceptable. */
  lemma BundleGuards(l: Ledger, tokens: set<u16>, submitter: Key, items: seq<SignedCommitment>)
    requires items != []
    requires OnePayee(SubmissionsOf(submitter, items), items[0].commitment.token, items[0].commitment.payee)
    ensures Uniform(items, items[0].commitment.token, items[0].commitment.payee).Ok?
    ensures forall item :: item in items ==> item.commitment.payee == items[0].commitment.payee
    ensures AllAcceptable(l, tokens, SubmissionsOf(submitter, items)) ==>
              items[0].commitment.token in tokens && items[0].commitment.payee in l.slots
  {
    var ss := SubmissionsOf(submitter, items);
    UniformMeans(items, items[0].commitment.token, items[0].commitment.payee);
    assert ss[0] in ss;
    forall item | item in items
      ensures item.commitment.token == items[0].commitment.token
              && item.commitment.payee == items[0].commitment.payee
    {
      var i :| 0 <= i < |items| && items[i] == item;
      assert ss[i] in ss;
    }
  }

  lemma StartIsPrepared(l: Ledger, tokens: set<u16>, submitter: Key, items: seq<SignedCommitment>, t: u16, payee: u32)
    requires OnePayee(SubmissionsOf(submitter, items), t, payee) && t in tokens && payee in l.slots
    ensures Prepared(BundleStart(l), tokens, l.slots[payee].owner, items, t, payee)
  {
    var ss, ss0 := SubmissionsOf(submitter, items), SubmissionsOf(DEFAULT_KEY, items);
    TransfersIgnoreSubmitter(submitter, items);
    forall s | s in ss0 ensures s.commitment.token == t && s.commitment.payee == payee {
      var i :| 0 <= i < |ss0| && ss0[i] == s;
      assert ss[i] in ss;
    }
  }

  /** The account list covers every party, so the nested loop meets each delta once. */
  lemma BundleOrder(l: Ledger, submitter: Key, owner: Key, items: seq<SignedCommitment>)
    requires items != [] && ItemsApplied(BundleStart(l), submitter, owner, items).Ok?
    requires forall item :: item in items ==> item.commitment.payee == items[0].commitment.payee
    ensures var deltas := ItemsApplied(BundleStart(l), submitter, owner, items).value.deltas;
            multiset(ByBucket(BundleBuckets(items), deltas)) == multiset(deltas)
  {
    hide ItemsApplied, ByBucket;
    var deltas := ItemsApplied(BundleStart(l), submitter, owner, items).value.deltas;
    var buckets: seq<u32> := [BucketOf(items[0].commitment.payee)]
      + seq(|items|, i requires 0 <= i < |items| => BucketOf(items[i].commitment.payer));
    FirstAppearancesAreAll(buckets);
    forall d | d in deltas ensures BucketOf(d.participant) in BundleBuckets(items) {
      var j :| 0 <= j < |deltas| && deltas[j] == d;
      assert Participants(deltas)[j] == d.participant;
      DeltasNameTheParties(BundleStart(l), submitter, owner, items, d.participant);
      var item :| item in items
                  && (d.participant == item.commitment.payer || d.participant == item.commitment.payee);
      var i :| 0 <= i < |items| && items[i] == item;
      assert buckets[0] in buckets && buckets[i + 1] in buckets;
    }
    NestedLoopAppliesEachOnce(BundleBuckets(items), deltas);
  }

  /** A bundle equals a sequence: for one payee, one token and distinct lanes it succeeds exactly
      when settling its commitments one by one does, in any order, and it ends in the identical
      ledger. */
  lemma BundleEqualsSequence(l: Ledger, tokens: set<u16>, submitter: Key, items: seq<SignedCommitment>,
                             order: seq<Submission>)
    requires items != []
    requires OnePayee(SubmissionsOf(submitter, items), items[0].commitment.token, items[0].commitment.payee)
    requires multiset(order) == multiset(SubmissionsOf(submitter, items))
    ensures BundleSettled(l, tokens, submitter, items).Ok? <==> SettledAll(l, tokens, order).Ok?
    ensures SettledAll(l, tokens, order).Ok? ==>
              BundleSettled(l, tokens, submitter, items).value.ledger == SettledAll(l, tokens, order).value
  {
    hide WhollyMoved, Acceptable;
    var t, payee, ss := items[0].commitment.token, items[0].commitment.payee, SubmissionsOf(submitter, items);
    SameBag(ss, order, t, payee);
    BundleVerdict(l, tokens, submitter, items);
    SequenceVerdict(l, tokens, order, t, payee);
    OrderDoesNotMatter(l.lanes, TransfersOf(ss), TransfersOf(order), payee);
    if SettledAll(l, tokens, order).Ok? {
      WhollyMovedIsFunctional(l, BundleSettled(l, tokens, submitter, items).value.ledger,
                              SettledAll(l, tokens, order).value, t, TransfersOf(ss), TransfersOf(order));
    }
  }

  lemma SameBag(ss: seq<Submission>, order: seq<Submission>, t: u16, payee: u32)
    requires ss != [] && multiset(order) == multiset(ss) && OnePayee(ss, t, payee)
    ensures order != [] && OnePayee(order, t, payee)
    ensures multiset(TransfersOf(ss)) == multiset(TransfersOf(order))
    ensures forall s :: s in order <==> s in ss
  {
    forall s ensures s in order <==> s in ss {
      assert s in order <==> s in multiset(order);
      assert s in ss <==> s in multiset(ss);
    }
    assert |order| == |ss| by { assert |multiset(order)| == |multiset(ss)|; }
    TransfersOfBag(ss, order);
    DistinctUnderReordering(TransfersOf(ss), TransfersOf(order));
  }

  lemma {:induction false} TransfersOfBag(ss: seq<Submission>, order: seq<Submission>)
    requires multiset(order) == multiset(ss)
    ensures multiset(TransfersOf(ss)) == multiset(TransfersOf(order))
    decreases |order|
  {
    assert |order| == |ss| by { assert |multiset(order)| == |multiset(ss)|; }
    if order != [] {
      var i := Locate(order, ss);
      var rest := ss[..i] + ss[i + 1..];
      TransfersOfBag(rest, order[1..]);
      assert TransfersOf(rest) == TransfersOf(ss)[..i] + TransfersOf(ss)[i + 1..];
      assert TransfersOf(order[1..]) == TransfersOf(order)[1..];
      WithoutOne(TransfersOf(ss), i);
      assert TransfersOf(order) == [TransfersOf(order)[0]] + TransfersOf(order)[1..];
    }
  }

  // ----- what a bundle must look like to be accepted

  ghost predicate Unseen(st: BundleState, items: seq<SignedCommitment>) {
    && (forall item :: item in items ==> LaneKey(item.commitment.payer, item.commitment.payee) !in st.seen)
    && (forall i, j :: 0 <= i < j < |items| ==>
          LaneKey(items[i].commitment.payer, items[i].commitment.payee)
          != LaneKey(items[j].commitment.payer, items[j].commitment.payee))
  }

  lemma {:induction false} AppliedItemsAreUnseen(st: BundleState, submitter: Key, owner: Key, items: seq<SignedCommitment>)
    requires ItemsApplied(st, submitter, owner, items).Ok?
    ensures Unseen(st, items)
    decreases |items|
  {
    if items != [] {
      var st' := ItemApplied(st, submitter, owner, items[0]).value;
      assert st'.seen == st.seen + {LaneKey(items[0].commitment.payer, items[0].commitment.payee)};
      AppliedItemsAreUnseen(st', submitter, owner, items[1..]);
      assert items == [items[0]] + items[1..];
      forall j | 1 <= j < |items|
        ensures LaneKey(items[j].commitment.payer, items[j].commitment.payee) !in st'.seen
      {
        assert items[j] == items[1..][j - 1];
      }
      forall i, j | 1 <= i < j < |items|
        ensures LaneKey(items[i].commitment.payer, items[i].commitment.payee)
                != LaneKey(items[j].commitment.payer, items[j].commitment.payee)
      {
        assert items[i] == items[1..][i - 1] && items[j] == items[1..][j - 1];
      }
    }
  }

  /** A bundle that is accepted names one payee, one token and each lane once. */
  lemma AcceptedBundleHasOnePayee(l: Ledger, tokens: set<u16>, submitter: Key, items: seq<SignedCommitment>)
    requires BundleSettled(l, tokens, submitter, items).Ok?
    ensures items != []
    ensures OnePayee(SubmissionsOf(submitter, items), items[0].commitment.token, items[0].commitment.payee)
  {
    hide ItemsApplied, Uniform, PositionsApplied;
    var t, payee := items[0].commitment.token, items[0].commitment.payee;
    UniformMeans(items, t, payee);
    AppliedItemsAreUnseen(BundleStart(l), submitter, ReadOwner(l, payee).value, items);
    var ss := SubmissionsOf(submitter, items);
    forall i, j | 0 <= i < j < |items| ensures TransfersOf(ss)[i].lane != TransfersOf(ss)[j].lane {
      assert LaneKey(items[i].commitment.payer, items[i].commitment.payee)
             != LaneKey(items[j].commitment.payer, items[j].commitment.payee);
      assert TransfersOf(ss)[i].lane == LaneOf(items[i].commitment);
      assert TransfersOf(ss)[j].lane == LaneOf(items[j].commitment);
    }
  }
}
