/** What a set of lane advances moves in all, independent of the route that applies them. */
module Transfers {
  import opened Machine
  import opened Ledgers
  import opened SettleIndividual

  /** A lane and the cumulative amount to bring it to. */
  datatype Transfer = Transfer(lane: LaneId, target: u64)

  type Lanes = map<LaneId, Lane>

  ghost predicate Advances(lanes: Lanes, x: Transfer) {
    x.lane in lanes && lanes[x.lane].settledCumulative < x.target && x.lane.payer != x.lane.payee
  }

  ghost predicate AllAdvance(lanes: Lanes, xs: seq<Transfer>) {
    forall x :: x in xs ==> Advances(lanes, x)
  }

  ghost predicate DistinctLanes(xs: seq<Transfer>) {
    forall i, j :: 0 <= i < j < |xs| ==> xs[i].lane != xs[j].lane
  }

  ghost function Amount(lanes: Lanes, x: Transfer): nat {
    if Advances(lanes, x) then AdvanceOf(lanes[x.lane], x.target).amount else 0
  }

  ghost function Consumed(lanes: Lanes, x: Transfer): nat {
    if Advances(lanes, x) then AdvanceOf(lanes[x.lane], x.target).consumed else 0
  }

  /** What `x` does to the balance of participant `p`. */
  ghost function Effect(lanes: Lanes, x: Transfer, p: u32): int {
    (if x.lane.payee == p then Amount(lanes, x) else 0)
    - (if x.lane.payer == p then Amount(lanes, x) - Consumed(lanes, x) else 0)
  }

  ghost function Net(lanes: Lanes, xs: seq<Transfer>, p: u32): int {
    if xs == [] then 0 else Effect(lanes, xs[0], p) + Net(lanes, xs[1..], p)
  }

  ghost function Gross(lanes: Lanes, xs: seq<Transfer>): nat {
    if xs == [] then 0 else Amount(lanes, xs[0]) + Gross(lanes, xs[1..])
  }

  /** `after` is `before` with exactly the lanes of `xs` advanced. */
  ghost predicate LanesAdvanced(before: Lanes, after: Lanes, xs: seq<Transfer>) {
    && AllAdvance(before, xs)
    && after.Keys == before.Keys
    && (forall x :: x in xs ==> after[x.lane] == LaneAdvanced(before[x.lane], x.target))
    && (forall id :: id in before && (forall x :: x in xs ==> x.lane != id) ==> after[id] == before[id])
  }

  lemma LanesAdvancedIsFunctional(before: Lanes, a: Lanes, b: Lanes, xs: seq<Transfer>, ys: seq<Transfer>)
    requires forall x :: x in xs <==> x in ys
    requires LanesAdvanced(before, a, xs) && LanesAdvanced(before, b, ys)
    ensures a == b
  {
    forall id | id in before ensures a[id] == b[id] {
      if x :| x in xs && x.lane == id {
        assert x in ys;
      }
    }
  }

  lemma AdvanceFirstLane(before: Lanes, after: Lanes, xs: seq<Transfer>)
    requires xs != [] && DistinctLanes(xs) && Advances(before, xs[0])
    requires LanesAdvanced(before[xs[0].lane := LaneAdvanced(before[xs[0].lane], xs[0].target)], after, xs[1..])
    ensures LanesAdvanced(before, after, xs)
  {
    var x0 := xs[0];
    var mid := before[x0.lane := LaneAdvanced(before[x0.lane], x0.target)];
    RestIsElsewhere(xs);
    forall x | x in xs
      ensures Advances(before, x) && after[x.lane] == LaneAdvanced(before[x.lane], x.target)
    {
      if x in xs[1..] {
        assert Advances(mid, x);
      } else {
        assert x == x0;
      }
    }
    forall id | id in before && (forall x :: x in xs ==> x.lane != id)
      ensures after[id] == before[id]
    {
      assert x0 in xs && mid[id] == before[id];
    }
  }

  lemma RestIsElsewhere(xs: seq<Transfer>)
    requires xs != [] && DistinctLanes(xs)
    ensures DistinctLanes(xs[1..])
    ensures forall x :: x in xs[1..] ==> x.lane != xs[0].lane
    ensures forall x :: x in xs <==> x == xs[0] || x in xs[1..]
  {
    assert xs == [xs[0]] + xs[1..];
  }

  // ----- only the named lanes matter

  ghost predicate SameOn(a: Lanes, b: Lanes, xs: seq<Transfer>) {
    forall x :: x in xs ==> (x.lane in a <==> x.lane in b) && (x.lane in a ==> a[x.lane] == b[x.lane])
  }

  lemma {:induction false} OnlyNamedLanesMatter(a: Lanes, b: Lanes, xs: seq<Transfer>, p: u32)
    requires SameOn(a, b, xs)
    ensures Net(a, xs, p) == Net(b, xs, p)
    ensures Gross(a, xs) == Gross(b, xs)
    ensures AllAdvance(a, xs) <==> AllAdvance(b, xs)
  {
    if xs != [] {
      assert xs[0] in xs;
      assert xs == [xs[0]] + xs[1..];
      OnlyNamedLanesMatter(a, b, xs[1..], p);
      assert AllAdvance(a, xs) <==> Advances(a, xs[0]) && AllAdvance(a, xs[1..]);
      assert AllAdvance(b, xs) <==> Advances(b, xs[0]) && AllAdvance(b, xs[1..]);
    }
  }

  // ----- order does not matter

  lemma {:induction false} TakeOut(lanes: Lanes, xs: seq<Transfer>, i: nat, p: u32)
    requires i < |xs|
    ensures Net(lanes, xs, p) == Effect(lanes, xs[i], p) + Net(lanes, xs[..i] + xs[i + 1..], p)
    ensures Gross(lanes, xs) == Amount(lanes, xs[i]) + Gross(lanes, xs[..i] + xs[i + 1..])
  {
    if i == 0 {
      assert xs[..0] + xs[1..] == xs[1..];
    } else {
      TakeOut(lanes, xs[1..], i - 1, p);
      assert (xs[..i] + xs[i + 1..])[1..] == xs[1..][..i - 1] + xs[1..][i..];
    }
  }

  lemma WithoutOne<T>(xs: seq<T>, i: nat)
    requires i < |xs|
    ensures multiset(xs[..i] + xs[i + 1..]) == multiset(xs) - multiset{xs[i]}
  {
    assert xs == xs[..i] + [xs[i]] + xs[i + 1..];
    assert multiset(xs) == multiset(xs[..i]) + multiset{xs[i]} + multiset(xs[i + 1..]);
  }

  lemma WithoutFirst<T>(xs: seq<T>)
    requires xs != []
    ensures multiset(xs[1..]) == multiset(xs) - multiset{xs[0]}
  {
    assert xs == [xs[0]] + xs[1..];
  }

  lemma MemberOfSameBag<T>(xs: seq<T>, ys: seq<T>)
    requires xs != [] && multiset(xs) == multiset(ys)
    ensures xs[0] in ys
  {
    assert multiset(xs)[xs[0]] > 0;
  }

  /** The first of `xs` sits somewhere in its permutation `ys`. */
  lemma Locate<T>(xs: seq<T>, ys: seq<T>) returns (i: nat)
    requires xs != [] && multiset(xs) == multiset(ys)
    ensures i < |ys| && ys[i] == xs[0]
    ensures multiset(xs[1..]) == multiset(ys[..i] + ys[i + 1..])
  {
    MemberOfSameBag(xs, ys);
    i :| 0 <= i < |ys| && ys[i] == xs[0];
    WithoutOne(ys, i);
    WithoutFirst(xs);
  }

  lemma {:induction false} OrderDoesNotMatter(lanes: Lanes, xs: seq<Transfer>, ys: seq<Transfer>, p: u32)
    requires multiset(xs) == multiset(ys)
    ensures Net(lanes, xs, p) == Net(lanes, ys, p)
    ensures Gross(lanes, xs) == Gross(lanes, ys)
    decreases |xs|
  {
    assert |xs| == |ys| by { assert |multiset(xs)| == |multiset(ys)|; }
    if xs != [] {
      var i := Locate(xs, ys);
      TakeOut(lanes, ys, i, p);
      OrderDoesNotMatter(lanes, xs[1..], ys[..i] + ys[i + 1..], p);
    }
  }

  lemma SameMembers(xs: seq<Transfer>, ys: seq<Transfer>)
    requires multiset(xs) == multiset(ys)
    ensures forall x :: x in xs <==> x in ys
  {
    forall x ensures x in xs <==> x in ys {
      assert x in xs <==> x in multiset(xs);
      assert x in ys <==> x in multiset(ys);
    }
  }

  lemma DistinctUnderReordering(xs: seq<Transfer>, ys: seq<Transfer>)
    requires multiset(xs) == multiset(ys) && DistinctLanes(xs)
    ensures DistinctLanes(ys)
    decreases |ys|
  {
    assert |xs| == |ys| by { assert |multiset(xs)| == |multiset(ys)|; }
    if ys != [] {
      var i := Locate(ys, xs);
      var rest := xs[..i] + xs[i + 1..];
      DistinctUnderReordering(rest, ys[1..]);
      SameMembers(rest, ys[1..]);
      forall y | y in ys[1..] ensures y.lane != ys[0].lane {
        assert y in rest;
      }
      assert ys == [ys[0]] + ys[1..];
    }
  }

  // ----- settling one by one

  function TransferOf(s: Submission): Transfer {
    Transfer(LaneOf(s.commitment), s.commitment.committedAmount)
  }

  function TransfersOf(ss: seq<Submission>): seq<Transfer> {
    seq(|ss|, i requires 0 <= i < |ss| => TransferOf(ss[i]))
  }

  ghost predicate OneToken(ss: seq<Submission>, t: u16) {
    forall s :: s in ss ==> s.commitment.token == t
  }

  /** What one settlement does to the account of `p`. */
  lemma MoveEffect(l: Ledger, c: Commitment, p: u32)
    requires Moved.requires(l, c)
    ensures var l' := Moved(l, c);
            var t, a := c.token, Account(p, c.token);
            && Total(l', p, t) == Total(l, p, t) + Effect(l.lanes, Transfer(LaneOf(c), c.committedAmount), p)
            && BalanceOf(l', a).withdrawing <= BalanceOf(l, a).withdrawing
  {
  }

  /** What settling one by one adds up to, for participant `p`. */
  lemma {:induction false} SequenceOutcome(l: Ledger, tokens: set<u16>, ss: seq<Submission>, t: u16, p: u32)
    requires OneToken(ss, t) && DistinctLanes(TransfersOf(ss))
    requires SettledAll(l, tokens, ss).Ok?
    ensures var l' := SettledAll(l, tokens, ss).value;
            && l'.slots == l.slots
            && LanesAdvanced(l.lanes, l'.lanes, TransfersOf(ss))
            && Total(l', p, t) == Total(l, p, t) + Net(l.lanes, TransfersOf(ss), p)
            && BalanceOf(l', Account(p, t)).withdrawing <= BalanceOf(l, Account(p, t)).withdrawing
            && (Account(p, t) in l'.balances ==> Account(p, t) in l.balances || HasRoom(l.balances, p))
    decreases |ss|
  {
    var xs := TransfersOf(ss);
    if ss != [] {
      var c := ss[0].commitment;
      assert ss[0] in ss;
      assert TransfersOf(ss[1..]) == xs[1..];
      RestIsElsewhere(xs);
      SettlementOutcome(l, tokens, ss[0]);
      var l1 := Moved(l, c);
      SequenceOutcome(l1, tokens, ss[1..], t, p);
      MoveEffect(l, c, p);
      OnlyNamedLanesMatter(l1.lanes, l.lanes, xs[1..], p);
      AdvanceFirstLane(l.lanes, SettledAll(l1, tokens, ss[1..]).value.lanes, xs);
      if Account(p, t) !in l.balances && Account(p, t) !in l1.balances {
        RoomDependsOnKeysOf(l, l1, c, p);
      }
    }
  }

  /** Creating the payee's entry leaves everyone else the room they had. */
  lemma RoomDependsOnKeysOf(l: Ledger, l1: Ledger, c: Commitment, p: u32)
    requires Moved.requires(l, c) && l1 == Moved(l, c)
    requires p != c.payee
    ensures HasRoom(l.balances, p) <==> HasRoom(l1.balances, p)
  {
    RoomDependsOnKeys(l.balances, l1.balances, p);
  }
}
