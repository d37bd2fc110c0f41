/** Deltas on the balances of many participants, each applied once. */
module BalanceDeltas {
  import opened Machine
  import opened Ledgers
  import opened SettleIndividual

  // ----- applying a list of deltas

  /** Applies `positions[k]` to the account of `ids[k]`, in order. */
  function PositionsApplied(l: Ledger, ids: seq<u32>, t: u16, positions: seq<int>): Result<Ledger>
    requires |ids| == |positions|
  {
    if ids == [] then Ok(l)
    else
      var n := |ids| - 1;
      var l' :- PositionsApplied(l, ids[..n], t, positions[..n]);
      DeltaApplied(l', ids[n], t, positions[n])
  }

  ghost predicate DistinctIds(ids: seq<u32>) {
    forall i, j :: 0 <= i < j < |ids| ==> ids[i] != ids[j]
  }

  ghost predicate DeltaOk(l: Ledger, p: u32, t: u16, delta: int) {
    || delta == 0
    || (delta > 0 && CanReceive(l, p, t, delta))
    || (delta < 0 && p in l.slots && Account(p, t) in l.balances && -delta <= Total(l, p, t) < TWO64)
  }

  ghost predicate SameAccounts(l: Ledger, l': Ledger, p: u32) {
    forall a: Account :: a.participant == p ==>
      (a in l.balances <==> a in l'.balances) && (a in l.balances ==> l.balances[a] == l'.balances[a])
  }

  /** `b` moved by `delta`: a credit goes to the available part, a debit comes from it first. */
  function ShiftedBalance(b: Balance, delta: int): Balance {
    if 0 <= delta && b.available + delta < TWO64 then Credited(b, delta)
    else if delta < 0 && -delta <= b.available + b.withdrawing then DebitedBalance(b, -delta)
    else b
  }

  /** The accounts of `p` in `l'` are those in `l`, with the one for `t` moved by `delta`. */
  ghost predicate Shifted(l: Ledger, l': Ledger, p: u32, t: u16, delta: int) {
    forall a: Account :: a.participant == p ==>
      var d := if a.token == t then delta else 0;
      && (a in l'.balances <==> a in l.balances || d > 0)
      && (a in l'.balances ==> l'.balances[a] == ShiftedBalance(BalanceOf(l, a), d))
  }

  lemma DeltaOutcome(l: Ledger, p: u32, t: u16, delta: int)
    ensures DeltaApplied(l, p, t, delta).Ok? <==> DeltaOk(l, p, t, delta)
    ensures DeltaOk(l, p, t, delta) ==>
              var l' := DeltaApplied(l, p, t, delta).value;
              && l' == l.(balances := l'.balances)
              && Total(l', p, t) == Total(l, p, t) + delta
              && Shifted(l, l', p, t, delta)
              && (forall q :: q != p ==> SameAccounts(l, l', q))
  {
  }

  lemma DeltaOkIsLocal(l: Ledger, l': Ledger, p: u32, t: u16, delta: int)
    requires SameAccounts(l, l', p) && l.slots == l'.slots
    ensures DeltaOk(l, p, t, delta) <==> DeltaOk(l', p, t, delta)
    ensures Total(l, p, t) == Total(l', p, t)
  {
    assert Account(p, t).participant == p;
    RoomDependsOnKeys(l.balances, l'.balances, p);
  }

  ghost predicate DeltasOk(l: Ledger, ids: seq<u32>, t: u16, positions: seq<int>)
    requires |ids| == |positions|
  {
    forall k :: 0 <= k < |ids| ==> DeltaOk(l, ids[k], t, positions[k])
  }

  /** `l'` is `l` with exactly the positions of `ids` landed. */
  ghost predicate Landed(l: Ledger, l': Ledger, ids: seq<u32>, t: u16, positions: seq<int>)
    requires |ids| == |positions|
  {
    && l' == l.(balances := l'.balances)
    && (forall k :: 0 <= k < |ids| ==> Total(l', ids[k], t) == Total(l, ids[k], t) + positions[k])
    && (forall k :: 0 <= k < |ids| ==> Shifted(l, l', ids[k], t, positions[k]))
    && (forall p :: p !in ids ==> SameAccounts(l, l', p))
  }

  lemma LandNext(l: Ledger, l1: Ledger, l2: Ledger, ids: seq<u32>, t: u16, positions: seq<int>)
    requires |ids| == |positions| && DistinctIds(ids) && ids != []
    requires var n := |ids| - 1;
             && Landed(l, l1, ids[..n], t, positions[..n])
             && l2 == l1.(balances := l2.balances)
             && Total(l2, ids[n], t) == Total(l, ids[n], t) + positions[n]
             && Shifted(l1, l2, ids[n], t, positions[n])
             && (forall q :: q != ids[n] ==> SameAccounts(l1, l2, q))
    ensures Landed(l, l2, ids, t, positions)
  {
    var n := |ids| - 1;
    assert ids == ids[..n] + [ids[n]];
    forall k | 0 <= k < |ids|
      ensures Total(l2, ids[k], t) == Total(l, ids[k], t) + positions[k]
      ensures Shifted(l, l2, ids[k], t, positions[k])
    {
      if k < n {
        assert ids[..n][k] == ids[k] && positions[..n][k] == positions[k];
        DeltaOkIsLocal(l1, l2, ids[k], t, 0);
        assert Shifted(l, l1, ids[k], t, positions[k]) && SameAccounts(l1, l2, ids[k]);
      } else {
        assert ids[n] !in ids[..n];
        assert SameAccounts(l, l1, ids[n]);
      }
    }
    forall p | p !in ids ensures SameAccounts(l, l2, p) {
      assert SameAccounts(l, l1, p) && SameAccounts(l1, l2, p);
    }
  }

  /** Applying the positions succeeds exactly when each of them can be applied on its own. */
  lemma {:induction false} PositionsOutcome(l: Ledger, ids: seq<u32>, t: u16, positions: seq<int>)
    requires |ids| == |positions| && DistinctIds(ids)
    ensures PositionsApplied(l, ids, t, positions).Ok? <==> DeltasOk(l, ids, t, positions)
    ensures DeltasOk(l, ids, t, positions) ==>
              Landed(l, PositionsApplied(l, ids, t, positions).value, ids, t, positions)
    decreases |ids|
  {
    if ids != [] {
      var n := |ids| - 1;
      PositionsOutcome(l, ids[..n], t, positions[..n]);
      DeltasSplit(l, ids, t, positions);
      if DeltasOk(l, ids[..n], t, positions[..n]) {
        var l1 := PositionsApplied(l, ids[..n], t, positions[..n]).value;
        assert ids[n] !in ids[..n];
        DeltaOkIsLocal(l, l1, ids[n], t, positions[n]);
        DeltaOutcome(l1, ids[n], t, positions[n]);
        if DeltaOk(l, ids[n], t, positions[n]) {
          LandNext(l, l1, DeltaApplied(l1, ids[n], t, positions[n]).value, ids, t, positions);
        }
      }
    }
  }

  lemma DeltasSplit(l: Ledger, ids: seq<u32>, t: u16, positions: seq<int>)
    requires |ids| == |positions| && ids != []
    ensures var n := |ids| - 1;
            DeltasOk(l, ids, t, positions) <==>
              DeltasOk(l, ids[..n], t, positions[..n]) && DeltaOk(l, ids[n], t, positions[n])
  {
    var n := |ids| - 1;
    if DeltasOk(l, ids[..n], t, positions[..n]) && DeltaOk(l, ids[n], t, positions[n]) {
      forall k | 0 <= k < |ids| ensures DeltaOk(l, ids[k], t, positions[k]) {
        assert k < n ==> DeltaOk(l, ids[..n][k], t, positions[..n][k]);
      }
    }
  }

  // ----- gathering deltas

  datatype BalanceDelta = BalanceDelta(participant: u32, amountDelta: int)

  function FindDelta(deltas: seq<BalanceDelta>, p: u32): int {
    if deltas == [] then 0
    else if deltas[0].participant == p then deltas[0].amountDelta
    else FindDelta(deltas[1..], p)
  }

  /** `add_balance_delta`. */
  function DeltaAdded(deltas: seq<BalanceDelta>, p: u32, amount: int): Result<seq<BalanceDelta>> {
    if amount == 0 then Ok(deltas)
    else if deltas == [] then Ok([BalanceDelta(p, amount)])
    else if deltas[0].participant == p then
      var sum := deltas[0].amountDelta + amount;
      :- Require(CheckedSigned128(sum).Ok?, NetPositionOverflow);
      Ok([BalanceDelta(p, sum)] + deltas[1..])
    else
      var rest :- DeltaAdded(deltas[1..], p, amount);
      Ok([deltas[0]] + rest)
  }

  function Participants(deltas: seq<BalanceDelta>): seq<u32> {
    seq(|deltas|, i requires 0 <= i < |deltas| => deltas[i].participant)
  }

  function Amounts(deltas: seq<BalanceDelta>): seq<int> {
    seq(|deltas|, i requires 0 <= i < |deltas| => deltas[i].amountDelta)
  }

  lemma DistinctSplits(first: u32, rest: seq<u32>)
    ensures DistinctIds([first] + rest) <==> DistinctIds(rest) && first !in rest
  {
    var ids := [first] + rest;
    assert forall i :: 0 <= i < |rest| ==> rest[i] == ids[i + 1];
    if DistinctIds(ids) {
      forall i, j | 0 <= i < j < |rest| ensures rest[i] != rest[j] {
        assert ids[i + 1] != ids[j + 1];
      }
      forall i | 0 <= i < |rest| ensures rest[i] != first {
        assert ids[0] != ids[i + 1];
      }
    } else {
      var i, j :| 0 <= i < j < |ids| && ids[i] == ids[j];
      assert i > 0 ==> rest[i - 1] == rest[j - 1];
      assert rest[j - 1] == ids[j];
    }
  }

  lemma ParticipantsSplit(first: BalanceDelta, rest: seq<BalanceDelta>)
    ensures Participants([first] + rest) == [first.participant] + Participants(rest)
    ensures DistinctIds(Participants([first] + rest))
            <==> DistinctIds(Participants(rest)) && first.participant !in Participants(rest)
  {
    assert Participants([first] + rest) == [first.participant] + Participants(rest);
    DistinctSplits(first.participant, Participants(rest));
  }

  /** Adding a delta changes the sum of one participant and keeps one entry per participant. */
  lemma {:induction false} AddingOneDelta(deltas: seq<BalanceDelta>, p: u32, amount: int)
    requires DistinctIds(Participants(deltas))
    requires CheckedSigned128(FindDelta(deltas, p) + amount).Ok?
    ensures DeltaAdded(deltas, p, amount).Ok?
    ensures var after := DeltaAdded(deltas, p, amount).value;
            && DistinctIds(Participants(after))
            && (forall q :: q in Participants(after) <==> q in Participants(deltas) || (q == p && amount != 0))
            && (forall q :: FindDelta(after, q) == FindDelta(deltas, q) + if q == p then amount else 0)
  {
    if amount != 0 && deltas == [] {
      assert DeltaAdded(deltas, p, amount).value == [BalanceDelta(p, amount)] + [];
      ParticipantsSplit(BalanceDelta(p, amount), []);
      assert Participants([]) == [];
    } else if amount != 0 {
      var rest := deltas[1..];
      assert deltas == [deltas[0]] + rest;
      ParticipantsSplit(deltas[0], rest);
      if deltas[0].participant == p {
        ParticipantsSplit(BalanceDelta(p, deltas[0].amountDelta + amount), rest);
      } else {
        AddingOneDelta(rest, p, amount);
        ParticipantsSplit(deltas[0], DeltaAdded(rest, p, amount).value);
      }
    }
  }

  lemma {:induction false} AddingNamesOnlyOne(deltas: seq<BalanceDelta>, p: u32, amount: int, q: u32)
    requires DeltaAdded(deltas, p, amount).Ok?
    requires q in Participants(DeltaAdded(deltas, p, amount).value)
    ensures q == p || q in Participants(deltas)
  {
    if amount != 0 && deltas != [] {
      var rest := deltas[1..];
      assert deltas == [deltas[0]] + rest;
      ParticipantsSplit(deltas[0], rest);
      if deltas[0].participant == p {
        ParticipantsSplit(BalanceDelta(p, deltas[0].amountDelta + amount), rest);
      } else {
        ParticipantsSplit(deltas[0], DeltaAdded(rest, p, amount).value);
        if q != deltas[0].participant {
          AddingNamesOnlyOne(rest, p, amount, q);
        }
      }
    }
  }

  lemma {:induction false} FindMember(deltas: seq<BalanceDelta>, d: BalanceDelta)
    requires DistinctIds(Participants(deltas)) && d in deltas
    ensures FindDelta(deltas, d.participant) == d.amountDelta
  {
    var rest := deltas[1..];
    assert deltas == [deltas[0]] + rest;
    ParticipantsSplit(deltas[0], rest);
    if d != deltas[0] {
      var i :| 0 <= i < |rest| && rest[i] == d;
      assert Participants(rest)[i] == d.participant;
      FindMember(rest, d);
    }
  }

  lemma {:induction false} FindAbsent(deltas: seq<BalanceDelta>, p: u32)
    requires p !in Participants(deltas)
    ensures FindDelta(deltas, p) == 0
  {
    if deltas != [] {
      assert Participants(deltas) == [deltas[0].participant] + Participants(deltas[1..]);
      FindAbsent(deltas[1..], p);
    }
  }
}
