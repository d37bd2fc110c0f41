/** The bucket accounts as the programs change them: in place, one field at a time. */
module Buckets {
  import opened Machine
  import opened Ledgers

  /** A later write of the same entry wins. */
  lemma LastWriteWins<K(!new), V(!new)>()
    ensures forall m: map<K, V>, k: K, x: V, y: V {:trigger m[k := x][k := y]} :: m[k := x][k := y] == m[k := y]
  {
  }

  class BucketAccounts {
    const slots: map<u32, Slot>
    var balances: map<Account, Balance>
    var lanes: map<LaneId, Lane>

    ghost function State(): Ledger
      reads this
    {
      Ledger(slots, balances, lanes)
    }

    constructor (l: Ledger)
      ensures State() == l
    {
      slots, balances, lanes := l.slots, l.balances, l.lanes;
    }

    // ----- participant buckets

    method ApplyTokenDelta(p: u32, t: u16, delta: int) returns (r: Result<()>)
      modifies this`balances
      ensures r.Ok? ==> DeltaApplied(old(State()), p, t, delta) == Ok(State())
      ensures r.Err? ==> DeltaApplied(old(State()), p, t, delta) == Err(r.error)
    {
      LastWriteWins<Account, Balance>();
      if delta == 0 {
        return Ok(());
      }
      :- Require(p in slots, ParticipantNotFound);
      var a := Account(p, t);
      if delta > 0 {
        var amount :- Checked64(delta);
        if a !in balances {
          :- Require(HasRoom(balances, p), TooManyTokenBalances);
          balances := balances[a := NO_BALANCE];
        }
        var available :- Checked64(balances[a].available + amount);
        balances := balances[a := balances[a].(available := available)];
      } else {
        var amount :- Checked64(-delta);
        :- Require(a in balances, InsufficientBalance);
        var b := balances[a];
        var total :- Checked64(b.available + b.withdrawing);
        :- Require(total >= amount, InsufficientBalance);
        if b.available >= amount {
          balances := balances[a := b.(available := b.available - amount)];
        } else {
          var remainder := amount - b.available;
          balances := balances[a := b.(available := 0)];
          balances := balances[a := balances[a].(withdrawing := b.withdrawing - remainder)];
        }
      }
      return Ok(());
    }

    method DebitTokenAvailable(p: u32, t: u16, amount: u64) returns (r: Result<()>)
      modifies this`balances
      ensures r.Ok? ==> AvailableDebited(old(State()), p, t, amount) == Ok(State())
      ensures r.Err? ==> AvailableDebited(old(State()), p, t, amount) == Err(r.error)
    {
      if p !in slots {
        return Err(ParticipantNotFound);
      }
      var a := Account(p, t);
      :- Require(a in balances, TokenNotFound);
      :- Require(balances[a].available >= amount, InsufficientBalance);
      balances := balances[a := balances[a].(available := balances[a].available - amount)];
      return Ok(());
    }

    method InitiateTokenWithdrawal(p: u32, t: u16, amount: u64, destination: Key, unlockAt: i64)
      returns (r: Result<()>)
      modifies this`balances
      ensures r.Ok? ==> WithdrawalInitiated(old(State()), p, t, amount, destination, unlockAt) == Ok(State())
      ensures r.Err? ==> WithdrawalInitiated(old(State()), p, t, amount, destination, unlockAt) == Err(r.error)
    {
      LastWriteWins<Account, Balance>();
      :- Require(p in slots, ParticipantNotFound);
      var a := Account(p, t);
      :- Require(a in balances, TokenNotFound);
      :- Require(balances[a].unlockAt == 0, WithdrawalAlreadyPending);
      :- Require(balances[a].available >= amount, InsufficientBalance);
      balances := balances[a := balances[a].(available := balances[a].available - amount)];
      var withdrawing :- Checked64(balances[a].withdrawing + amount);
      balances := balances[a := balances[a].(withdrawing := withdrawing)];
      balances := balances[a := balances[a].(destination := destination, unlockAt := unlockAt)];
      return Ok(());
    }

    method ClearTokenWithdrawal(p: u32, t: u16) returns (r: Result<()>)
      modifies this`balances
      ensures r.Ok? ==> WithdrawalCleared(old(State()), p, t) == Ok(State())
      ensures r.Err? ==> WithdrawalCleared(old(State()), p, t) == Err(r.error)
    {
      LastWriteWins<Account, Balance>();
      :- Require(p in slots, ParticipantNotFound);
      var a := Account(p, t);
      :- Require(a in balances, TokenNotFound);
      balances := balances[a := balances[a].(withdrawing := 0)];
      balances := balances[a := balances[a].(unlockAt := 0, destination := DEFAULT_KEY)];
      return Ok(());
    }

    /** The amount that goes back to the available part. */
    method CancelTokenWithdrawal(p: u32, t: u16) returns (r: Result<u64>)
      modifies this`balances
      ensures r.Ok? ==> WithdrawalCancelled(old(State()), p, t) == Ok(State())
      ensures r.Ok? ==> r.value == BalanceOf(old(State()), Account(p, t)).withdrawing
      ensures r.Err? ==> WithdrawalCancelled(old(State()), p, t) == Err(r.error)
    {
      LastWriteWins<Account, Balance>();
      :- Require(p in slots, ParticipantNotFound);
      var a := Account(p, t);
      :- Require(a in balances, NoWithdrawalPending);
      :- Require(balances[a].unlockAt != 0, NoWithdrawalPending);
      var returned := balances[a].withdrawing;
      var available :- Checked64(balances[a].available + returned);
      balances := balances[a := balances[a].(available := available)];
      balances := balances[a := balances[a].(withdrawing := 0, unlockAt := 0, destination := DEFAULT_KEY)];
      return Ok(returned);
    }

    // ----- channel buckets

    /** `cap_pending_unlock_at_lane_offset_in_data`. */
    method CapPendingUnlock(id: LaneId, max: u64)
      requires id in lanes
      modifies this`lanes
      ensures lanes == old(lanes)[id := PendingCapped(old(lanes)[id], max)]
    {
      LastWriteWins<LaneId, Lane>();
      if lanes[id].pendingUnlockAmount == 0 {
        lanes := lanes[id := lanes[id].(unlockRequestedAt := 0)];
      } else if lanes[id].pendingUnlockAmount > max {
        lanes := lanes[id := lanes[id].(pendingUnlockAmount := max)];
        if max == 0 {
          lanes := lanes[id := lanes[id].(unlockRequestedAt := 0)];
        }
      }
    }

    /** `apply_lane_settlement_at_offset_in_data`. */
    method ApplyLaneSettlement(id: LaneId, target: u64, consumed: u64)
      requires id in lanes && consumed <= lanes[id].lockedBalance
      modifies this`lanes
      ensures lanes == old(lanes)[id := LaneSettled(old(lanes)[id], target, consumed)]
    {
      LastWriteWins<LaneId, Lane>();
      var locked := lanes[id].lockedBalance - consumed;
      lanes := lanes[id := lanes[id].(lockedBalance := locked)];
      CapPendingUnlock(id, locked);
      lanes := lanes[id := lanes[id].(settledCumulative := target)];
    }

    method AddLaneLockedBalance(id: LaneId, amount: u64) returns (r: Result<()>)
      modifies this`lanes
      ensures r.Ok? ==> LockAdded(old(State()), id, amount) == Ok(State())
      ensures r.Err? ==> LockAdded(old(State()), id, amount) == Err(r.error)
    {
      if id.payer == id.payee {
        return Err(SelfChannelNotAllowed);
      }
      :- Require(id in lanes, ChannelNotInitialized);
      var locked :- Checked64(lanes[id].lockedBalance + amount);
      lanes := lanes[id := lanes[id].(lockedBalance := locked)];
      return Ok(());
    }

    method RequestLaneUnlock(id: LaneId, amount: u64, now: i64) returns (r: Result<()>)
      modifies this`lanes
      ensures r.Ok? ==> UnlockRequested(old(State()), id, amount, now) == Ok(State())
      ensures r.Err? ==> UnlockRequested(old(State()), id, amount, now) == Err(r.error)
    {
      LastWriteWins<LaneId, Lane>();
      :- Require(id.payer != id.payee, SelfChannelNotAllowed);
      :- Require(id in lanes, ChannelNotInitialized);
      :- Require(amount <= lanes[id].lockedBalance, InsufficientLockedBalance);
      lanes := lanes[id := lanes[id].(pendingUnlockAmount := amount)];
      lanes := lanes[id := lanes[id].(unlockRequestedAt := now)];
      return Ok(());
    }

    /** The released amount. */
    method ExecuteLaneUnlock(id: LaneId) returns (r: Result<u64>)
      modifies this`lanes
      ensures r.Ok? ==> UnlockExecuted(old(State()), id) == Ok((State(), r.value))
      ensures r.Err? ==> UnlockExecuted(old(State()), id) == Err(r.error)
    {
      LastWriteWins<LaneId, Lane>();
      :- Require(id.payer != id.payee, SelfChannelNotAllowed);
      :- Require(id in lanes, ChannelNotInitialized);
      :- Require(lanes[id].HasPendingUnlock(), NoChannelUnlockPending);
      var released := Min(lanes[id].pendingUnlockAmount, lanes[id].lockedBalance);
      lanes := lanes[id := lanes[id].(lockedBalance := lanes[id].lockedBalance - released)];
      lanes := lanes[id := lanes[id].(pendingUnlockAmount := 0, unlockRequestedAt := 0)];
      return Ok(released);
    }

    method CooperativeUnlockLane(id: LaneId, amount: u64) returns (r: Result<()>)
      modifies this`lanes
      ensures r.Ok? ==> CooperativelyUnlocked(old(State()), id, amount) == Ok(State())
      ensures r.Err? ==> CooperativelyUnlocked(old(State()), id, amount) == Err(r.error)
    {
      LastWriteWins<LaneId, Lane>();
      :- Require(id.payer != id.payee, SelfChannelNotAllowed);
      :- Require(id in lanes, ChannelNotInitialized);
      :- Require(amount <= lanes[id].lockedBalance, InsufficientLockedBalance);
      var locked := lanes[id].lockedBalance - amount;
      lanes := lanes[id := lanes[id].(lockedBalance := locked)];
      CapPendingUnlock(id, locked);
      return Ok(());
    }

    method InitializeLane(id: LaneId, signer: Key) returns (r: Result<()>)
      modifies this`lanes
      ensures r.Ok? ==> LaneCreated(old(State()), id, signer) == Ok(State())
      ensures r.Err? ==> LaneCreated(old(State()), id, signer) == Err(r.error)
    {
      if id.payer == id.payee {
        return Err(SelfChannelNotAllowed);
      }
      :- Require(id !in lanes, ChannelAlreadyExists);
      lanes := lanes[id := Lane(0, 0, signer, 0, 0)];
      return Ok(());
    }
  }
}
