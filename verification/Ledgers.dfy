/** Participant and channel buckets: the balances and lanes that the programs keep on chain. */
module Ledgers {
  import opened Machine

  const MAX_BUCKET_TOKEN_BALANCES: nat := 16

  datatype Slot = Slot(owner: Key, blsSchemeVersion: u8)

  datatype Balance = Balance(available: u64, withdrawing: u64, unlockAt: i64, destination: Key)

  const NO_BALANCE: Balance := Balance(0, 0, 0, DEFAULT_KEY)

  datatype Lane = Lane(
    settledCumulative: u64,
    lockedBalance: u64,
    authorizedSigner: Key,
    pendingUnlockAmount: u64,
    unlockRequestedAt: i64)
  {
    predicate HasPendingUnlock() {
      pendingUnlockAmount > 0 && unlockRequestedAt != 0
    }
  }

  /** One token entry of one participant. */
  datatype Account = Account(participant: u32, token: u16)

  /** The directed lane from a payer to a payee. */
  datatype LaneId = LaneId(payer: u32, payee: u32, token: u16)

  datatype Ledger = Ledger(
    slots: map<u32, Slot>,
    balances: map<Account, Balance>,
    lanes: map<LaneId, Lane>)

  // ----- reading

  function BalanceOf(l: Ledger, a: Account): Balance {
    if a in l.balances then l.balances[a] else NO_BALANCE
  }

  /** Available and withdrawing together, before any width check. */
  function Total(l: Ledger, p: u32, t: u16): nat {
    var b := BalanceOf(l, Account(p, t));
    b.available + b.withdrawing
  }

  predicate HasRoom(balances: map<Account, Balance>, p: u32) {
    |set a | a in balances && a.participant == p| < MAX_BUCKET_TOKEN_BALANCES
  }

  /** `read_token_total_balance_from_data`. */
  function ReadTotal(l: Ledger, p: u32, t: u16): Result<u64> {
    if p !in l.slots then Err(ParticipantNotFound)
    else
      :- Require(Account(p, t) in l.balances, TokenNotFound);
      Checked64(Total(l, p, t))
  }

  /** The balance part of `read_clearing_snapshot_from_data`: a missing entry counts as zero. */
  function ReadTotalOrZero(l: Ledger, p: u32, t: u16): Result<u64> {
    if p !in l.slots then Err(ParticipantNotFound)
    else
      Checked64(Total(l, p, t))
  }

  function ReadOwner(l: Ledger, p: u32): Result<Key> {
    if p !in l.slots then Err(ParticipantNotFound)
    else
      Ok(l.slots[p].owner)
  }

  function ReadLane(l: Ledger, id: LaneId): Result<Lane> {
    if id.payer == id.payee then Err(SelfChannelNotAllowed)
    else
      :- Require(id in l.lanes, ChannelNotInitialized);
      Ok(l.lanes[id])
  }

  // ----- balances

  /** A debit takes from the available part first, then from the withdrawing part. */
  function DebitedBalance(b: Balance, amount: nat): Balance
    requires amount <= b.available + b.withdrawing
  {
    if amount <= b.available then b.(available := b.available - amount)
    else b.(available := 0, withdrawing := b.withdrawing - (amount - b.available))
  }

  /** `apply_token_delta_in_data`. */
  function DeltaApplied(l: Ledger, p: u32, t: u16, delta: int): Result<Ledger> {
    if delta == 0 then Ok(l)
    else
      :- Require(p in l.slots, ParticipantNotFound);
      var a := Account(p, t);
      if delta > 0 then
        var amount :- Checked64(delta);
        :- Require(a in l.balances || HasRoom(l.balances, p), TooManyTokenBalances);
        var b := BalanceOf(l, a);
        var available :- Checked64(b.available + amount);
        Ok(l.(balances := l.balances[a := b.(available := available)]))
      else
        var amount :- Checked64(-delta);
        :- Require(a in l.balances, InsufficientBalance);
        var total :- Checked64(Total(l, p, t));
        :- Require(total >= amount, InsufficientBalance);
        Ok(l.(balances := l.balances[a := DebitedBalance(l.balances[a], amount)]))
  }

  /** `debit_token_available_in_data`: the withdrawing part is out of reach. */
  function AvailableDebited(l: Ledger, p: u32, t: u16, amount: u64): Result<Ledger> {
    if p !in l.slots then Err(ParticipantNotFound)
    else
      var a := Account(p, t);
      :- Require(a in l.balances, TokenNotFound);
      :- Require(l.balances[a].available >= amount, InsufficientBalance);
      Ok(l.(balances := l.balances[a := l.balances[a].(available := l.balances[a].available - amount)]))
  }

  /** `initiate_token_withdrawal_in_data`. */
  function WithdrawalInitiated(l: Ledger, p: u32, t: u16, amount: u64, destination: Key, unlockAt: i64)
    : Result<Ledger>
  {
    if p !in l.slots then Err(ParticipantNotFound)
    else
      var a := Account(p, t);
      :- Require(a in l.balances, TokenNotFound);
      var b := l.balances[a];
      :- Require(b.unlockAt == 0, WithdrawalAlreadyPending);
      :- Require(b.available >= amount, InsufficientBalance);
      var withdrawing :- Checked64(b.withdrawing + amount);
      Ok(l.(balances := l.balances[a := Balance(b.available - amount, withdrawing, unlockAt, destination)]))
  }

  /** `clear_token_withdrawal_in_data`. */
  function WithdrawalCleared(l: Ledger, p: u32, t: u16): Result<Ledger> {
    if p !in l.slots then Err(ParticipantNotFound)
    else
      var a := Account(p, t);
      :- Require(a in l.balances, TokenNotFound);
      Ok(l.(balances := l.balances[a := Balance(l.balances[a].available, 0, 0, DEFAULT_KEY)]))
  }

  /** `cancel_token_withdrawal_in_data`. */
  function WithdrawalCancelled(l: Ledger, p: u32, t: u16): Result<Ledger> {
    if p !in l.slots then Err(ParticipantNotFound)
    else
      var a := Account(p, t);
      :- Require(a in l.balances, NoWithdrawalPending);
      var b := l.balances[a];
      :- Require(b.unlockAt != 0, NoWithdrawalPending);
      var available :- Checked64(b.available + b.withdrawing);
      Ok(l.(balances := l.balances[a := Balance(available, 0, 0, DEFAULT_KEY)]))
  }

  /** `read_token_withdrawal_from_data`. */
  function ReadWithdrawal(l: Ledger, p: u32, t: u16): Result<Balance> {
    if p !in l.slots then Err(ParticipantNotFound)
    else
      :- Require(Account(p, t) in l.balances, TokenNotFound);
      Ok(l.balances[Account(p, t)])
  }

  // ----- lanes

  /** `cap_pending_unlock_at_lane_offset_in_data`: a pending release never exceeds the collateral. */
  function PendingCapped(lane: Lane, max: u64): Lane {
    if lane.pendingUnlockAmount == 0 then lane.(unlockRequestedAt := 0)
    else if lane.pendingUnlockAmount <= max then lane
    else if max == 0 then lane.(pendingUnlockAmount := 0, unlockRequestedAt := 0)
    else lane.(pendingUnlockAmount := max)
  }

  /** `apply_lane_settlement_at_offset_in_data`. */
  function LaneSettled(lane: Lane, target: u64, consumed: u64): Lane
    requires consumed <= lane.lockedBalance
  {
    var locked := lane.lockedBalance - consumed;
    PendingCapped(lane.(lockedBalance := locked), locked).(settledCumulative := target)
  }

  /** `add_lane_locked_balance_in_data`. */
  function LockAdded(l: Ledger, id: LaneId, amount: u64): Result<Ledger> {
    var lane :- ReadLane(l, id);
    var locked :- Checked64(lane.lockedBalance + amount);
    Ok(l.(lanes := l.lanes[id := lane.(lockedBalance := locked)]))
  }

  /** `request_lane_unlock_in_data`: a later request replaces an earlier one. */
  function UnlockRequested(l: Ledger, id: LaneId, amount: u64, now: i64): Result<Ledger> {
    var lane :- ReadLane(l, id);
    :- Require(amount <= lane.lockedBalance, InsufficientLockedBalance);
    Ok(l.(lanes := l.lanes[id := lane.(pendingUnlockAmount := amount, unlockRequestedAt := now)]))
  }

  /** `execute_lane_unlock_in_data`: the new ledger and the released amount. */
  function UnlockExecuted(l: Ledger, id: LaneId): Result<(Ledger, u64)> {
    var lane :- ReadLane(l, id);
    :- Require(lane.HasPendingUnlock(), NoChannelUnlockPending);
    var released := Min(lane.pendingUnlockAmount, lane.lockedBalance);
    var lane' := lane.(lockedBalance := lane.lockedBalance - released, pendingUnlockAmount := 0,
                       unlockRequestedAt := 0);
    Ok((l.(lanes := l.lanes[id := lane']), released))
  }

  /** `cooperative_unlock_lane_in_data`. */
  function CooperativelyUnlocked(l: Ledger, id: LaneId, amount: u64): Result<Ledger> {
    var lane :- ReadLane(l, id);
    :- Require(amount <= lane.lockedBalance, InsufficientLockedBalance);
    var locked := lane.lockedBalance - amount;
    Ok(l.(lanes := l.lanes[id := PendingCapped(lane.(lockedBalance := locked), locked)]))
  }

  /** `initialize_lane_in_data`: a lane is born with nothing settled and nothing locked, once. */
  function LaneCreated(l: Ledger, id: LaneId, signer: Key): Result<Ledger> {
    if id.payer == id.payee then Err(SelfChannelNotAllowed)
    else
      :- Require(id !in l.lanes, ChannelAlreadyExists);
      Ok(l.(lanes := l.lanes[id := Lane(0, 0, signer, 0, 0)]))
  }
}
