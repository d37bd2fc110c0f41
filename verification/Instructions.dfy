/** Everything the two programs keep on chain, and every instruction as a step of it. */
module Instructions {
  import opened Machine
  import opened Fees
  import opened Ledgers
  import opened SettleIndividual
  import opened ClearingRound
  import opened SettleCommitmentBundle
  import opened YieldStrategies
  import opened YieldBearing
  import ReservePrice

  const MAX_DEPOSIT_FOR_RECIPIENTS: nat := 16

  datatype TokenEntry = TokenEntry(mint: Key, decimals: u8, yieldBearing: bool)

  const MAINNET_CHAIN_ID: u16 := 0
  const DEVNET_CHAIN_ID: u16 := 1
  const TESTNET_CHAIN_ID: u16 := 2
  const LOCALNET_CHAIN_ID: u16 := 3
  const CHANNEL_UNLOCK_TIMELOCK_SECONDS: i64 := 259_200
  const LOCALNET_CHANNEL_UNLOCK_TIMELOCK_SECONDS: i64 := 2

  datatype Config = Config(
    feeBps: FeeBps,
    feeRecipient: Key,
    chainId: u16,
    withdrawalTimelock: i64,
    unlockTimelock: i64)

  /** `effective_channel_unlock_timelock_seconds`: old configurations fall back to their chain's. */
  function EffectiveUnlockTimelock(c: Config): Result<i64> {
    if c.unlockTimelock > 0 then Ok(c.unlockTimelock)
    else if c.chainId == LOCALNET_CHAIN_ID then Ok(LOCALNET_CHANNEL_UNLOCK_TIMELOCK_SECONDS)
    else if c.chainId in {MAINNET_CHAIN_ID, DEVNET_CHAIN_ID, TESTNET_CHAIN_ID} then Ok(CHANNEL_UNLOCK_TIMELOCK_SECONDS)
    else Err(InvalidChainId)
  }

  type Wallets = map<Key, u64>

  /** `vaults` names the token account that holds a plain token; `mints` the mint of every token
      account. A yield-bearing token has a market instead of a vault. */
  datatype World = World(
    config: Config,
    registry: map<u16, TokenEntry>,
    vaults: map<u16, Key>,
    mints: map<Key, Key>,
    ledger: Ledger,
    wallets: Wallets,
    markets: map<u16, Market>)

  datatype Call =
    | CreateLane(lane: LaneId, signer: Key)
    | Deposit(participant: u32, token: u16, amount: u64, source: Key)
    | DepositFor(participants: seq<u32>, token: u16, amounts: seq<u64>, source: Key)
    | RequestWithdrawal(now: i64, participant: u32, token: u16, amount: u64, destination: Key)
    | CancelWithdrawal(participant: u32, token: u16)
    | ExecuteWithdrawal(now: i64, participant: u32, token: u16, destination: Key, feeAccount: Key)
    | Lock(lane: LaneId, amount: u64)
    | CooperativeUnlock(lane: LaneId, amount: u64, payeeOwner: Key)
    | RequestUnlock(now: i64, lane: LaneId, amount: u64)
    | ExecuteUnlock(now: i64, lane: LaneId)
    | SettleOne(submission: Submission)
    | SettleBundle(submitter: Key, items: seq<SignedCommitment>)
    | SettleRound(token: u16, blocks: seq<Block>, signatureValid: bool)
    | AccrueYield(now: i64, token: u16)
    | DepositYield(now: i64, participant: u32, token: u16, amount: u64, source: Key)
    | RequestYieldWithdrawal(now: i64, participant: u32, token: u16, shares: u64, destination: Key)
    | ExecuteYieldWithdrawal(now: i64, participant: u32, token: u16, destination: Key, feeAccount: Key)
    | ClaimProtocolFee(now: i64, token: u16, amount: u64, recipient: Key, destination: Key)
    | OptIn(now: i64, participant: u32, plain: u16, token: u16, amount: u64)
    | OptOut(now: i64, participant: u32, plain: u16, token: u16, shares: u64)
    | OutsideTransfer(destination: Key, amount: u64)
    | ReserveStep(token: u16, step: ReservePrice.ReserveCall)

  // ----- token accounts

  function Taken(ws: Wallets, source: Key, amount: nat): Result<Wallets> {
    if source !in ws || ws[source] < amount then Err(InsufficientTokens)
    else
      Ok(ws[source := ws[source] - amount])
  }

  function Given(ws: Wallets, destination: Key, amount: nat): Result<Wallets> {
    if destination !in ws then Err(InvalidWithdrawalDestination)
    else
      var held :- Checked64(ws[destination] + amount);
      Ok(ws[destination := held])
  }

  /** `token::transfer`; from an account to itself it changes nothing. */
  function Transferred(ws: Wallets, source: Key, destination: Key, amount: nat): Result<Wallets> {
    var taken :- Taken(ws, source, amount);
    Given(taken, destination, amount)
  }

  function TransferredIfAny(ws: Wallets, source: Key, destination: Key, amount: nat): Result<Wallets> {
    if amount > 0 then Transferred(ws, source, destination, amount) else Ok(ws)
  }

  // ----- the registry

  function PlainToken(w: World, t: u16): Result<TokenEntry> {
    if t !in w.registry then Err(TokenNotFound)
    else
      :- Require(!w.registry[t].yieldBearing, TokenIsYieldBearing);
      Ok(w.registry[t])
  }

  function YieldToken(w: World, t: u16): Result<TokenEntry> {
    if t !in w.registry then Err(TokenNotFound)
    else
      :- Require(w.registry[t].yieldBearing, TokenIsNotYieldBearing);
      Ok(w.registry[t])
  }

  /** The vault account of a plain token and a market for every other one. */
  ghost predicate WellFormed(w: World) {
    && (forall t :: t in w.vaults <==> t in w.registry && !w.registry[t].yieldBearing)
    && (forall t :: t in w.markets <==> t in w.registry && w.registry[t].yieldBearing)
    && (forall t, u :: t in w.vaults && u in w.vaults && w.vaults[t] == w.vaults[u] ==> t == u)
    && (forall t :: t in w.vaults ==> w.vaults[t] in w.wallets)
  }

  function HasMint(w: World, account: Key, mint: Key): Check {
    Require(account in w.mints && w.mints[account] == mint, InvalidTokenMint)
  }

  /** The vaults' authority is the program, which signs for no outsider. */
  function NotAVault(w: World, account: Key): Check {
    Require(account !in w.vaults.Values, Unauthorized)
  }

  // ----- deposits

  function Deposited(w: World, p: u32, t: u16, amount: u64, source: Key): Result<World> {
    if amount == 0 then Err(AmountMustBePositive)
    else
      var entry :- PlainToken(w, t);
      :- HasMint(w, source, entry.mint);
      :- NotAVault(w, source);
      :- Require(t in w.vaults, TokenNotFound);
      var wallets :- Transferred(w.wallets, source, w.vaults[t], amount);
      var ledger :- DeltaApplied(w.ledger, p, t, amount);
      Ok(w.(wallets := wallets, ledger := ledger))
  }

  /** The checked sum of the amounts, from the left. */
  function Summed(amounts: seq<u64>): Result<u64> {
    if amounts == [] then Ok(0)
    else
      var n := |amounts| - 1;
      var front :- Summed(amounts[..n]);
      Checked64(front + amounts[n])
  }

  /** Credits every recipient in turn; every amount must be positive. */
  function AllCredited(l: Ledger, ps: seq<u32>, t: u16, amounts: seq<u64>): Result<Ledger>
    requires |ps| == |amounts|
  {
    if ps == [] then Ok(l)
    else
      var n := |ps| - 1;
      var front :- AllCredited(l, ps[..n], t, amounts[..n]);
      :- Require(amounts[n] > 0, AmountMustBePositive);
      DeltaApplied(front, ps[n], t, amounts[n])
  }

  function DepositedFor(w: World, ps: seq<u32>, t: u16, amounts: seq<u64>, source: Key): Result<World> {
    if amounts == [] || |amounts| != |ps| then Err(InvalidDepositFor)
    else
      :- Require(|amounts| <= MAX_DEPOSIT_FOR_RECIPIENTS, InvalidDepositFor);
      var entry :- PlainToken(w, t);
      :- HasMint(w, source, entry.mint);
      :- NotAVault(w, source);
      :- Require(t in w.vaults, TokenNotFound);
      var total :- Summed(amounts);
      :- Require(total > 0, AmountMustBePositive);
      var wallets :- Transferred(w.wallets, source, w.vaults[t], total);
      var ledger :- AllCredited(w.ledger, ps, t, amounts);
      Ok(w.(wallets := wallets, ledger := ledger))
  }

  // ----- withdrawals

  function WithdrawalRequested(w: World, now: i64, p: u32, t: u16, amount: u64, destination: Key, mint: Key)
    : Result<World>
  {
    if amount == 0 then Err(AmountMustBePositive)
    else
      :- Require(destination != DEFAULT_KEY, InvalidWithdrawalDestination);
      :- HasMint(w, destination, mint);
      var unlockAt :- CheckedTime(now + w.config.withdrawalTimelock);
      var ledger :- WithdrawalInitiated(w.ledger, p, t, amount, destination, unlockAt);
      Ok(w.(ledger := ledger))
  }

  /** A pending withdrawal whose time has come, to the destination it names. */
  function DueWithdrawal(l: Ledger, now: i64, p: u32, t: u16, destination: Key): Result<u64> {
    var b :- ReadWithdrawal(l, p, t);
    :- Require(b.unlockAt != 0, NoWithdrawalPending);
    :- Require(destination == b.destination, InvalidWithdrawalDestination);
    :- Require(now >= b.unlockAt, WithdrawalLocked);
    Ok(b.withdrawing)
  }

  /** `execute_withdrawal_timelocked`: net to the destination, fee to the protocol. */
  function WithdrawalExecuted(w: World, now: i64, p: u32, t: u16, destination: Key, feeAccount: Key): Result<World> {
    var entry :- PlainToken(w, t);
    :- Require(t in w.vaults, TokenNotFound);
    :- Require(entry.decimals <= MAX_TOKEN_DECIMALS, InvalidTokenDecimals);
    var amount :- DueWithdrawal(w.ledger, now, p, t, destination);
    :- HasMint(w, destination, entry.mint);
    if amount == 0 then
      var ledger :- WithdrawalCleared(w.ledger, p, t);
      Ok(w.(ledger := ledger))
    else
      var fee :- WithdrawalFee(amount, w.config.feeBps, entry.decimals);
      var ws :- TransferredIfAny(w.wallets, w.vaults[t], destination, amount - fee);
      var wallets :- TransferredIfAny(ws, w.vaults[t], feeAccount, fee);
      var ledger :- WithdrawalCleared(w.ledger, p, t);
      Ok(w.(wallets := wallets, ledger := ledger))
  }

  // ----- collateral

  function Locked(w: World, id: LaneId, amount: u64): Result<World> {
    if amount == 0 then Err(AmountMustBePositive)
    else
      :- Require(id.token in w.registry, TokenNotFound);
      :- Require(id.payer != id.payee, SelfChannelNotAllowed);
      var debited :- AvailableDebited(w.ledger, id.payer, id.token, amount);
      var ledger :- LockAdded(debited, id, amount);
      Ok(w.(ledger := ledger))
  }

  function UnlockedTogether(w: World, id: LaneId, amount: u64, payeeOwner: Key): Result<World> {
    if amount == 0 then Err(AmountMustBePositive)
    else
      :- Require(id.token in w.registry, TokenNotFound);
      var owner :- ReadOwner(w.ledger, id.payee);
      :- Require(payeeOwner == owner, CounterpartyConsentRequired);
      var released :- CooperativelyUnlocked(w.ledger, id, amount);
      var ledger :- DeltaApplied(released, id.payer, id.token, amount);
      Ok(w.(ledger := ledger))
  }

  function ReleaseRequested(w: World, now: i64, id: LaneId, amount: u64): Result<World> {
    if amount == 0 then Err(AmountMustBePositive)
    else
      :- Require(id.payer != id.payee, SelfChannelNotAllowed);
      var timelock :- EffectiveUnlockTimelock(w.config);
      var _ :- CheckedTime(now + timelock);
      var ledger :- UnlockRequested(w.ledger, id, amount, now);
      Ok(w.(ledger := ledger))
  }

  /** `execute_unlock_channel_funds`: the released amount goes back to the payer. */
  function ReleaseExecuted(w: World, now: i64, id: LaneId): Result<(World, u64)> {
    var lane :- ReadLane(w.ledger, id);
    :- Require(lane.HasPendingUnlock(), NoChannelUnlockPending);
    var timelock :- EffectiveUnlockTimelock(w.config);
    var unlockAt :- CheckedTime(lane.unlockRequestedAt + timelock);
    :- Require(now >= unlockAt, WithdrawalLocked);
    var (l1, released) :- UnlockExecuted(w.ledger, id);
    var ledger :- DeltaApplied(l1, id.payer, id.token, released);
    Ok((w.(ledger := ledger), released))
  }

  // ----- yield

  function MarketOf(w: World, t: u16): Result<Market> {
    if t !in w.markets then Err(InvalidYieldStrategy)
    else
      Ok(w.markets[t])
  }

  function YieldDepositMade(w: World, now: i64, p: u32, t: u16, amount: u64, source: Key): Result<World> {
    if amount == 0 then Err(AmountMustBePositive)
    else
      var m :- MarketOf(w, t);
      var entry :- YieldToken(w, t);
      :- HasMint(w, source, entry.mint);
      :- NotAVault(w, source);
      var m1 :- StrategyAccrued(m, now);
      var wallets :- Taken(w.wallets, source, amount);
      var (m2, shares) :- DepositInto(m1, now, amount);
      var ledger :- DeltaApplied(w.ledger, p, t, shares);
      var _ :- RequireSolvent(m2.strategy, m2.strategy.lastSettledUnderlying);
      Ok(w.(wallets := wallets, ledger := ledger, markets := w.markets[t := m2]))
  }

  /** `execute_withdrawal_yield_bearing`. */
  function YieldWithdrawalExecuted(w: World, now: i64, p: u32, t: u16, destination: Key, feeAccount: Key)
    : Result<(World, Payout)>
  {
    var entry :- YieldToken(w, t);
    :- Require(entry.decimals <= MAX_TOKEN_DECIMALS, InvalidTokenDecimals);
    var m :- MarketOf(w, t);
    var m1 :- StrategyAccrued(m, now);
    var shares :- DueWithdrawal(w.ledger, now, p, t, destination);
    :- HasMint(w, destination, entry.mint);
    var (m2, payout) :- YieldPaid(m1, now, shares, w.config.feeBps, entry.decimals);
    var ws :- Given(w.wallets, destination, payout.netPaid);
    var wallets :- Given(ws, feeAccount, payout.feePaid);
    var ledger :- WithdrawalCleared(w.ledger, p, t);
    Ok((w.(wallets := wallets, ledger := ledger, markets := w.markets[t := m2]), payout))
  }

  function ProtocolFeeClaimed(w: World, now: i64, t: u16, amount: u64, recipient: Key, destination: Key)
    : Result<(World, u64)>
  {
    if amount == 0 then Err(AmountMustBePositive)
    else
      var m :- MarketOf(w, t);
      :- Require(recipient == w.config.feeRecipient, InvalidFeeRecipient);
      var (m', paid) :- ProtocolClaimed(m, now, amount);
      var wallets :- Given(w.wallets, destination, paid);
      Ok((w.(wallets := wallets, markets := w.markets[t := m']), paid))
  }

  /** An instruction of another account on a reserve; it burns only shares outside the share vault. */
  function ReserveStepped(w: World, t: u16, step: ReservePrice.ReserveCall): Result<World> {
    var m :- MarketOf(w, t);
    :- Require(step.CallRedeem? ==> step.shares <= m.reserve.shareSupply - m.shareVault, InsufficientTokens);
    var r :- ReservePrice.ReserveCalled(m.reserve, step);
    Ok(w.(markets := w.markets[t := m.(reserve := r)]))
  }

  /** The market of a yield-bearing token whose strategy is the one given. */
  function PairedMarket(w: World, plain: u16, t: u16): Result<Market> {
    if plain == t then Err(InvalidYieldStrategy) else MarketOf(w, t)
  }

  /** The plain side of a pair: it has the underlying mint of the strategy, and a vault. */
  function PlainSide(w: World, plain: u16, t: u16): Result<Key> {
    var entry :- PlainToken(w, plain);
    :- Require(t in w.registry && entry.mint == w.registry[t].mint, MismatchedYieldUnderlying);
    :- Require(plain in w.vaults, MismatchedYieldUnderlying);
    Ok(w.vaults[plain])
  }

  /** `opt_in_yield`: plain balance out of the vault into the reserve, shares to the owner. */
  function OptedInto(w: World, now: i64, p: u32, plain: u16, t: u16, amount: u64): Result<World> {
    if amount == 0 then Err(AmountMustBePositive)
    else
      var m :- PairedMarket(w, plain, t);
      var vault :- PlainSide(w, plain, t);
      var _ :- YieldToken(w, t);
      var m1 :- StrategyAccrued(m, now);
      var debited :- AvailableDebited(w.ledger, p, plain, amount);
      var wallets :- Taken(w.wallets, vault, amount);
      var (m2, shares) :- DepositInto(m1, now, amount);
      var ledger :- DeltaApplied(debited, p, t, shares);
      var _ :- RequireSolvent(m2.strategy, m2.strategy.lastSettledUnderlying);
      Ok(w.(wallets := wallets, ledger := ledger, markets := w.markets[t := m2]))
  }

  /** `opt_out_yield`: the credit is computed in advance, the vault gets what the reserve pays. */
  function OptedOutOf(w: World, now: i64, p: u32, plain: u16, t: u16, shares: u64): Result<World> {
    if shares == 0 then Err(AmountMustBePositive)
    else
      var m :- PairedMarket(w, plain, t);
      var _ :- YieldToken(w, t);
      var vault :- PlainSide(w, plain, t);
      var m1 :- StrategyAccrued(m, now);
      var debited :- AvailableDebited(w.ledger, p, t, shares);
      var (m2, received, paid) :- OptOutFrom(m1, now, shares);
      var wallets :- Given(w.wallets, vault, paid);
      var ledger :- DeltaApplied(debited, p, plain, received);
      var _ :- RequireSolvent(m2.strategy, m2.strategy.lastSettledUnderlying);
      Ok(w.(wallets := wallets, ledger := ledger, markets := w.markets[t := m2]))
  }

  // ----- every instruction

  function Executed(w: World, call: Call): Result<World> {
    match call
    case CreateLane(id, signer) =>
      var ledger :- LaneCreated(w.ledger, id, signer);
      Ok(w.(ledger := ledger))
    case Deposit(p, t, amount, source) => Deposited(w, p, t, amount, source)
    case DepositFor(ps, t, amounts, source) => DepositedFor(w, ps, t, amounts, source)
    case RequestWithdrawal(now, p, t, amount, destination) =>
      var entry :- PlainToken(w, t);
      WithdrawalRequested(w, now, p, t, amount, destination, entry.mint)
    case CancelWithdrawal(p, t) =>
      var ledger :- WithdrawalCancelled(w.ledger, p, t);
      Ok(w.(ledger := ledger))
    case ExecuteWithdrawal(now, p, t, destination, feeAccount) =>
      WithdrawalExecuted(w, now, p, t, destination, feeAccount)
    case Lock(id, amount) => Locked(w, id, amount)
    case CooperativeUnlock(id, amount, payeeOwner) => UnlockedTogether(w, id, amount, payeeOwner)
    case RequestUnlock(now, id, amount) => ReleaseRequested(w, now, id, amount)
    case ExecuteUnlock(now, id) =>
      var r :- ReleaseExecuted(w, now, id);
      Ok(r.0)
    case SettleOne(s) =>
      var ledger :- Settled(w.ledger, w.registry.Keys, s);
      Ok(w.(ledger := ledger))
    case SettleBundle(submitter, items) =>
      var r :- BundleSettled(w.ledger, w.registry.Keys, submitter, items);
      Ok(w.(ledger := r.ledger))
    case SettleRound(t, blocks, signatureValid) =>
      var r :- RoundSettled(w.ledger, w.registry.Keys, t, blocks, signatureValid);
      Ok(w.(ledger := r.ledger))
    case AccrueYield(now, t) =>
      var m :- MarketOf(w, t);
      var m' :- YieldAccrued(m, now);
      Ok(w.(markets := w.markets[t := m']))
    case DepositYield(now, p, t, amount, source) => YieldDepositMade(w, now, p, t, amount, source)
    case RequestYieldWithdrawal(now, p, t, shares, destination) =>
      var entry :- YieldToken(w, t);
      WithdrawalRequested(w, now, p, t, shares, destination, entry.mint)
    case ExecuteYieldWithdrawal(now, p, t, destination, feeAccount) =>
      var r :- YieldWithdrawalExecuted(w, now, p, t, destination, feeAccount);
      Ok(r.0)
    case ClaimProtocolFee(now, t, amount, recipient, destination) =>
      var r :- ProtocolFeeClaimed(w, now, t, amount, recipient, destination);
      Ok(r.0)
    case OptIn(now, p, plain, t, amount) => OptedInto(w, now, p, plain, t, amount)
    case OptOut(now, p, plain, t, shares) => OptedOutOf(w, now, p, plain, t, shares)
    case OutsideTransfer(destination, amount) =>
      var wallets :- Given(w.wallets, destination, amount);
      Ok(w.(wallets := wallets))
    case ReserveStep(t, step) => ReserveStepped(w, t, step)
  }

  /** One transaction: a failed instruction leaves everything as it was. */
  function Next(w: World, call: Call): World {
    match Executed(w, call)
    case Ok(w') => w'
    case Err(_) => w
  }

  function Reached(w: World, calls: seq<Call>): World
    decreases |calls|
  {
    if calls == [] then w else Reached(Next(w, calls[0]), calls[1..])
  }
}
