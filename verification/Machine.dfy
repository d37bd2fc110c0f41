/** Machine integers, checked arithmetic and the error codes that the programs return. */
module Machine {

  const TWO64: int := 0x1_0000_0000_0000_0000
  const TWO128: int := 0x1_0000_0000_0000_0000_0000_0000_0000_0000

  type u8 = x: int | 0 <= x < 0x100
  type u16 = x: int | 0 <= x < 0x1_0000
  type u32 = x: int | 0 <= x < 0x1_0000_0000
  type u64 = x: int | 0 <= x < TWO64
  type u128 = x: int | 0 <= x < TWO128
  type i64 = x: int | -0x8000_0000_0000_0000 <= x < 0x8000_0000_0000_0000
  type i128 = x: int | -0x8000_0000_0000_0000_0000_0000_0000_0000 <= x < 0x8000_0000_0000_0000_0000_0000_0000_0000

  /** A 32-byte public key; only equality matters to the settlement logic. */
  type Key = nat
  const DEFAULT_KEY: Key := 0

  datatype Error =
    | AccountBlsKeyMismatch
    | AccountIdMismatch
    | AmountMustBePositive
    | ApyTooHigh
    | BucketAccountMismatch
    | ChannelAlreadyExists
    | ChannelNotInitialized
    | CommitmentAmountMustIncrease
    | CounterpartyConsentRequired
    | InsufficientBalance
    | InsufficientLockedBalance
    | InsufficientProtocolYield
    | InsufficientShareSupply
    | InsufficientTokens
    | InvalidBlsSignature
    | InvalidChainId
    | InvalidClearingRoundMessage
    | InvalidCommitmentMessage
    | InvalidDepositFor
    | InvalidEd25519Data
    | InvalidFeeRecipient
    | InvalidMessageDomain
    | InvalidSignature
    | InvalidTokenDecimals
    | InvalidTokenMint
    | InvalidWithdrawalDestination
    | InvalidYieldStrategy
    | MathOverflow
    | MismatchedYieldUnderlying
    | NetPositionOverflow
    | NoChannelUnlockPending
    | NoWithdrawalPending
    | ParticipantBlsKeyNotFound
    | ParticipantNotFound
    | SelfChannelNotAllowed
    | SolvencyInvariantBroken
    | TokenIsNotYieldBearing
    | TokenIsYieldBearing
    | TokenNotFound
    | TooManyTokenBalances
    | Unauthorized
    | UnauthorizedSettler
    | WithdrawalAlreadyPending
    | WithdrawalLocked
    | ZeroShareConversion

  datatype Option<+T> = None | Some(value: T)

  /** The outcome of a handler: a value, or the error that aborts the transaction. */
  datatype Result<+T> = Ok(value: T) | Err(error: Error) {
    predicate IsFailure() { Err? }

    function PropagateFailure<U>(): Result<U>
      requires Err?
    {
      Err(error)
    }

    function Extract(): T
      requires Ok?
    {
      value
    }
  }

  /** The outcome of a check that yields no value. */
  datatype Check = Pass | Fail(error: Error) {
    predicate IsFailure() { Fail? }

    function PropagateFailure<U>(): Result<U>
      requires Fail?
    {
      Err(error)
    }
  }

  /** `require!(condition, error)`. */
  function Require(condition: bool, error: Error): Check {
    if condition then Pass else Fail(error)
  }

  /** The value of a `checked_*` operation or of `u64::try_from`. */
  function Checked64(x: int): Result<u64> {
    if 0 <= x < TWO64 then Ok(x) else Err(MathOverflow)
  }

  function Checked128(x: int): Result<u128> {
    if 0 <= x < TWO128 then Ok(x) else Err(MathOverflow)
  }

  function CheckedTime(x: int): Result<i64> {
    if -0x8000_0000_0000_0000 <= x < 0x8000_0000_0000_0000 then Ok(x) else Err(MathOverflow)
  }

  function CheckedSigned128(x: int): Result<i128> {
    if -0x8000_0000_0000_0000_0000_0000_0000_0000 <= x < 0x8000_0000_0000_0000_0000_0000_0000_0000
    then Ok(x) else Err(MathOverflow)
  }

  function Min(a: int, b: int): int {
    if a < b then a else b
  }

  function Max(a: int, b: int): int {
    if a < b then b else a
  }
}
