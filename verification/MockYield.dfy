/** The mock-yield lending reserve: linear accrual and a share price built from floors. */
module MockYield {
  import opened Machine
  import opened Rounding

  const SECONDS_PER_YEAR: nat := 31_536_000
  const BPS_DENOM: nat := 10_000
  const MAX_APY_BPS: nat := 5_000
  const INTEREST_DENOM: nat := BPS_DENOM * SECONDS_PER_YEAR

  /** The `Reserve` account together with the supply of its share mint. */
  datatype ReserveState = ReserveState(
    authority: Key,
    apyBps: u16,
    lastAccrualTs: i64,
    totalUnderlying: u64,
    shareSupply: u64)

  // ----- what each instruction computes

  function Accrued(r: ReserveState, now: i64): Result<ReserveState> {
    if now <= r.lastAccrualTs then Ok(r)
    else
      var dt :- CheckedTime(now - r.lastAccrualTs);
      if r.totalUnderlying == 0 || r.apyBps == 0 then Ok(r.(lastAccrualTs := now))
      else
        var yearly :- Checked128(r.totalUnderlying * r.apyBps);
        var product :- Checked128(yearly * dt);
        var total :- Checked64(r.totalUnderlying + product / INTEREST_DENOM);
        Ok(r.(totalUnderlying := total, lastAccrualTs := now))
  }

  function ApyUpdated(r: ReserveState, caller: Key, now: i64, apyBps: u16): Result<ReserveState> {
    if apyBps > MAX_APY_BPS then Err(ApyTooHigh)
    else
      :- Require(caller == r.authority, Unauthorized);
      var r' :- Accrued(r, now);
      Ok(r'.(apyBps := apyBps))
  }

  /** Shares that a deposit of `amount` mints. */
  function SharesFor(r: ReserveState, amount: u64): nat {
    if r.shareSupply == 0 || r.totalUnderlying == 0 then amount
    else MulDiv(amount, r.shareSupply, r.totalUnderlying)
  }

  function Deposited(r: ReserveState, now: i64, amount: u64): Result<(ReserveState, u64)> {
    if amount == 0 then Err(AmountMustBePositive)
    else
      var a :- Accrued(r, now);
      var minted :- Checked64(SharesFor(a, amount));
      :- Require(minted > 0, ZeroShareConversion);
      var total :- Checked64(a.totalUnderlying + amount);
      var supply :- Checked64(a.shareSupply + minted);
      Ok((a.(totalUnderlying := total, shareSupply := supply), minted))
  }

  function Redeemed(r: ReserveState, now: i64, shares: u64): Result<(ReserveState, u64)> {
    if shares == 0 then Err(AmountMustBePositive)
    else
      var a :- Accrued(r, now);
      :- Require(a.shareSupply > 0, ZeroShareConversion);
      :- Require(shares <= a.shareSupply, InsufficientShareSupply);
      var paid :- Checked64(MulDiv(shares, a.totalUnderlying, a.shareSupply));
      var total :- Checked64(a.totalUnderlying - paid);
      Ok((a.(totalUnderlying := total, shareSupply := a.shareSupply - shares), paid))
  }

  // ----- the account and its handlers

  class Reserve {
    const authority: Key
    var apyBps: u16
    var lastAccrualTs: i64
    var totalUnderlying: u64
    var shareSupply: u64

    ghost function State(): ReserveState
      reads this
    {
      ReserveState(authority, apyBps, lastAccrualTs, totalUnderlying, shareSupply)
    }

    constructor (authority: Key, apyBps: u16, now: i64)
      requires apyBps <= MAX_APY_BPS
      ensures State() == ReserveState(authority, apyBps, now, 0, 0)
    {
      this.authority := authority;
      this.apyBps := apyBps;
      lastAccrualTs := now;
      totalUnderlying := 0;
      shareSupply := 0;
    }

    /** `accrue_inner`. */
    method Accrue(now: i64) returns (r: Result<()>)
      modifies this
      ensures r.Ok? ==> Accrued(old(State()), now) == Ok(State())
      ensures r.Err? ==> Accrued(old(State()), now) == Err(r.error) && State() == old(State())
    {
      if now <= lastAccrualTs {
        return Ok(());
      }
      var dt :- CheckedTime(now - lastAccrualTs);
      if totalUnderlying == 0 || apyBps == 0 {
        lastAccrualTs := now;
        return Ok(());
      }
      var yearly :- Checked128(totalUnderlying * apyBps);
      var product :- Checked128(yearly * dt);
      var total :- Checked64(totalUnderlying + product / INTEREST_DENOM);
      totalUnderlying := total;
      lastAccrualTs := now;
      return Ok(());
    }

    method UpdateApyBps(caller: Key, now: i64, newApyBps: u16) returns (r: Result<()>)
      modifies this
      ensures r.Ok? ==> ApyUpdated(old(State()), caller, now, newApyBps) == Ok(State())
      ensures r.Err? ==> ApyUpdated(old(State()), caller, now, newApyBps) == Err(r.error)
    {
      if newApyBps > MAX_APY_BPS {
        return Err(ApyTooHigh);
      }
      :- Require(caller == authority, Unauthorized);
      var _ :- Accrue(now);
      apyBps := newApyBps;
      return Ok(());
    }

    method DepositReserveLiquidity(now: i64, amount: u64) returns (r: Result<u64>)
      modifies this
      ensures r.Ok? ==> Deposited(old(State()), now, amount) == Ok((State(), r.value))
      ensures r.Err? ==> Deposited(old(State()), now, amount) == Err(r.error)
    {
      if amount == 0 {
        return Err(AmountMustBePositive);
      }
      var _ :- Accrue(now);
      var sharesToMint: u64 := amount;
      if shareSupply != 0 && totalUnderlying != 0 {
        sharesToMint :- Checked64(MulDiv(amount, shareSupply, totalUnderlying));
      }
      :- Require(sharesToMint > 0, ZeroShareConversion);
      totalUnderlying :- Checked64(totalUnderlying + amount);
      shareSupply :- Checked64(shareSupply + sharesToMint);
      return Ok(sharesToMint);
    }

    method RedeemReserveCollateral(now: i64, shares: u64) returns (r: Result<u64>)
      modifies this
      ensures r.Ok? ==> Redeemed(old(State()), now, shares) == Ok((State(), r.value))
      ensures r.Err? ==> Redeemed(old(State()), now, shares) == Err(r.error)
    {
      if shares == 0 {
        return Err(AmountMustBePositive);
      }
      var _ :- Accrue(now);
      :- Require(shareSupply > 0, ZeroShareConversion);
      :- Require(shares <= shareSupply, InsufficientShareSupply);
      var paid :- Checked64(MulDiv(shares, totalUnderlying, shareSupply));
      totalUnderlying :- Checked64(totalUnderlying - paid);
      shareSupply := shareSupply - shares;
      return Ok(paid);
    }
  }
}
