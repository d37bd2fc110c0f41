/** What holds of the reserve over every run: shares are never worth less than one unit, and
    no instruction lowers the price of a share. */
module ReservePrice {
  import opened Machine
  import opened Rounding
  import opened MockYield

  ghost predicate Sound(r: ReserveState) {
    && (r.totalUnderlying == 0 <==> r.shareSupply == 0)
    && r.totalUnderlying >= r.shareSupply
  }

  /** A share buys at least as much in `after` as in `before`, by cross-multiplication. */
  ghost predicate PriceAtLeast(after: ReserveState, before: ReserveState) {
    after.totalUnderlying * before.shareSupply >= before.totalUnderlying * after.shareSupply
  }

  /** The underlying that `shares` are worth, rounded down. */
  function Value(r: ReserveState, shares: nat): nat {
    if r.shareSupply == 0 then 0 else MulDiv(shares, r.totalUnderlying, r.shareSupply)
  }

  // ----- one instruction

  lemma AccrualKeepsSound(r: ReserveState, now: i64)
    requires Sound(r) && Accrued(r, now).Ok?
    ensures var r' := Accrued(r, now).value;
            && Sound(r')
            && r'.shareSupply == r.shareSupply
            && r'.totalUnderlying >= r.totalUnderlying
            && (r.totalUnderlying == 0 ==> r'.totalUnderlying == 0)
            && PriceAtLeast(r', r)
  {
    var r' := Accrued(r, now).value;
    if r'.totalUnderlying != r.totalUnderlying {
      Exact(r.totalUnderlying * r.apyBps * (now - r.lastAccrualTs), INTEREST_DENOM);
    }
    MulMonotone(r.totalUnderlying, r'.totalUnderlying, r.shareSupply);
  }

  lemma DepositKeepsPrice(t: nat, p: nat, amount: nat, minted: nat)
    requires minted * t <= amount * p
    ensures (t + amount) * p >= t * (p + minted)
  {
  }

  lemma RedemptionKeepsPrice(t: nat, p: nat, shares: nat, paid: nat)
    requires paid * p <= shares * t
    ensures (t - paid) * p >= t * (p - shares)
  {
  }

  lemma DepositKeepsSound(r: ReserveState, now: i64, amount: u64)
    requires Sound(r) && Deposited(r, now, amount).Ok?
    ensures var (r', minted) := Deposited(r, now, amount).value;
            Sound(r') && minted <= amount && PriceAtLeast(r', r)
  {
    AccrualKeepsSound(r, now);
    var a := Accrued(r, now).value;
    var (r', minted) := Deposited(r, now, amount).value;
    if a.shareSupply > 0 {
      calc {
        minted * a.totalUnderlying;
      <=
        amount * a.shareSupply;
      <=  { MulMonotone(a.shareSupply, a.totalUnderlying, amount); }
        amount * a.totalUnderlying;
      }
      Cancel(minted, amount, a.totalUnderlying);
      DepositKeepsPrice(a.totalUnderlying, a.shareSupply, amount, minted);
      PriceTransitive(r', a, r);
    }
  }

  lemma RedemptionKeepsSound(r: ReserveState, now: i64, shares: u64)
    requires Sound(r) && Redeemed(r, now, shares).Ok?
    ensures var (r', paid) := Redeemed(r, now, shares).value;
            Sound(r') && paid >= shares && PriceAtLeast(r', r)
  {
    AccrualKeepsSound(r, now);
    var a := Accrued(r, now).value;
    var (r', paid) := Redeemed(r, now, shares).value;
    var t, p := a.totalUnderlying, a.shareSupply;
    RedemptionKeepsPrice(t, p, shares, paid);
    PriceTransitive(r', a, r);
    RedemptionKeepsBacking(t, p, shares);
  }

  /** Redeeming at a price of at least one pays at least one unit a share, leaves at least one
      unit for every share that stays, and leaves nothing exactly when no share stays. */
  lemma RedemptionKeepsBacking(t: nat, p: nat, shares: nat)
    requires 0 < p <= t && shares <= p
    ensures var paid := MulDiv(shares, t, p);
            && shares <= paid <= t
            && t - paid >= p - shares
            && (paid == t <==> shares == p)
  {
    var paid := MulDiv(shares, t, p);
    MulMonotone(p, t, shares);
    FloorIsLargest(shares, t, p, shares);
    assert shares * t <= (t - p + shares) * p by { RestKeepsPrice(t, p, shares); }
    Cancel(paid, t - p + shares, p);
    if shares == p {
      FloorIsLargest(shares, t, p, t);
    }
  }

  lemma RestKeepsPrice(t: nat, p: nat, shares: nat)
    requires shares <= p <= t
    ensures shares * t <= (t - p + shares) * p
  {
    MulMonotone(p, t, p - shares);
    assert (t - p + shares) * p == t * p - (p - shares) * p;
    assert shares * t == t * p - (p - shares) * t;
  }

  lemma PriceTransitive(r2: ReserveState, r1: ReserveState, r0: ReserveState)
    requires PriceAtLeast(r2, r1) && PriceAtLeast(r1, r0) && r1.shareSupply > 0
    ensures PriceAtLeast(r2, r0)
  {
    CrossTransitive(r0.totalUnderlying, r0.shareSupply, r1.totalUnderlying, r1.shareSupply,
                    r2.totalUnderlying, r2.shareSupply);
  }

  /** A fixed number of shares never loses value while the price does not fall. */
  lemma ValueMonotone(after: ReserveState, before: ReserveState, shares: nat)
    requires PriceAtLeast(after, before) && after.shareSupply > 0
    ensures Value(after, shares) >= Value(before, shares)
  {
    if before.shareSupply > 0 {
      var q := Value(before, shares);
      var t0, p0 := before.totalUnderlying, before.shareSupply;
      var t1, p1 := after.totalUnderlying, after.shareSupply;
      CrossTransitive(q, shares, t0, p0, t1, p1);
      FloorIsLargest(shares, t1, p1, q);
    }
  }

  // ----- whole runs

  datatype ReserveCall =
    | CallAccrue(now: i64)
    | CallDeposit(now: i64, amount: u64)
    | CallRedeem(now: i64, shares: u64)
    | CallUpdateApy(caller: Key, now: i64, apyBps: u16)

  function ReserveCalled(r: ReserveState, call: ReserveCall): Result<ReserveState> {
    match call
    case CallAccrue(now) => Accrued(r, now)
    case CallDeposit(now, amount) =>
      var res :- Deposited(r, now, amount);
      Ok(res.0)
    case CallRedeem(now, shares) =>
      var res :- Redeemed(r, now, shares);
      Ok(res.0)
    case CallUpdateApy(caller, now, apyBps) => ApyUpdated(r, caller, now, apyBps)
  }

  /** The state after one transaction; a failed one changes nothing. */
  function After(r: ReserveState, call: ReserveCall): ReserveState {
    match ReserveCalled(r, call)
    case Ok(r') => r'
    case Err(_) => r
  }

  function Run(r: ReserveState, calls: seq<ReserveCall>): ReserveState
    decreases |calls|
  {
    if calls == [] then r else Run(After(r, calls[0]), calls[1..])
  }

  lemma CallKeepsSound(r: ReserveState, call: ReserveCall)
    requires Sound(r)
    ensures Sound(After(r, call)) && PriceAtLeast(After(r, call), r)
  {
    match call
    case CallAccrue(now) =>
      if Accrued(r, now).Ok? { AccrualKeepsSound(r, now); }
    case CallDeposit(now, amount) =>
      if Deposited(r, now, amount).Ok? { DepositKeepsSound(r, now, amount); }
    case CallRedeem(now, shares) =>
      if Redeemed(r, now, shares).Ok? { RedemptionKeepsSound(r, now, shares); }
    case CallUpdateApy(caller, now, apyBps) =>
      if ApyUpdated(r, caller, now, apyBps).Ok? { AccrualKeepsSound(r, now); }
  }

  /** Shares stay outstanding from the first state of the run to the last. */
  ghost predicate Outstanding(r: ReserveState, calls: seq<ReserveCall>)
    decreases |calls|
  {
    r.shareSupply > 0 && (calls == [] || Outstanding(After(r, calls[0]), calls[1..]))
  }

  /** Over any run the reserve stays sound; while shares stay outstanding their price never falls. */
  lemma {:induction false} SharePriceNeverFalls(r: ReserveState, calls: seq<ReserveCall>)
    requires Sound(r)
    ensures Sound(Run(r, calls))
    ensures Outstanding(r, calls) ==> PriceAtLeast(Run(r, calls), r)
    decreases |calls|
  {
    if calls != [] {
      var r1 := After(r, calls[0]);
      CallKeepsSound(r, calls[0]);
      SharePriceNeverFalls(r1, calls[1..]);
      if Outstanding(r, calls) {
        PriceTransitive(Run(r1, calls[1..]), r1, r);
      }
    }
  }

  /** Redeeming at once what a deposit minted never returns more than was put in. */
  lemma DepositThenRedeemNeverProfits(r: ReserveState, now: i64, amount: u64)
    requires Sound(r) && Deposited(r, now, amount).Ok?
    ensures var (r', minted) := Deposited(r, now, amount).value;
            Redeemed(r', now, minted).Ok? ==> Redeemed(r', now, minted).value.1 <= amount
  {
    AccrualKeepsSound(r, now);
    var a := Accrued(r, now).value;
    var (r', minted) := Deposited(r, now, amount).value;
    if Redeemed(r', now, minted).Ok? {
      assert Accrued(r', now).value == r';
      BoughtSharesFetch(a.totalUnderlying, a.shareSupply, amount, minted);
    }
  }

  /** Shares bought at the floored price are worth at most what they cost. */
  lemma BoughtSharesFetch(t: nat, p: nat, amount: nat, minted: nat)
    requires minted * t <= amount * p && p + minted > 0
    ensures MulDiv(minted, t + amount, p + minted) <= amount
  {
    assert minted * (t + amount) == minted * t + minted * amount;
    assert amount * (p + minted) == amount * p + minted * amount;
    assert minted * (t + amount) < (amount + 1) * (p + minted);
    FloorBelow(minted, t + amount, p + minted, amount);
  }

  // ----- what each instruction computes, in products

  /** Interest is linear in total, rate and time, rounded down once; it needs time to pass. */
  lemma InterestIsLinear(r: ReserveState, now: i64)
    requires Accrued(r, now).Ok?
    ensures var r' := Accrued(r, now).value;
            && (now <= r.lastAccrualTs ==> r' == r)
            && (now > r.lastAccrualTs ==>
                  && r' == r.(totalUnderlying := r'.totalUnderlying, lastAccrualTs := now)
                  && (r'.totalUnderlying - r.totalUnderlying) * 315_360_000_000
                     <= r.totalUnderlying * r.apyBps * (now - r.lastAccrualTs)
                     < (r'.totalUnderlying - r.totalUnderlying + 1) * 315_360_000_000)
  {
    if now > r.lastAccrualTs {
      SingleAccrual(r, now);
      Exact(r.totalUnderlying * r.apyBps * (now - r.lastAccrualTs), INTEREST_DENOM);
    }
  }

  /** A deposit mints one share a unit into an empty reserve, and otherwise as many as the price allows. */
  lemma DepositMints(r: ReserveState, now: i64, amount: u64)
    requires Deposited(r, now, amount).Ok?
    ensures var (r', minted) := Deposited(r, now, amount).value;
            && Accrued(r, now).Ok?
            && var a := Accrued(r, now).value;
            && amount > 0 && minted > 0
            && r' == a.(totalUnderlying := r'.totalUnderlying, shareSupply := r'.shareSupply)
            && r'.totalUnderlying == a.totalUnderlying + amount && r'.shareSupply == a.shareSupply + minted
            && (a.shareSupply == 0 || a.totalUnderlying == 0 ==> minted == amount)
            && (a.shareSupply > 0 && a.totalUnderlying > 0 ==>
                  minted * a.totalUnderlying <= amount * a.shareSupply < (minted + 1) * a.totalUnderlying)
  {
    hide Accrued;
  }

  /** A redemption pays the price of the burnt shares, rounded down. */
  lemma RedemptionPays(r: ReserveState, now: i64, shares: u64)
    requires Redeemed(r, now, shares).Ok?
    ensures var (r', paid) := Redeemed(r, now, shares).value;
            && Accrued(r, now).Ok?
            && var a := Accrued(r, now).value;
            && 0 < shares <= a.shareSupply
            && r' == a.(totalUnderlying := r'.totalUnderlying, shareSupply := r'.shareSupply)
            && r'.totalUnderlying + paid == a.totalUnderlying && r'.shareSupply + shares == a.shareSupply
            && paid * a.shareSupply <= shares * a.totalUnderlying < (paid + 1) * a.shareSupply
  {
    hide Accrued;
  }

  /** The authority alone sets the rate, to at most one half, and interest up to then runs at the old
      rate. */
  lemma RateIsSetByAuthority(r: ReserveState, caller: Key, now: i64, apyBps: u16)
    ensures ApyUpdated(r, caller, now, apyBps).Ok? <==>
              apyBps <= 5_000 && caller == r.authority && Accrued(r, now).Ok?
    ensures ApyUpdated(r, caller, now, apyBps).Ok? ==>
              ApyUpdated(r, caller, now, apyBps).value == Accrued(r, now).value.(apyBps := apyBps)
  {
    hide Accrued;
  }

  // ----- accrual in pieces

  /** Accrues at each of the given times in turn. */
  function AccruedAt(r: ReserveState, times: seq<i64>): Result<ReserveState> {
    if times == [] then Ok(r)
    else
      var r' :- AccruedAt(r, times[..|times| - 1]);
      Accrued(r', times[|times| - 1])
  }

  ghost predicate Increasing(times: seq<i64>) {
    forall i, j :: 0 <= i < j < |times| ==> times[i] < times[j]
  }

  lemma RepeatedAccrualChangesNothing(r: ReserveState, now: i64)
    requires Accrued(r, now).Ok?
    ensures Accrued(Accrued(r, now).value, now) == Accrued(r, now)
  {
  }

  function Interest(total: nat, apyBps: nat, dt: nat): nat {
    (total * apyBps * dt) / INTEREST_DENOM
  }

  lemma InterestGrows(t0: nat, t1: nat, apyBps: nat, dt: nat)
    requires t0 <= t1
    ensures Interest(t0, apyBps, dt) <= Interest(t1, apyBps, dt)
  {
    MulMonotone(t0, t1, apyBps);
    MulMonotone(t0 * apyBps, t1 * apyBps, dt);
    var n0, n1 := t0 * apyBps * dt, t1 * apyBps * dt;
    Exact(n0, INTEREST_DENOM);
    Exact(n1, INTEREST_DENOM);
  }

  lemma InterestSplits(t: nat, apyBps: nat, d1: nat, d2: nat)
    ensures Interest(t, apyBps, d1 + d2) <= Interest(t, apyBps, d1) + Interest(t, apyBps, d2) + 1
  {
    var x := t * apyBps;
    assert x * (d1 + d2) == x * d1 + x * d2;
    Exact(x * d1, INTEREST_DENOM);
    Exact(x * d2, INTEREST_DENOM);
    Exact(x * d1 + x * d2, INTEREST_DENOM);
  }

  /** Splitting one accrual into k of them, at the same APY, costs at most k - 1 base units. */
  lemma {:induction false} SplitAccrualCost(r: ReserveState, times: seq<i64>)
    requires Sound(r) && |times| > 0 && Increasing(times) && r.lastAccrualTs < times[0]
    requires AccruedAt(r, times).Ok? && Accrued(r, times[|times| - 1]).Ok?
    ensures AccruedAt(r, times).value.totalUnderlying + |times| - 1
            >= r.totalUnderlying + Interest(r.totalUnderlying, r.apyBps, times[|times| - 1] - r.lastAccrualTs)
            == Accrued(r, times[|times| - 1]).value.totalUnderlying
    ensures AccruedAt(r, times).value.totalUnderlying >= r.totalUnderlying
    ensures AccruedAt(r, times).value == r.(totalUnderlying := AccruedAt(r, times).value.totalUnderlying,
                                            lastAccrualTs := times[|times| - 1])
    decreases |times|
  {
    SingleAccrual(r, times[|times| - 1]);
    if |times| == 1 {
      assert AccruedAt(r, times) == Accrued(r, times[0]) by {
        assert times[..0] == [];
      }
    } else {
      var front, last := times[..|times| - 1], times[|times| - 1];
      EarlierAccrualSucceeds(r, front[|front| - 1], last);
      SplitAccrualCost(r, front);
      var m := AccruedAt(r, front).value;
      SingleAccrual(m, last);
      InterestGrows(r.totalUnderlying, m.totalUnderlying, r.apyBps, last - m.lastAccrualTs);
      InterestSplits(r.totalUnderlying, r.apyBps, m.lastAccrualTs - r.lastAccrualTs, last - m.lastAccrualTs);
    }
  }

  lemma SingleAccrual(r: ReserveState, now: i64)
    requires Accrued(r, now).Ok? && r.lastAccrualTs < now
    ensures Accrued(r, now).value == r.(lastAccrualTs := now,
                totalUnderlying := r.totalUnderlying + Interest(r.totalUnderlying, r.apyBps, now - r.lastAccrualTs))
  {
    Exact(r.totalUnderlying * r.apyBps * (now - r.lastAccrualTs), INTEREST_DENOM);
  }

  lemma EarlierAccrualSucceeds(r: ReserveState, sooner: i64, later: i64)
    requires r.lastAccrualTs < sooner <= later && Accrued(r, later).Ok?
    ensures Accrued(r, sooner).Ok?
  {
    if r.totalUnderlying > 0 && r.apyBps > 0 {
      LessInterestEarlier(r.totalUnderlying * r.apyBps, sooner - r.lastAccrualTs, later - r.lastAccrualTs);
    }
  }

  lemma LessInterestEarlier(yearly: nat, d1: nat, d2: nat)
    requires d1 <= d2
    ensures yearly * d1 <= yearly * d2
    ensures (yearly * d1) / INTEREST_DENOM <= (yearly * d2) / INTEREST_DENOM
  {
    MulMonotone(d1, d2, yearly);
    Exact(yearly * d1, INTEREST_DENOM);
    Exact(yearly * d2, INTEREST_DENOM);
  }
}
