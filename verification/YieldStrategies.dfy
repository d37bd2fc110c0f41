/** The Q64.64 index of a yield-bearing token and its three counters. */
module YieldStrategies {
  import opened Machine
  import opened Rounding

  const DEFAULT_PROTOCOL_YIELD_SHARE_BPS: nat := 3_333
  const MAX_PROTOCOL_YIELD_SHARE_BPS: nat := 5_000

  /** `user_index_q64`: it starts at one and only grows. */
  type Index = x: int | TWO64 <= x < TWO128 witness TWO64
  /** Registration replaces zero by `DEFAULT_PROTOCOL_YIELD_SHARE_BPS`. */
  type SkimBps = x: int | 1 <= x <= MAX_PROTOCOL_YIELD_SHARE_BPS witness 1

  datatype StrategyState = StrategyState(
    protocolYieldShareBps: SkimBps,
    userIndex: Index,
    lastSettledUnderlying: u64,
    totalUserShares: u64,
    protocolOwedUnderlying: u64)

  // ----- conversions

  /** The underlying that `shares` convert to at `index`, before any width check. */
  function Worth(shares: nat, index: Index): nat {
    MulDiv(shares, index, TWO64)
  }

  function SharesToUsdc(s: StrategyState, shares: u64): Result<u64> {
    var _ :- Checked128(shares * s.userIndex);
    Checked64(Worth(shares, s.userIndex))
  }

  function UsdcToShares(s: StrategyState, usdc: u64): Result<u64> {
    Checked64(MulDiv(usdc, TWO64, s.userIndex))
  }

  function UserUnderlyingOwed(s: StrategyState): Result<u64> {
    SharesToUsdc(s, s.totalUserShares)
  }

  /** Everything the strategy owes, to users and to the protocol. */
  function Owed(s: StrategyState): nat {
    Worth(s.totalUserShares, s.userIndex) + s.protocolOwedUnderlying
  }

  function RequireSolvent(s: StrategyState, shareVaultUnderlying: u64): Result<()> {
    var userOwed :- UserUnderlyingOwed(s);
    var totalOwed :- Checked64(userOwed + s.protocolOwedUnderlying);
    :- Require(shareVaultUnderlying >= totalOwed, SolvencyInvariantBroken);
    Ok(())
  }

  /** A solvency check can fail for solvency only when the value really is short. */
  lemma SolvencyVerdict(s: StrategyState, v: u64)
    ensures RequireSolvent(s, v).Ok? ==> v >= Owed(s)
    ensures RequireSolvent(s, v) == Err(SolvencyInvariantBroken) ==> v < Owed(s)
    ensures s.totalUserShares * s.userIndex < TWO128 && Owed(s) < TWO64 && v < Owed(s)
            ==> RequireSolvent(s, v) == Err(SolvencyInvariantBroken)
  {
  }

  // ----- yield attribution

  function ProtocolCut(s: StrategyState, delta: u64): nat {
    MulDiv(delta, s.protocolYieldShareBps, 10_000)
  }

  function IndexGrowth(userCut: nat, shares: nat): nat
    requires shares > 0
  {
    MulDiv(userCut, TWO64, shares)
  }

  function YieldApplied(s: StrategyState, delta: u64): Result<StrategyState> {
    if delta == 0 then Ok(s)
    else if s.totalUserShares == 0 then
      var owed :- Checked64(s.protocolOwedUnderlying + delta);
      Ok(s.(protocolOwedUnderlying := owed))
    else
      var protocolCut :- Checked64(ProtocolCut(s, delta));
      var userCut :- Checked64(delta - protocolCut);
      var index :- Checked128(s.userIndex + IndexGrowth(userCut, s.totalUserShares));
      var owed :- Checked64(s.protocolOwedUnderlying + protocolCut);
      Ok(s.(userIndex := index, protocolOwedUnderlying := owed))
  }

  class YieldStrategy {
    const protocolYieldShareBps: SkimBps
    var userIndex: Index
    var lastSettledUnderlying: u64
    var totalUserShares: u64
    var protocolOwedUnderlying: u64

    function State(): StrategyState
      reads this
    {
      StrategyState(protocolYieldShareBps, userIndex, lastSettledUnderlying, totalUserShares,
                    protocolOwedUnderlying)
    }

    /** `register_yield_bearing_token`: a fresh strategy at index one. */
    constructor (bps: SkimBps)
      ensures State() == StrategyState(bps, TWO64, 0, 0, 0)
    {
      protocolYieldShareBps := bps;
      userIndex := TWO64;
      lastSettledUnderlying, totalUserShares, protocolOwedUnderlying := 0, 0, 0;
    }

    method ApplyYieldDelta(delta: u64) returns (r: Result<()>)
      modifies this
      ensures r.Ok? ==> YieldApplied(old(State()), delta) == Ok(State())
      ensures r.Err? ==> YieldApplied(old(State()), delta) == Err(r.error)
    {
      if delta == 0 {
        return Ok(());
      }
      if totalUserShares == 0 {
        protocolOwedUnderlying :- Checked64(protocolOwedUnderlying + delta);
        return Ok(());
      }
      var protocolCut :- Checked64(MulDiv(delta, protocolYieldShareBps, 10_000));
      var userCut :- Checked64(delta - protocolCut);
      if userCut > 0 {
        userIndex :- Checked128(userIndex + MulDiv(userCut, TWO64, totalUserShares));
      }
      if protocolCut > 0 {
        protocolOwedUnderlying :- Checked64(protocolOwedUnderlying + protocolCut);
      }
      return Ok(());
    }
  }

  // ----- rounding facts

  lemma WorthSplits(a: nat, b: nat, index: Index)
    ensures Worth(a, index) + Worth(b, index) <= Worth(a + b, index)
  {
    assert (a + b) * index == a * index + b * index;
    var w := Worth(a, index) + Worth(b, index);
    assert w * TWO64 == Worth(a, index) * TWO64 + Worth(b, index) * TWO64;
    FloorIsLargest(a + b, index, TWO64, w);
  }

  /** Shares worth at most `x` add at most `x` to what is owed. */
  lemma WorthOfAdded(a: nat, b: nat, index: Index, x: nat)
    requires b * index <= x * TWO64
    ensures Worth(a + b, index) <= Worth(a, index) + x
  {
    assert (a + b) * index == a * index + b * index;
    FloorBelow(a + b, index, TWO64, Worth(a, index) + x);
  }

  lemma WorthGrowsWithIndex(shares: nat, i: Index, j: Index)
    requires i <= j
    ensures Worth(shares, i) <= Worth(shares, j)
  {
    MulMonotone(i, j, shares);
    FloorIsLargest(shares, j, TWO64, Worth(shares, i));
  }

  /** Raising the index for a cut pays the shares at most the cut and at least the cut less one. */
  lemma IndexGrowthIsTight(shares: u64, index: Index, cut: nat)
    requires shares > 0
    requires index + IndexGrowth(cut, shares) < TWO128
    ensures var after := Worth(shares, index + IndexGrowth(cut, shares));
            Worth(shares, index) + cut - 1 <= after <= Worth(shares, index) + cut
  {
    var g := IndexGrowth(cut, shares);
    var w := Worth(shares, index);
    assert shares * (index + g) == shares * index + g * shares;
    assert g * shares <= cut * TWO64 < g * shares + shares;
    FloorBelow(shares, index + g, TWO64, w + cut);
    FloorIsLargest(shares, index + g, TWO64, w + cut - 1);
  }

  /** Yield attribution is tight: owed grows by the delta, or by one unit less, and the index
      never falls. */
  lemma YieldAttributionIsTight(s: StrategyState, delta: u64)
    requires delta > 0 && YieldApplied(s, delta).Ok?
    ensures var s' := YieldApplied(s, delta).value;
            && Owed(s) + delta - 1 <= Owed(s') <= Owed(s) + delta
            && s'.userIndex >= s.userIndex
            && s'.totalUserShares == s.totalUserShares
            && s'.lastSettledUnderlying == s.lastSettledUnderlying
  {
    if s.totalUserShares > 0 {
      var cut := ProtocolCut(s, delta);
      IndexGrowthIsTight(s.totalUserShares, s.userIndex, delta - cut);
    }
  }

  /** The protocol's part of new value `delta` is the floor of its share of it, and the users' shares
      gain the rest, up to one unit. While there are no shares the protocol gets it all. */
  ghost predicate SplitByShare(s: StrategyState, s': StrategyState, delta: nat) {
    var r := s'.protocolOwedUnderlying - s.protocolOwedUnderlying;
    var before, after := Worth(s.totalUserShares, s.userIndex), Worth(s.totalUserShares, s'.userIndex);
    && (s.totalUserShares == 0 ==> r == delta && s'.userIndex == s.userIndex)
    && (s.totalUserShares > 0 ==>
          && r * 10_000 <= delta * s.protocolYieldShareBps < (r + 1) * 10_000
          && before + delta - r - 1 <= after <= before + delta - r)
  }

  /** New value is split by the registered share. */
  lemma YieldIsSplit(s: StrategyState, delta: u64)
    requires delta > 0 && YieldApplied(s, delta).Ok?
    ensures SplitByShare(s, YieldApplied(s, delta).value, delta)
  {
    if s.totalUserShares > 0 {
      var cut := ProtocolCut(s, delta);
      assert cut * 10_000 <= delta * s.protocolYieldShareBps < (cut + 1) * 10_000;
      hide ProtocolCut;
      IndexGrowthIsTight(s.totalUserShares, s.userIndex, delta - cut);
    }
  }

  /** A deposit buys as many shares as it can pay for at the index, and not one fewer. */
  lemma DepositBuysMostShares(s: StrategyState, usdc: u64)
    requires UsdcToShares(s, usdc).Ok?
    ensures var shares := UsdcToShares(s, usdc).value;
            shares * s.userIndex <= usdc * TWO64 < (shares + 1) * s.userIndex
  {
  }

  /** Shares convert to as much as they are worth at the index, and not one unit less. */
  lemma SharesFetchMost(s: StrategyState, shares: u64)
    requires SharesToUsdc(s, shares).Ok?
    ensures var usdc := SharesToUsdc(s, shares).value;
            usdc * TWO64 <= shares * s.userIndex < (usdc + 1) * TWO64
  {
  }

  // ----- the claims of the holders

  function Total(holdings: seq<nat>): nat {
    if holdings == [] then 0 else holdings[0] + Total(holdings[1..])
  }

  /** What the holders could claim one by one, each conversion rounding down. */
  function Claims(holdings: seq<nat>, index: Index): nat {
    if holdings == [] then 0 else Worth(holdings[0], index) + Claims(holdings[1..], index)
  }

  /** All claims are jointly payable out of the amount the strategy records as owed. */
  lemma {:induction false} ClaimsAreJointlyPayable(holdings: seq<nat>, index: Index)
    ensures Claims(holdings, index) <= Worth(Total(holdings), index)
  {
    if holdings != [] {
      ClaimsAreJointlyPayable(holdings[1..], index);
      WorthSplits(holdings[0], Total(holdings[1..]), index);
    }
  }

  /** The shares bought with a deposit never convert back to more than the deposit. */
  lemma DepositNeverConvertsBackToMore(s: StrategyState, usdc: u64)
    requires UsdcToShares(s, usdc).Ok?
    ensures UsdcToShares(s, usdc).value * s.userIndex <= usdc * TWO64
    ensures Worth(UsdcToShares(s, usdc).value, s.userIndex) <= usdc
  {
    FloorBelow(UsdcToShares(s, usdc).value, s.userIndex, TWO64, usdc);
  }
}
