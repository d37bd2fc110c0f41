/** What the floors of a redemption cost: the recipient, and those who stay. */
module Redemption {
  import opened Rounding

  /** A snapshot with `t` underlying and `p` shares, and a later rate `t1`/`p1` that is not lower
      and exceeds it by less than one unit over all shares that are left. */
  ghost predicate SlightlyLater(t: nat, p: nat, t1: nat, p1: nat) {
    t * p1 <= t1 * p < t * p1 + p
  }

  lemma SameRateIsSlightlyLater(t: nat, p: nat)
    requires p > 0
    ensures SlightlyLater(t, p, t, p)
  {
  }

  lemma RateAfterRedemption(t: nat, p: nat, burn: nat)
    requires p > 0 && burn <= p && MulDiv(burn, t, p) <= t
    ensures SlightlyLater(t, p, t - MulDiv(burn, t, p), p - burn)
  {
    var paid := MulDiv(burn, t, p);
    assert (t - paid) * p == t * p - paid * p;
    assert t * (p - burn) == t * p - burn * t;
  }

  /** The shares burnt for a request, priced at the snapshot, pay at most the request and fall
      short of it by less than t/p + 1, even when the rate has moved on by an earlier redemption. */
  lemma PayoutBounds(t: nat, p: nat, request: nat, t1: nat, p1: nat)
    requires t > 0 && p > 0 && p1 > 0 && SlightlyLater(t, p, t1, p1)
    requires MulDiv(request, p, t) <= p1
    ensures var paid := MulDiv(MulDiv(request, p, t), t1, p1);
            paid <= request && (request - paid) * p < t + p
  {
    var burn := MulDiv(request, p, t);
    var paid := MulDiv(burn, t1, p1);
    var q := MulDiv(burn, t, p);
    CrossTransitive(q, burn, t, p, t1, p1);
    FloorIsLargest(burn, t1, p1, q);
    AtMostRequest(t, p, request, burn, t1, p1);
    MulMonotone(q, paid, p);
    assert (request - paid) * p == request * p - paid * p;
  }

  /** The remainder that the first floor drops decides the shortfall: a recipient is underpaid by at
      most one unit exactly when that remainder is at most one share's worth of supply. */
  lemma UnderpaidByAtMostOneExactlyWhen(t: nat, p: nat, request: nat)
    requires t > 0 && p > 0
    ensures var paid := MulDiv(MulDiv(request, p, t), t, p);
            var dropped := (request * p) % t;
            && dropped <= (request - paid) * p < dropped + p
            && (request - paid <= 1 <==> dropped <= p)
  {
    var burn := MulDiv(request, p, t);
    var paid := MulDiv(burn, t, p);
    var dropped := (request * p) % t;
    assert burn * t == request * p - dropped by { Quotient(request * p, t); }
    assert (request - paid) * p == request * p - paid * p;
    if request - paid <= 1 {
      MulMonotone(request - paid, 1, p);
    } else {
      MulMonotone(2, request - paid, p);
    }
  }

  lemma Quotient(n: nat, t: nat)
    requires t > 0
    ensures (n / t) * t == n - n % t
  {
  }

  /** The same for a redemption at any later rate t1/p1, such as that of the fee: what is left of the
      request after the burnt shares, counted in p1 parts of a unit, decides. */
  lemma UnderpaidAtMovedRateExactlyWhen(t: nat, p: nat, request: nat, t1: nat, p1: nat)
    requires t > 0 && p > 0 && p1 > 0
    ensures var burn := MulDiv(request, p, t);
            var paid := MulDiv(burn, t1, p1);
            request - paid <= 1 <==> request * p1 - burn * t1 <= p1
  {
    var burn := MulDiv(request, p, t);
    var paid := MulDiv(burn, t1, p1);
    assert (request - 1) * p1 == request * p1 - p1;
    if request - paid <= 1 {
      MulMonotone(request - 1, paid, p1);
    } else if request * p1 - burn * t1 <= p1 {
      FloorIsLargest(burn, t1, p1, request - 1);
    }
  }

  lemma AtMostRequest(t: nat, p: nat, request: nat, burn: nat, t1: nat, p1: nat)
    requires p > 0 && p1 > 0 && t1 * p < t * p1 + p && burn <= p1 && burn * t <= request * p
    ensures MulDiv(burn, t1, p1) <= request
  {
    if burn > 0 {
      BurntBelow(t, p, request, burn, t1, p1);
      var x, y := burn * t1, (request + 1) * p1;
      if y <= x {
        MulMonotone(y, x, p);
      }
    }
    FloorBelow(burn, t1, p1, request);
  }

  lemma BurntBelow(t: nat, p: nat, request: nat, burn: nat, t1: nat, p1: nat)
    requires p > 0 && t1 * p < t * p1 + p && 0 < burn <= p1 && burn * t <= request * p
    ensures (burn * t1) * p < ((request + 1) * p1) * p
  {
    calc {
      (burn * t1) * p;
    ==  { Shuffle(burn, t1, p); }
      (t1 * p) * burn;
    <   { StrictlyMore(t1 * p, t * p1 + p, burn); }
      (t * p1 + p) * burn;
    ==  { Regroup(t, p1, p, burn); }
      (burn * t) * p1 + p * burn;
    <=  { MulMonotone(burn * t, request * p, p1); MulMonotone(burn, p1, p); }
      (request * p) * p1 + p1 * p;
    ==  { Regroup(request, p, p1, 1); }
      ((request + 1) * p1) * p;
    }
  }

  lemma Regroup(a: int, b: int, c: int, d: int)
    ensures (a * b + c) * d == (d * a) * b + c * d
    ensures (a * b) * c + c * b == ((a + 1) * c) * b
  {
    assert (a * b) * c == (a * c) * b;
    assert (a * b) * d == (d * a) * b;
  }

  lemma StrictlyMore(a: int, b: int, c: nat)
    requires a < b && c > 0
    ensures a * c < b * c
  {
    MulMonotone(a + 1, b, c);
  }

  /** A holder of enough value holds enough shares to burn. */
  lemma BurnFits(c: nat, t: nat, p: nat, request: nat, burn: nat)
    requires p > 0 && t > 0 && request <= MulDiv(c, t, p) && burn * t <= request * p
    ensures burn <= c
  {
    MulMonotone(request, MulDiv(c, t, p), p);
    Cancel(burn, c, t);
  }

  /** Burning for a request costs the holder at most the request in value. */
  lemma RedeemLeavesEnough(c: nat, t: nat, p: nat, burn: nat, request: nat, t2: nat, p2: nat)
    requires p > 0 && burn <= c && burn * t <= request * p
    requires c - burn <= p2 && t * p2 <= t2 * p
    ensures MulDiv(c, t, p) <= request + if p2 == 0 then 0 else MulDiv(c - burn, t2, p2)
  {
    var v := MulDiv(c, t, p);
    assert (c - burn) * t == c * t - burn * t;
    assert (v - request) * p == v * p - request * p;
    if p2 == 0 {
      Cancel(v, request, p);
    } else if v > request {
      CrossTransitive(v - request, c - burn, t, p, t2, p2);
      FloorIsLargest(c - burn, t2, p2, v - request);
    }
  }

  /** A deposit buys value short of its amount by less than t/p + 1. */
  lemma DepositBuysEnough(c: nat, t: nat, p: nat, amount: nat, minted: nat, v2: nat)
    requires p > 0 && t > 0 && minted == MulDiv(amount, p, t)
    requires v2 == MulDiv(c + minted, t + amount, p + minted)
    ensures (MulDiv(c, t, p) + amount - v2) * p < t + p
  {
    var v := MulDiv(c, t, p);
    ValueAtOldPrice(c, t, p, amount, minted, v2);
    Shortfall(v * p, c * t, minted * t, amount * p, v2 * p, t, p) by {
      assert (c + minted) * t == c * t + minted * t;
    }
    assert (v + amount - v2) * p == v * p + amount * p - v2 * p;
  }

  /** The vault after the deposit is worth what its shares fetch at the old price. */
  lemma ValueAtOldPrice(c: nat, t: nat, p: nat, amount: nat, minted: nat, v2: nat)
    requires p > 0 && minted * t <= amount * p && v2 == MulDiv(c + minted, t + amount, p + minted)
    ensures v2 * p + p > (c + minted) * t
  {
    var q := MulDiv(c + minted, t, p);
    assert (t + amount) * p >= t * (p + minted);
    CrossTransitive(q, c + minted, t, p, t + amount, p + minted);
    FloorIsLargest(c + minted, t + amount, p + minted, q);
    MulMonotone(q, v2, p);
  }

  lemma Shortfall(vp: int, ct: int, mt: int, ap: int, v2p: int, t: int, p: int)
    requires vp <= ct && ap < mt + t && v2p + p > ct + mt
    ensures vp + ap - v2p < t + p
  {
  }
}
