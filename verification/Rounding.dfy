/** Floor division, the only rounding the programs use, and the inequalities built on it. */
module Rounding {

  /** `a * b / c`, rounded down. */
  function MulDiv(a: nat, b: nat, c: nat): (q: nat)
    requires c > 0
    ensures q * c <= a * b < q * c + c
  {
    Exact(a * b, c);
    a * b / c
  }

  lemma Exact(n: nat, c: nat)
    requires c > 0
    ensures 0 <= n / c
    ensures (n / c) * c <= n < (n / c) * c + c
  {
    assert n == (n / c) * c + n % c;
  }

  /** The floor is the largest integer whose multiple fits. */
  lemma FloorIsLargest(a: nat, b: nat, c: nat, q: int)
    requires c > 0 && q * c <= a * b
    ensures q <= MulDiv(a, b, c)
  {
    var f := MulDiv(a, b, c);
    if q > f {
      MulMonotone(f + 1, q, c);
    }
  }

  lemma FloorBelow(a: nat, b: nat, c: nat, q: int)
    requires c > 0 && a * b < (q + 1) * c
    ensures MulDiv(a, b, c) <= q
  {
    var f := MulDiv(a, b, c);
    if f > q {
      MulMonotone(q + 1, f, c);
    }
  }

  lemma MulMonotone(a: int, b: int, c: nat)
    requires a <= b
    ensures a * c <= b * c
  {
  }

  /** Cancels a positive factor. */
  lemma Cancel(a: int, b: int, c: nat)
    requires c > 0 && a * c <= b * c
    ensures a <= b
  {
    if a > b {
      MulMonotone(b + 1, a, c);
    }
  }

  /** The order of fractions is transitive: x/y <= t/p and t/p <= u/q give x/y <= u/q. */
  lemma CrossTransitive(x: nat, y: nat, t: nat, p: nat, u: nat, q: nat)
    requires p > 0
    requires x * p <= t * y
    requires t * q <= u * p
    ensures x * q <= u * y
  {
    MulMonotone(x * p, t * y, q);
    MulMonotone(t * q, u * p, y);
    assert (x * q) * p == (x * p) * q by { Shuffle(x, q, p); }
    assert (t * y) * q == (t * q) * y by { Shuffle(t, y, q); }
    assert (u * p) * y == (u * y) * p by { Shuffle(u, p, y); }
    Cancel(x * q, u * y, p);
  }

  lemma Shuffle(a: int, b: int, c: int)
    ensures (a * b) * c == (a * c) * b
  {
  }
}
