/** Strictly increasing vectors searched by halving, and 64-bit words used as sets. */
module SortedVectors {
  import opened Machine

  ghost predicate StrictlySorted(xs: seq<nat>) {
    forall i, j :: 0 <= i < j < |xs| ==> xs[i] < xs[j]
  }

  /** Where `x` is, or where it belongs. */
  method BinarySearch(xs: seq<nat>, x: nat) returns (found: bool, index: nat)
    requires StrictlySorted(xs)
    ensures index <= |xs|
    ensures found <==> x in xs
    ensures found ==> index < |xs| && xs[index] == x
    ensures forall i :: 0 <= i < index ==> xs[i] < x
    ensures forall i :: index <= i < |xs| ==> x <= xs[i]
  {
    var lo, hi := 0, |xs|;
    while lo < hi
      invariant 0 <= lo <= hi <= |xs|
      invariant forall i :: 0 <= i < lo ==> xs[i] < x
      invariant forall i :: hi <= i < |xs| ==> x <= xs[i]
    {
      var mid := (lo + hi) / 2;
      if xs[mid] < x {
        lo := mid + 1;
      } else {
        hi := mid;
      }
    }
    return lo < |xs| && xs[lo] == x, lo;
  }

  /** A value put where it belongs. */
  function Inserted(xs: seq<nat>, at: nat, x: nat): seq<nat>
    requires at <= |xs|
  {
    xs[..at] + [x] + xs[at..]
  }

  lemma InsertedAt(xs: seq<nat>, at: nat, x: nat, k: nat)
    requires at <= |xs| && k <= |xs|
    ensures Inserted(xs, at, x)[k] == if k < at then xs[k] else if k == at then x else xs[k - 1]
  {
  }

  lemma InsertedMembers(xs: seq<nat>, at: nat, x: nat)
    requires at <= |xs|
    ensures forall y :: y in Inserted(xs, at, x) <==> y == x || y in xs
  {
    assert xs == xs[..at] + xs[at..];
  }

  lemma InsertedSorted(xs: seq<nat>, at: nat, x: nat)
    requires StrictlySorted(xs) && at <= |xs|
    requires forall i :: 0 <= i < at ==> xs[i] < x
    requires forall i :: at <= i < |xs| ==> x < xs[i]
    ensures StrictlySorted(Inserted(xs, at, x))
  {
    var ys := Inserted(xs, at, x);
    forall i, j | 0 <= i < j < |ys| ensures ys[i] < ys[j] {
      hide Inserted;
      InsertedAt(xs, at, x, i);
      InsertedAt(xs, at, x, j);
    }
  }

  /** `insert_unique_sorted_u32` and `insert_unique_sorted_u64`. */
  method InsertUnique(xs: seq<nat>, x: nat, error: Error) returns (r: Result<seq<nat>>)
    requires StrictlySorted(xs)
    ensures x in xs ==> r == Err(error)
    ensures x !in xs ==> r.Ok? && StrictlySorted(r.value) && forall y :: y in r.value <==> y == x || y in xs
  {
    var found, index := BinarySearch(xs, x);
    if found {
      return Err(error);
    }
    InsertedSorted(xs, index, x);
    InsertedMembers(xs, index, x);
    return Ok(Inserted(xs, index, x));
  }

  // ----- words as sets of small numbers

  function Pow2(n: nat): (p: nat)
    ensures p > 0
  {
    if n == 0 then 1 else 2 * Pow2(n - 1)
  }

  /** Bit `k` of `w`: `w & (1 << k) != 0`. */
  predicate Bit(w: nat, k: nat) {
    if k == 0 then w % 2 == 1 else Bit(w / 2, k - 1)
  }

  /** Setting a clear bit changes no other, and stays within the word. */
  lemma {:induction false} SettingABit(w: nat, k: nat, n: nat)
    requires !Bit(w, k) && k < n && w < Pow2(n)
    ensures w + Pow2(k) < Pow2(n)
    ensures forall j: nat :: Bit(w + Pow2(k), j) <==> j == k || Bit(w, j)
    decreases k
  {
    if k > 0 {
      SettingABit(w / 2, k - 1, n - 1);
      assert (w + Pow2(k)) / 2 == w / 2 + Pow2(k - 1);
    } else {
      assert (w + 1) / 2 == w / 2;
      SmallBelow(w, n);
    }
    forall j: nat ensures Bit(w + Pow2(k), j) <==> j == k || Bit(w, j) {
      if j > 0 && k > 0 {
        assert Bit((w + Pow2(k)) / 2, j - 1) <==> j - 1 == k - 1 || Bit(w / 2, j - 1);
      }
    }
  }

  lemma SmallBelow(w: nat, n: nat)
    requires n > 0 && w < Pow2(n) && w % 2 == 0
    ensures w + 1 < Pow2(n)
  {
  }

  lemma {:induction false} ZeroHasNoBits(k: nat)
    ensures !Bit(0, k)
  {
    if k > 0 {
      ZeroHasNoBits(k - 1);
    }
  }
}
