/** Where a pair of participants keeps its two lanes. */
module LaneLookup {
  import opened Machine
  import opened Rounding
  import opened Ledgers

  const CHANNEL_BUCKET_SLOT_COUNT: nat := 46

  /** Which of the two lanes of a pair. */
  datatype LaneSelector = LowerToHigher | HigherToLower

  datatype Canonical = Canonical(lower: u32, higher: u32, selector: LaneSelector)

  function Canonicalize(payer: u32, payee: u32): Result<Canonical> {
    if payer == payee then Err(SelfChannelNotAllowed)
    else
      if payer < payee then Ok(Canonical(payer, payee, LowerToHigher)) else Ok(Canonical(payee, payer, HigherToLower))
  }

  function Triangle(h: nat): nat {
    h * (h - 1) / 2
  }

  /** `pair_ordinal`. */
  function PairOrdinal(lower: nat, higher: nat): nat
    requires lower < higher
  {
    Triangle(higher) + lower
  }

  /** The bucket, the slot in it and the lane of the slot. */
  datatype Place = Place(token: u16, bucket: nat, slot: nat, selector: LaneSelector)

  function PlaceOf(id: LaneId): Result<Place> {
    var c :- Canonicalize(id.payer, id.payee);
    var ordinal := PairOrdinal(c.lower, c.higher);
    Ok(Place(id.token, ordinal / CHANNEL_BUCKET_SLOT_COUNT, ordinal % CHANNEL_BUCKET_SLOT_COUNT, c.selector))
  }

  lemma TriangleStep(h: nat)
    ensures Triangle(h + 1) == Triangle(h) + h
  {
    assert (h + 1) * h == h * (h - 1) + 2 * h;
  }

  lemma {:induction false} TriangleGrows(h: nat, k: nat)
    requires h < k
    ensures Triangle(h) + h <= Triangle(k)
    decreases k
  {
    TriangleStep(k - 1);
    if h < k - 1 {
      TriangleGrows(h, k - 1);
    }
  }

  /** Different pairs have different ordinals. */
  lemma OrdinalIsInjective(l1: nat, h1: nat, l2: nat, h2: nat)
    requires l1 < h1 && l2 < h2 && PairOrdinal(l1, h1) == PairOrdinal(l2, h2)
    ensures l1 == l2 && h1 == h2
  {
    if h1 < h2 {
      TriangleGrows(h1, h2);
    } else if h2 < h1 {
      TriangleGrows(h2, h1);
    }
  }

  /** Every natural number is the ordinal of a pair. */
  lemma {:induction false} OrdinalIsSurjective(n: nat) returns (l: nat, h: nat)
    ensures l < h && PairOrdinal(l, h) == n
  {
    if n == 0 {
      l, h := 0, 1;
    } else {
      l, h := OrdinalIsSurjective(n - 1);
      TriangleStep(h);
      if l + 1 < h {
        l := l + 1;
      } else {
        l, h := 0, h + 1;
      }
    }
  }

  /** The ordinal of any two 32-bit identifiers fits 64 bits, its intermediate product included. */
  lemma OrdinalFits(lower: u32, higher: u32)
    requires lower < higher
    ensures higher * (higher - 1) < TWO64 && PairOrdinal(lower, higher) < TWO64
  {
    var m := 0x1_0000_0000;
    MulMonotone(higher - 1, m - 1, higher);
    MulMonotone(higher, m, m - 1);
    HalfFits(higher * (higher - 1));
  }

  lemma HalfFits(n: nat)
    requires n <= 0x1_0000_0000 * 0xffff_ffff
    ensures n < TWO64 && n / 2 + 0x1_0000_0000 < TWO64
  {
  }

  /** Bucket and slot numbers, taken from the ordinal by division and remainder, name one pair. */
  lemma LaneLookupNeverAliases(a: LaneId, b: LaneId)
    requires a.payer != a.payee && b.payer != b.payee && PlaceOf(a) == PlaceOf(b)
    ensures a == b
  {
    var ca, cb := Canonicalize(a.payer, a.payee).value, Canonicalize(b.payer, b.payee).value;
    var na, nb := PairOrdinal(ca.lower, ca.higher), PairOrdinal(cb.lower, cb.higher);
    assert na == CHANNEL_BUCKET_SLOT_COUNT * (na / CHANNEL_BUCKET_SLOT_COUNT) + na % CHANNEL_BUCKET_SLOT_COUNT;
    assert nb == CHANNEL_BUCKET_SLOT_COUNT * (nb / CHANNEL_BUCKET_SLOT_COUNT) + nb % CHANNEL_BUCKET_SLOT_COUNT;
    OrdinalIsInjective(ca.lower, ca.higher, cb.lower, cb.higher);
  }

  /** No slot is wasted: every bucket and slot number belongs to some pair. */
  lemma EverySlotHasAPair(bucket: nat, slot: nat) returns (lower: nat, higher: nat)
    requires slot < CHANNEL_BUCKET_SLOT_COUNT
    ensures lower < higher
    ensures PairOrdinal(lower, higher) / CHANNEL_BUCKET_SLOT_COUNT == bucket
    ensures PairOrdinal(lower, higher) % CHANNEL_BUCKET_SLOT_COUNT == slot
  {
    lower, higher := OrdinalIsSurjective(bucket * CHANNEL_BUCKET_SLOT_COUNT + slot);
  }

  /** Bucket and slot count up to the triangular number of the higher identifier plus the lower one. */
  lemma PlaceIsOrdinal(id: LaneId)
    requires id.payer != id.payee
    ensures PlaceOf(id).Ok?
    ensures var place := PlaceOf(id).value;
            var lower, higher := Min(id.payer, id.payee), Max(id.payer, id.payee);
            && place.token == id.token && place.slot < 46
            && 2 * (place.bucket * 46 + place.slot) == higher * (higher - 1) + 2 * lower
            && (place.selector == LowerToHigher <==> id.payer < id.payee)
  {
    var lower: nat, higher: nat := Min(id.payer, id.payee), Max(id.payer, id.payee);
    TwiceTriangle(higher);
    var n := PairOrdinal(lower, higher);
    assert n == 46 * (n / 46) + n % 46;
  }

  lemma {:induction false} TwiceTriangle(h: nat)
    ensures 2 * Triangle(h) == h * (h - 1)
  {
    if h > 0 {
      TwiceTriangle(h - 1);
      TriangleStep(h - 1);
      assert h * (h - 1) == (h - 1) * (h - 2) + 2 * (h - 1);
    }
  }
}
