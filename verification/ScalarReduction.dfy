/** The digest of a message brought below the order of the BLS12-381 scalar field, in place, on 32
    big-endian bytes. */
module ScalarReduction {
  import opened Machine
  import opened Rounding
  import opened Varint

  const SCALAR_SIZE: nat := 32

  const MODULUS: Bytes :=
    [0x73, 0xed, 0xa7, 0x53, 0x29, 0x9d, 0x7d, 0x48,
     0x33, 0x39, 0xd8, 0x08, 0x09, 0xa1, 0xd8, 0x05,
     0x53, 0xbd, 0xa4, 0x02, 0xff, 0xfe, 0x5b, 0xfe,
     0xff, 0xff, 0xff, 0xff, 0x00, 0x00, 0x00, 0x01]

  /** The ASCII bytes of the domain tag. */
  const SIGNING_POINT_TAG: Bytes :=
    [114, 121, 118, 111, 45, 98, 108, 115, 45, 115, 105, 103, 110, 105, 110, 103, 45, 112, 111, 105, 110, 116,
     45, 118, 49]

  // ----- big-endian values

  function Value(bytes: Bytes): nat {
    if bytes == [] then 0 else 0x100 * Value(bytes[..|bytes| - 1]) + bytes[|bytes| - 1]
  }

  function Pow256(n: nat): (p: nat)
    ensures p > 0
  {
    if n == 0 then 1 else 0x100 * Pow256(n - 1)
  }

  ghost const ORDER: nat := Value(MODULUS)

  lemma {:induction false} ValueOfConcat(a: Bytes, b: Bytes)
    ensures Value(a + b) == Value(a) * Pow256(|b|) + Value(b)
    decreases |b|
  {
    if b == [] {
      assert a + b == a;
    } else {
      var n := |b| - 1;
      assert (a + b)[..|a + b| - 1] == a + b[..n];
      ValueOfConcat(a, b[..n]);
    }
  }

  lemma {:induction false} ValueBound(b: Bytes)
    ensures Value(b) < Pow256(|b|)
    decreases |b|
  {
    if b != [] {
      ValueBound(b[..|b| - 1]);
    }
  }

  lemma ValueOfOne(x: u8)
    ensures Value([x]) == x
  {
    assert [x][..0] == [];
  }

  /** The value of a string led by `x`. */
  lemma ValueOfLed(x: u8, b: Bytes)
    ensures Value([x] + b) == x * Pow256(|b|) + Value(b)
  {
    ValueOfConcat([x], b);
    ValueOfOne(x);
  }

  // ----- comparing

  datatype Ordering = Less | Equal | Greater

  function OrderingOf(x: int, y: int): Ordering {
    if x < y then Less else if x == y then Equal else Greater
  }

  /** The first byte that differs decides. */
  lemma FirstDifferenceDecides(left: Bytes, right: Bytes, i: nat)
    requires |left| == |right| && i < |left| && left[..i] == right[..i] && left[i] < right[i]
    ensures Value(left) < Value(right)
  {
    var a, b := left[i + 1..], right[i + 1..];
    assert left == left[..i] + ([left[i]] + a) && right == right[..i] + ([right[i]] + b);
    ValueOfConcat(left[..i], [left[i]] + a);
    ValueOfConcat(right[..i], [right[i]] + b);
    ValueOfLed(left[i], a);
    ValueOfLed(right[i], b);
    ValueBound(a);
    LeadDecides(left[i], right[i], Pow256(|a|), Value(a), Value(b));
  }

  lemma LeadDecides(x: nat, y: nat, w: nat, va: nat, vb: nat)
    requires x < y && va < w
    ensures x * w + va < y * w + vb
  {
    MulMonotone(x + 1, y, w);
  }

  /** `compare_be_32`. */
  method Compare(left: array<u8>, right: Bytes) returns (o: Ordering)
    requires left.Length == |right|
    ensures o == OrderingOf(Value(left[..]), Value(right))
  {
    var i := 0;
    while i < left.Length
      invariant 0 <= i <= left.Length
      invariant left[..i] == right[..i]
    {
      if left[i] < right[i] {
        FirstDifferenceDecides(left[..], right, i);
        return Less;
      } else if left[i] > right[i] {
        FirstDifferenceDecides(right, left[..], i);
        return Greater;
      }
      i := i + 1;
    }
    assert left[..] == right;
    return Equal;
  }

  // ----- subtracting

  lemma SuffixGrows(bytes: Bytes, i: nat)
    requires i < |bytes|
    ensures Value(bytes[i..]) == bytes[i] * Pow256(|bytes| - i - 1) + Value(bytes[i + 1..])
  {
    assert bytes[i..] == [bytes[i]] + bytes[i + 1..];
    ValueOfLed(bytes[i], bytes[i + 1..]);
  }

  /** What the borrow loop has done to the bytes from `i` on. */
  ghost predicate Subtracted(before: Bytes, after: Bytes, i: nat, borrow: nat) {
    && |before| == |after| == |MODULUS| && i <= |before| && borrow <= 1
    && after[..i] == before[..i]
    && Value(after[i..]) + Value(MODULUS[i..]) == Value(before[i..]) + borrow * Pow256(|before| - i)
  }

  lemma BorrowStep(before: Bytes, mid: Bytes, after: Bytes, i: nat, borrow: nat, borrow': nat)
    requires i < |before| && Subtracted(before, mid, i + 1, borrow) && borrow' <= 1
    requires |after| == |mid| && after == mid[i := after[i]]
    requires after[i] == before[i] - MODULUS[i] - borrow + 0x100 * borrow'
    ensures Subtracted(before, after, i, borrow')
  {
    hide Value, MODULUS;
    assert after[..i] == mid[..i + 1][..i] == before[..i + 1][..i] == before[..i];
    assert after[i + 1..] == mid[i + 1..];
    SuffixGrows(before, i);
    SuffixGrows(after, i);
    SuffixGrows(MODULUS, i);
    BorrowArithmetic(Pow256(|before| - i - 1), before[i], MODULUS[i], after[i], borrow, borrow',
                     Value(before[i + 1..]), Value(after[i + 1..]), Value(MODULUS[i + 1..]));
  }

  lemma BorrowArithmetic(w: nat, x: int, m: int, y: int, borrow: nat, borrow': nat, vx: nat, vy: nat, vm: nat)
    requires y == x - m - borrow + 0x100 * borrow' && vy + vm == vx + borrow * w
    ensures (y * w + vy) + (m * w + vm) == (x * w + vx) + borrow' * (0x100 * w)
  {
    assert y * w == x * w - m * w - borrow * w + (0x100 * borrow') * w;
  }

  /** `subtract_modulus_be`: the borrow runs out, so exactly the order is subtracted. */
  method SubtractModulus(bytes: array<u8>)
    requires bytes.Length == SCALAR_SIZE && Value(bytes[..]) >= ORDER
    modifies bytes
    ensures Value(bytes[..]) == Value(old(bytes[..])) - ORDER
  {
    ghost var before := bytes[..];
    var borrow: nat := 0;
    var i := SCALAR_SIZE;
    assert MODULUS[i..] == [] && before[i..] == [];
    while i > 0
      invariant 0 <= i <= SCALAR_SIZE
      invariant Subtracted(before, bytes[..], i, borrow)
    {
      hide Subtracted;
      i := i - 1;
      ghost var mid := bytes[..];
      assert mid[i] == before[i] by { PrefixKept(before, mid, i, borrow); }
      var left: nat, right: nat := bytes[i], MODULUS[i] + borrow;
      if left >= right {
        bytes[i] := left - right;
        BorrowStep(before, mid, bytes[..], i, borrow, 0);
        borrow := 0;
      } else {
        bytes[i] := left + 256 - right;
        BorrowStep(before, mid, bytes[..], i, borrow, 1);
        borrow := 1;
      }
    }
    assert bytes[..][0..] == bytes[..] && before[0..] == before && MODULUS[0..] == MODULUS;
    ValueBound(bytes[..]);
  }

  lemma PrefixKept(before: Bytes, mid: Bytes, i: nat, borrow: nat)
    requires i < |before| && Subtracted(before, mid, i + 1, borrow)
    ensures i < |mid| && mid[i] == before[i] && borrow <= 1 && |before| == |MODULUS|
  {
    assert mid[..i + 1][i] == before[..i + 1][i];
  }

  // ----- reducing

  /** Three times the order exceeds every 32-byte value: its leading byte is 0x73. */
  lemma OrderIsLarge()
    ensures 3 * ORDER > Pow256(SCALAR_SIZE) && ORDER > 1
  {
    var rest := MODULUS[1..];
    assert MODULUS == [MODULUS[0]] + rest;
    ValueOfLed(MODULUS[0], rest);
    assert Pow256(SCALAR_SIZE) == 0x100 * Pow256(31);
  }

  lemma ReducedIsRemainder(value: nat, k: nat, rest: nat)
    requires rest < ORDER && value == rest + k * ORDER
    ensures rest == value % ORDER
  {
    assert value / ORDER == k by {
      if value / ORDER < k {
        MulMonotone(value / ORDER + 1, k, ORDER);
      } else if value / ORDER > k {
        MulMonotone(k + 1, value / ORDER, ORDER);
      }
    }
  }

  /** `reduce_to_scalar_be`: the remainder by the order, after at most two subtractions. */
  method ReduceToScalar(bytes: array<u8>) returns (ghost subtractions: nat)
    requires bytes.Length == SCALAR_SIZE
    modifies bytes
    ensures Value(bytes[..]) == Value(old(bytes[..])) % ORDER
    ensures subtractions <= 2 && Value(old(bytes[..])) == Value(bytes[..]) + subtractions * ORDER
  {
    OrderIsLarge();
    ValueBound(bytes[..]);
    subtractions := 0;
    var o := Compare(bytes, MODULUS);
    while o != Less
      invariant Value(old(bytes[..])) == Value(bytes[..]) + subtractions * ORDER
      invariant o == OrderingOf(Value(bytes[..]), ORDER)
      invariant subtractions <= 2
      decreases Value(bytes[..])
    {
      SubtractModulus(bytes);
      subtractions := subtractions + 1;
      o := Compare(bytes, MODULUS);
    }
    ReducedIsRemainder(Value(old(bytes[..])), subtractions, Value(bytes[..]));
  }

  // ----- the scalar of a message

  type Digest = d: Bytes | |d| == 32 witness seq(32, _ => 0)

  /** What the scalar of a message is, for any 32-byte hash function. */
  ghost function ScalarOf(hash: Bytes -> Digest, message: Bytes): nat
    requires ORDER > 0
  {
    var first := Value(hash(SIGNING_POINT_TAG + message)) % ORDER;
    if first != 0 then first
    else
      var second := Value(hash(SIGNING_POINT_TAG + message + [1])) % ORDER;
      if second != 0 then second else 1
  }

  lemma {:induction false} ZeroBytes(bytes: Bytes)
    ensures Value(bytes) == 0 <==> forall i :: 0 <= i < |bytes| ==> bytes[i] == 0
    decreases |bytes|
  {
    if bytes != [] {
      ZeroBytes(bytes[..|bytes| - 1]);
    }
  }

  /** `is_zero_scalar`. */
  method IsZeroScalar(bytes: array<u8>) returns (zero: bool)
    ensures zero <==> Value(bytes[..]) == 0
  {
    ZeroBytes(bytes[..]);
    var i := 0;
    while i < bytes.Length
      invariant 0 <= i <= bytes.Length && forall k :: 0 <= k < i ==> bytes[k] == 0
    {
      if bytes[i] != 0 {
        assert bytes[..][i] != 0;
        return false;
      }
      i := i + 1;
    }
    return true;
  }

  method DigestBytes(digest: Digest) returns (bytes: array<u8>)
    ensures fresh(bytes) && bytes[..] == digest
  {
    bytes := new u8[SCALAR_SIZE](i requires 0 <= i < SCALAR_SIZE => digest[i]);
  }

  /** `hash_message_to_scalar_be`: never zero, and below the order. */
  method HashMessageToScalar(hash: Bytes -> Digest, message: Bytes) returns (scalar: array<u8>)
    ensures ORDER > 0 && fresh(scalar) && scalar.Length == SCALAR_SIZE
    ensures Value(scalar[..]) == ScalarOf(hash, message)
    ensures 0 < Value(scalar[..]) < ORDER
  {
    OrderIsLarge();
    scalar := DigestBytes(hash(SIGNING_POINT_TAG + message));
    ghost var subtractions := ReduceToScalar(scalar);
    var zero := IsZeroScalar(scalar);
    if zero {
      scalar := DigestBytes(hash(SIGNING_POINT_TAG + message + [1]));
      subtractions := ReduceToScalar(scalar);
      zero := IsZeroScalar(scalar);
      if zero {
        ZeroBytes(scalar[..]);
        scalar[SCALAR_SIZE - 1] := 1;
        ZeroBytes(scalar[..SCALAR_SIZE - 1]);
        assert scalar[..][..SCALAR_SIZE - 1] == scalar[..SCALAR_SIZE - 1];
      }
    }
  }

  // ----- the order as a number

  lemma ValueOfFour(a: u8, b: u8, c: u8, d: u8)
    ensures Value([a, b, c, d]) == 0x100_0000 * a + 0x1_0000 * b + 0x100 * c + d
  {
    assert [a, b, c, d][..3] == [a, b, c] && [a, b, c][..2] == [a, b] && [a, b][..1] == [a];
    ValueOfOne(a);
    assert Value([a, b]) == 0x100 * a + b;
    assert Value([a, b, c]) == 0x100 * Value([a, b]) + c;
  }

  lemma ValueOfEight(high: Bytes, low: Bytes)
    requires |high| == |low| == 4
    ensures Value(high + low) == 0x1_0000_0000 * Value(high) + Value(low)
  {
    ValueOfConcat(high, low);
    assert Pow256(4) == 0x1_0000_0000;
  }

  lemma ValueOfNextWord(front: Bytes, word: Bytes)
    requires |word| == 8
    ensures Value(front + word) == TWO64 * Value(front) + Value(word)
  {
    ValueOfConcat(front, word);
    assert Pow256(4) == 0x1_0000_0000;
    assert Pow256(8) == 0x1_0000_0000 * Pow256(4);
  }

  lemma WordIs(word: Bytes, a: u8, b: u8, c: u8, d: u8, e: u8, f: u8, g: u8, h: u8)
    requires word == [a, b, c, d, e, f, g, h]
    ensures Value(word) == 0x1_0000_0000 * (0x100_0000 * a + 0x1_0000 * b + 0x100 * c + d)
                           + (0x100_0000 * e + 0x1_0000 * f + 0x100 * g + h)
  {
    hide Value;
    ValueOfFour(a, b, c, d);
    ValueOfFour(e, f, g, h);
    ValueOfEight([a, b, c, d], [e, f, g, h]);
    assert word == [a, b, c, d] + [e, f, g, h];
  }

  lemma WordsOfModulus()
    ensures Value(MODULUS[..8]) == 0x73ed_a753_299d_7d48
    ensures Value(MODULUS[8..16]) == 0x3339_d808_09a1_d805
    ensures Value(MODULUS[16..24]) == 0x53bd_a402_fffe_5bfe
    ensures Value(MODULUS[24..]) == 0xffff_ffff_0000_0001
  {
    hide Value;
    WordIs(MODULUS[..8], 0x73, 0xed, 0xa7, 0x53, 0x29, 0x9d, 0x7d, 0x48);
    assert MODULUS[8] == 0x33 && MODULUS[9] == 0x39 && MODULUS[10] == 0xd8 && MODULUS[11] == 0x08;
    assert MODULUS[12] == 0x09 && MODULUS[13] == 0xa1 && MODULUS[14] == 0xd8 && MODULUS[15] == 0x05;
    WordIs(MODULUS[8..16], 0x33, 0x39, 0xd8, 0x08, 0x09, 0xa1, 0xd8, 0x05);
    WordIs(MODULUS[16..24], 0x53, 0xbd, 0xa4, 0x02, 0xff, 0xfe, 0x5b, 0xfe);
    WordIs(MODULUS[24..], 0xff, 0xff, 0xff, 0xff, 0x00, 0x00, 0x00, 0x01);
  }

  /** The order of the scalar field of BLS12-381, written as one number. */
  lemma OrderIs()
    ensures ORDER == 52435875175126190479447740508185965837690552500527637822603658699938581184513
  {
    hide Value;
    WordsOfModulus();
    var a, b, c, d := MODULUS[..8], MODULUS[8..16], MODULUS[16..24], MODULUS[24..];
    ValueOfNextWord(a, b);
    ValueOfNextWord(a + b, c);
    ValueOfNextWord(a + b + c, d);
    assert MODULUS == a + b + c + d;
  }

  /** Values are read high byte first: the last byte counts once, the one before it 256 times. */
  lemma BigEndian(front: Bytes, x: u8, y: u8)
    ensures Value(front + [x, y]) == 0x1_0000 * Value(front) + 0x100 * x + y
  {
    assert (front + [x, y])[..|front| + 1] == front + [x];
    assert (front + [x])[..|front|] == front;
  }

  // ----- what is hashed

  /** The tag is an ASCII text. */
  lemma TagSpells()
    ensures var text := "ryvo-bls-signing-point-v1";
            |SIGNING_POINT_TAG| == |text| && forall i :: 0 <= i < |text| ==> SIGNING_POINT_TAG[i] == text[i] as int
  {
  }

  /** The digest of the tagged message decides, the one with a byte 1 behind it where the first is a
      multiple of the order, and the number 1 where both are. */
  lemma ScalarComesFromDigests(hash: Bytes -> Digest, message: Bytes)
    ensures ORDER > 1
    ensures var first, second := Value(hash(SIGNING_POINT_TAG + message)), Value(hash(SIGNING_POINT_TAG + message + [1]));
            var scalar := ScalarOf(hash, message);
            && (first % ORDER != 0 ==> exists k: nat :: k <= 2 && first == Times(k) + scalar)
            && (first % ORDER == 0 && second % ORDER != 0 ==> exists k: nat :: k <= 2 && second == Times(k) + scalar)
            && (first % ORDER == 0 && second % ORDER == 0 ==> scalar == 1)
  {
    OrderIsLarge();
    FewTimes(hash(SIGNING_POINT_TAG + message));
    FewTimes(hash(SIGNING_POINT_TAG + message + [1]));
  }

  ghost function Times(k: nat): nat {
    k * ORDER
  }

  lemma FewTimes(digest: Digest)
    requires ORDER > 0
    ensures exists k: nat :: k <= 2 && Value(digest) == Times(k) + Value(digest) % ORDER
  {
    hide Value, MODULUS;
    OrderIsLarge();
    ValueBound(digest);
    var k := FewOf(Value(digest), ORDER);
    assert Value(digest) == Times(k) + Value(digest) % ORDER;
  }

  lemma FewOf(v: nat, r: nat) returns (k: nat)
    requires r > 0 && v < 3 * r
    ensures k <= 2 && v == k * r + v % r
  {
    k := v / r;
    assert v == k * r + v % r;
    if k > 2 {
      MulMonotone(3, k, r);
    }
  }
}
