/** Unsigned LEB128, section 7.6 of DWARF 5, capped at 64 bits. */
module Varint {
  import opened Machine
  import opened Rounding
  import opened SortedVectors

  type Bytes = seq<u8>

  // ----- printing

  /** Seven bits a byte, low bits first; every byte but the last has its high bit set. */
  function Printed(value: nat): (bytes: Bytes)
    ensures |bytes| > 0
  {
    if value < 0x80 then [value] else [value % 0x80 + 0x80] + Printed(value / 0x80)
  }

  /** `encode_varint_u64` and `encodeCompactU64`. */
  method Encode(value: nat) returns (out: Bytes)
    ensures out == Printed(value)
  {
    out := [];
    var remaining := value;
    while remaining >= 0x80
      invariant out + Printed(remaining) == Printed(value)
    {
      out := out + [remaining % 0x80 + 0x80];
      remaining := remaining / 0x80;
    }
    out := out + [remaining];
  }

  // ----- reading

  /** `value | chunk << shift`, for a chunk that lands above the bits gathered so far. */
  function WithChunk(value: nat, chunk: nat, shift: nat): (next: u64)
    requires shift < 64 && shift % 7 == 0 && value < Pow2(shift) && chunk < 0x80 && (shift == 63 ==> chunk <= 1)
    ensures next < Pow2(shift + 7)
  {
    ChunkFits(value, chunk, shift);
    value + chunk * Pow2(shift)
  }

  /** The rest of a varint from `offset`, the bits below `shift` already gathered in `value`. */
  function ReadOn(msg: Bytes, offset: nat, shift: nat, value: nat, error: Error): (r: Result<(u64, nat)>)
    requires offset <= |msg| && shift < 64 && shift % 7 == 0 && value < Pow2(shift)
    ensures r.Ok? ==> offset < r.value.1 <= |msg|
    ensures r.Err? ==> r.error == error
    decreases |msg| - offset
  {
    hide Pow2, WithChunk;
    if offset == |msg| then Err(error)
    else
      var chunk := msg[offset] % 0x80;
      if shift == 63 && chunk > 1 then Err(error)
      else
        var next := WithChunk(value, chunk, shift);
        if msg[offset] < 0x80 then Ok((next, offset + 1))
        else if shift == 63 then Err(error)
        else ReadOn(msg, offset + 1, shift + 7, next, error)
  }

  function ReadVarintU64(msg: Bytes, offset: nat, error: Error): (r: Result<(u64, nat)>)
    requires offset <= |msg|
    ensures r.Ok? ==> offset < r.value.1 <= |msg|
    ensures r.Err? ==> r.error == error
  {
    assert Pow2(0) == 1;
    ReadOn(msg, offset, 0, 0, error)
  }

  function ReadVarintU32(msg: Bytes, offset: nat, error: Error): (r: Result<(u32, nat)>)
    requires offset <= |msg|
    ensures r.Ok? ==> offset < r.value.1 <= |msg|
    ensures r.Err? ==> r.error == error
  {
    var (value, next) :- ReadVarintU64(msg, offset, error);
    :- Require(value <= 0xffff_ffff, error);
    Ok((value, next))
  }

  /** A chunk lands above the bits gathered so far, and inside the word. */
  lemma ChunkFits(value: nat, chunk: nat, shift: nat)
    requires shift < 64 && shift % 7 == 0 && value < Pow2(shift) && chunk < 0x80 && (shift == 63 ==> chunk <= 1)
    ensures 0 <= value + chunk * Pow2(shift) < TWO64
    ensures value + chunk * Pow2(shift) < Pow2(shift + 7)
  {
    PowSplits(shift, 7);
    MulMonotone(chunk + 1, 0x80, Pow2(shift));
    WordSize();
    if shift == 63 {
      MulMonotone(chunk, 1, Pow2(63));
    } else {
      PowGrows(shift + 7, 63);
    }
  }

  lemma WordSize()
    ensures Pow2(63) + Pow2(63) == TWO64 == Pow2(64)
  {
    assert Pow2(1) == 2 && Pow2(8) == 0x100;
    hide Pow2;
    PowSplits(8, 8);
    PowSplits(16, 16);
    PowSplits(32, 32);
    PowSplits(1, 63);
  }

  lemma {:induction false} PowSplits(a: nat, b: nat)
    ensures Pow2(a + b) == Pow2(a) * Pow2(b)
  {
    if a > 0 {
      PowSplits(a - 1, b);
    }
  }

  lemma {:induction false} PowGrows(a: nat, b: nat)
    requires a <= b
    ensures Pow2(a) <= Pow2(b)
  {
    if a < b {
      PowGrows(a, b - 1);
    }
  }

  /** `read_varint_u64`: the cursor moves behind the last byte. */
  method ReadVarint(msg: Bytes, start: nat, error: Error) returns (r: Result<(u64, nat)>)
    requires start <= |msg|
    ensures r == ReadVarintU64(msg, start, error)
  {
    hide Pow2, WithChunk;
    var offset, shift, value: u64 := start, 0, 0;
    assert Pow2(0) == 1 by { PowSplits(0, 0); }
    while true
      invariant start <= offset <= |msg| && 0 <= shift < 64 && shift % 7 == 0 && value < Pow2(shift)
      invariant ReadVarintU64(msg, start, error) == ReadOn(msg, offset, shift, value, error)
      decreases |msg| - offset
    {
      :- Require(offset < |msg|, error);
      var byte := msg[offset];
      offset := offset + 1;
      var chunk := byte % 0x80;
      if shift == 63 {
        :- Require(chunk <= 1, error);
      }
      value := WithChunk(value, chunk, shift);
      if byte < 0x80 {
        return Ok((value, offset));
      }
      shift := shift + 7;
      :- Require(shift < 64, error);
    }
  }

  // ----- reading what was printed

  lemma ReadFirst(msg: Bytes, offset: nat, shift: nat, value: nat, error: Error)
    requires offset < |msg| && shift < 64 && shift % 7 == 0 && value < Pow2(shift)
    ensures var chunk := msg[offset] % 0x80;
            ReadOn(msg, offset, shift, value, error) ==
            if shift == 63 && chunk > 1 then Err(error)
            else if msg[offset] < 0x80 then Ok((WithChunk(value, chunk, shift), offset + 1))
            else if shift == 63 then Err(error)
            else ReadOn(msg, offset + 1, shift + 7, WithChunk(value, chunk, shift), error)
  {
  }

  /** What is left of `value` fits the bits above `shift` exactly when the rest of it fits those
      above the next seven. */
  lemma RestFits(value: nat, shift: nat)
    requires value >= 0x80 && shift + 7 < 64
    ensures value < Pow2(64 - shift) <==> value / 0x80 < Pow2(64 - (shift + 7))
  {
    PowSplits(7, 64 - (shift + 7));
    assert Pow2(7) == 128 by { PowSplits(3, 4); }
    assert value == (value / 0x80) * 0x80 + value % 0x80;
  }

  lemma ChunksCompose(gathered: nat, value: nat, shift: nat)
    ensures gathered + (value % 0x80) * Pow2(shift) + (value / 0x80) * Pow2(shift + 7)
            == gathered + value * Pow2(shift)
  {
    PowSplits(7, shift);
    assert Pow2(7) == 128 by { PowSplits(3, 4); }
    calc {
      (value % 0x80) * Pow2(shift) + (value / 0x80) * (0x80 * Pow2(shift));
    ==
      (value % 0x80 + (value / 0x80) * 0x80) * Pow2(shift);
    ==  { assert value == (value / 0x80) * 0x80 + value % 0x80; }
      value * Pow2(shift);
    }
  }

  lemma ReadLast(before: Bytes, value: nat, after: Bytes, shift: nat, gathered: nat, error: Error)
    requires value < 0x80 && shift < 64 && shift % 7 == 0 && gathered < Pow2(shift)
    ensures ReadOn(before + Printed(value) + after, |before|, shift, gathered, error) ==
            if value < Pow2(64 - shift) then Ok((gathered + value * Pow2(shift), |before| + 1)) else Err(error)
  {
    hide ReadOn, Pow2;
    var msg := before + Printed(value) + after;
    assert msg[|before|] == value;
    ReadFirst(msg, |before|, shift, gathered, error);
    SmallPowers(shift);
    assert value < Pow2(64 - shift) <==> !(shift == 63 && value > 1);
  }

  lemma ReadMore(before: Bytes, value: nat, after: Bytes, shift: nat, gathered: nat, error: Error)
    requires value >= 0x80 && shift < 64 && shift % 7 == 0 && gathered < Pow2(shift)
    ensures ReadOn(before + Printed(value) + after, |before|, shift, gathered, error) ==
            if shift == 63 then Err(error)
            else ReadOn((before + [value % 0x80 + 0x80]) + Printed(value / 0x80) + after, |before| + 1, shift + 7,
                        WithChunk(gathered, value % 0x80, shift), error)
  {
    hide ReadOn, WithChunk, Pow2;
    var msg, first := before + Printed(value) + after, value % 0x80 + 0x80;
    assert msg[|before|] == first && first % 0x80 == value % 0x80;
    assert msg == (before + [first]) + Printed(value / 0x80) + after;
    ReadFirst(msg, |before|, shift, gathered, error);
  }

  /** Reading a printed value from the middle of a word, with anything behind it. */
  lemma {:induction false} ReadPrintedOn(before: Bytes, value: nat, after: Bytes, shift: nat, gathered: nat, error: Error)
    requires shift < 64 && shift % 7 == 0 && gathered < Pow2(shift)
    ensures ReadOn(before + Printed(value) + after, |before|, shift, gathered, error) ==
            if value < Pow2(64 - shift)
            then Ok((gathered + value * Pow2(shift), |before| + |Printed(value)|)) else Err(error)
    decreases value
  {
    hide ReadOn, Pow2;
    if value < 0x80 {
      ReadLast(before, value, after, shift, gathered, error);
    } else {
      ReadMore(before, value, after, shift, gathered, error);
      if shift < 63 {
        RestFits(value, shift);
        ChunksCompose(gathered, value, shift);
        ReadPrintedOn(before + [value % 0x80 + 0x80], value / 0x80, after, shift + 7,
                      WithChunk(gathered, value % 0x80, shift), error);
      } else {
        SmallPowers(shift);
      }
    }
  }

  lemma SmallPowers(shift: nat)
    requires shift < 64 && shift % 7 == 0
    ensures shift == 63 ==> Pow2(64 - shift) == 2
    ensures shift < 63 ==> Pow2(64 - shift) >= 0x80
  {
    if shift < 63 {
      PowGrows(8, 64 - shift);
      assert Pow2(8) == 256 by { PowSplits(4, 4); }
    }
  }

  /** The reader returns a printed value, whatever follows it, and accepts it exactly when it fits
      64 bits. */
  lemma ReadPrinted(before: Bytes, value: nat, after: Bytes, error: Error)
    ensures ReadVarintU64(before + Printed(value) + after, |before|, error) ==
            if value < TWO64 then Ok((value, |before| + |Printed(value)|)) else Err(error)
  {
    WordSize();
    assert Pow2(0) == 1;
    ReadPrintedOn(before, value, after, 0, 0, error);
  }

  // ----- what the bytes mean

  /** The number that the seven-bit groups of `bytes` spell, low group first. */
  function Spelled(bytes: Bytes): nat {
    if bytes == [] then 0 else bytes[0] % 0x80 + 0x80 * Spelled(bytes[1..])
  }

  /** A printed value spells itself; every byte but the last says that more follow; and the last group
      of a value above 127 is not empty. */
  lemma {:induction false} PrintedSpells(value: nat)
    ensures var bytes := Printed(value);
            && Spelled(bytes) == value
            && bytes[|bytes| - 1] < 0x80 && (forall i :: 0 <= i < |bytes| - 1 ==> bytes[i] >= 0x80)
            && (|bytes| > 1 ==> bytes[|bytes| - 1] > 0)
    decreases value
  {
    if value >= 0x80 {
      PrintedSpells(value / 0x80);
      var rest := Printed(value / 0x80);
      assert Printed(value)[1..] == rest;
      assert forall i :: 1 <= i < |rest| + 1 ==> Printed(value)[i] == rest[i - 1];
    } else {
      assert Spelled([value][1..]) == 0;
    }
  }

  lemma PrintedExamples()
    ensures Printed(0) == [0] && Printed(127) == [0x7f] && Printed(128) == [0x80, 0x01] && Printed(300) == [0xac, 0x02]
  {
    assert Printed(2) == [2] && Printed(1) == [1];
  }

  // ----- what follows a varint

  /** What the reader accepts it accepts whatever follows. */
  lemma {:induction false} TailIsIgnoredOn(msg: Bytes, tail: Bytes, offset: nat, shift: nat, value: nat, error: Error)
    requires offset <= |msg| && shift < 64 && shift % 7 == 0 && value < Pow2(shift)
    requires ReadOn(msg, offset, shift, value, error).Ok?
    ensures ReadOn(msg + tail, offset, shift, value, error) == ReadOn(msg, offset, shift, value, error)
    decreases |msg| - offset
  {
    hide Pow2, WithChunk;
    assert offset < |msg| && (msg + tail)[offset] == msg[offset];
    if msg[offset] >= 0x80 {
      TailIsIgnoredOn(msg, tail, offset + 1, shift + 7, WithChunk(value, msg[offset] % 0x80, shift), error);
    }
  }

  lemma TailIsIgnored(msg: Bytes, tail: Bytes, offset: nat, error: Error)
    requires offset <= |msg|
    ensures ReadVarintU64(msg, offset, error).Ok? ==>
              ReadVarintU64(msg + tail, offset, error) == ReadVarintU64(msg, offset, error)
    ensures ReadVarintU32(msg, offset, error).Ok? ==>
              ReadVarintU32(msg + tail, offset, error) == ReadVarintU32(msg, offset, error)
  {
    hide ReadOn;
    assert Pow2(0) == 1;
    if ReadVarintU64(msg, offset, error).Ok? {
      TailIsIgnoredOn(msg, tail, offset, 0, 0, error);
    }
  }
}
