/** The data of an Ed25519 precompile instruction: a table of offsets, then keys, signatures and
    messages. */
module Ed25519Table {
  import opened Machine
  import opened Varint
  import opened CommitmentMessages

  const ROW_SIZE: nat := 14
  const SELF_CONTAINED: u16 := 0xffff

  type Signature = s: Bytes | |s| == 64 witness seq(64, _ => 0)

  datatype SignedMessage = SignedMessage(signer: PublicKey, signature: Signature, message: Bytes)

  datatype Offsets = Offsets(
    signature: u16,
    signatureIndex: u16,
    publicKey: u16,
    publicKeyIndex: u16,
    message: u16,
    messageSize: u16,
    messageIndex: u16)

  // ----- what is built

  /** The bytes that one entry adds behind the table. */
  function Block(e: SignedMessage): (b: Bytes)
    ensures |b| == 96 + |e.message|
  {
    e.signer + e.signature + e.message
  }

  function Blocks(entries: seq<SignedMessage>): Bytes {
    if entries == [] then [] else Block(entries[0]) + Blocks(entries[1..])
  }

  /** Where the block of entry `i` starts, counted from the first block. */
  function BlockStart(entries: seq<SignedMessage>, i: nat): nat
    requires i <= |entries|
  {
    if i == 0 then 0 else |Block(entries[0])| + BlockStart(entries[1..], i - 1)
  }

  function TableSize(entries: seq<SignedMessage>): nat {
    2 + ROW_SIZE * |entries|
  }

  /** Every offset and length fits the two bytes it is written in. */
  predicate RowFits(e: SignedMessage, cursor: nat) {
    cursor + 96 <= 0xffff && |e.message| <= 0xffff
  }

  ghost predicate AllFit(entries: seq<SignedMessage>) {
    forall i :: 0 <= i < |entries| ==> RowFits(entries[i], TableSize(entries) + BlockStart(entries, i))
  }

  function Row(e: SignedMessage, cursor: nat): (b: Bytes)
    requires RowFits(e, cursor)
    ensures |b| == ROW_SIZE
  {
    LittleEndian16(cursor + 32) + LittleEndian16(SELF_CONTAINED)
    + LittleEndian16(cursor) + LittleEndian16(SELF_CONTAINED)
    + LittleEndian16(cursor + 96) + LittleEndian16(|e.message|) + LittleEndian16(SELF_CONTAINED)
  }

  /** What the bytes of the instruction have to be. */
  ghost predicate IsTable(data: Bytes, entries: seq<SignedMessage>) {
    var size := TableSize(entries);
    && AllFit(entries)
    && |data| == size + |Blocks(entries)|
    && data[0] == |entries| % 0x100 && data[1] == 0
    && (forall i :: 0 <= i < |entries| ==>
          data[2 + ROW_SIZE * i..][..ROW_SIZE] == Row(entries[i], size + BlockStart(entries, i)))
    && data[size..] == Blocks(entries)
  }

  // ----- the builder

  lemma {:induction false} NextBlock(entries: seq<SignedMessage>, i: nat)
    requires i < |entries|
    ensures BlockStart(entries, i + 1) == BlockStart(entries, i) + |Block(entries[i])|
    ensures BlockStart(entries, i + 1) <= |Blocks(entries)|
    ensures Blocks(entries)[BlockStart(entries, i)..BlockStart(entries, i + 1)] == Block(entries[i])
  {
    if i > 0 {
      NextBlock(entries[1..], i - 1);
      var first, rest := Block(entries[0]), Blocks(entries[1..]);
      var from, to := BlockStart(entries[1..], i - 1), BlockStart(entries[1..], i);
      assert (first + rest)[|first| + from..|first| + to] == rest[from..to];
    } else {
      var rest := Blocks(entries[1..]);
      assert (Block(entries[0]) + rest)[0..|Block(entries[0])|] == Block(entries[0]);
    }
  }

  lemma {:induction false} AllBlocks(entries: seq<SignedMessage>)
    ensures BlockStart(entries, |entries|) == |Blocks(entries)|
  {
    if entries != [] {
      AllBlocks(entries[1..]);
    }
  }

  method WriteBytes(data: array<u8>, at: nat, bytes: Bytes)
    requires at + |bytes| <= data.Length
    modifies data
    ensures data[at..at + |bytes|] == bytes
    ensures forall k :: 0 <= k < data.Length && !(at <= k < at + |bytes|) ==> data[k] == old(data[k])
  {
    var i := 0;
    while i < |bytes|
      invariant 0 <= i <= |bytes|
      invariant forall k :: 0 <= k < i ==> data[at + k] == bytes[k]
      invariant forall k :: 0 <= k < data.Length && !(at <= k < at + i) ==> data[k] == old(data[k])
    {
      data[at + i] := bytes[i];
      i := i + 1;
    }
  }

  /** The first loop: where each block will start; an offset that does not fit is refused. */
  method PlaceBlocks(entries: seq<SignedMessage>) returns (r: Result<(seq<nat>, nat)>)
    ensures r.Ok? <==> AllFit(entries)
    ensures r.Ok? ==>
              && |r.value.0| == |entries| && r.value.1 == TableSize(entries) + |Blocks(entries)|
              && forall i :: 0 <= i < |entries| ==> r.value.0[i] == TableSize(entries) + BlockStart(entries, i)
  {
    var cursor := TableSize(entries);
    var starts: seq<nat> := [];
    var i := 0;
    while i < |entries|
      invariant 0 <= i <= |entries| == |starts| + |entries| - i
      invariant cursor == TableSize(entries) + BlockStart(entries, i)
      invariant forall k :: 0 <= k < i ==>
                  starts[k] == TableSize(entries) + BlockStart(entries, k) && RowFits(entries[k], starts[k])
    {
      NextBlock(entries, i);
      :- Require(RowFits(entries[i], cursor), InvalidEd25519Data);
      starts := starts + [cursor];
      cursor := cursor + 96 + |entries[i].message|;
      i := i + 1;
    }
    AllBlocks(entries);
    return Ok((starts, cursor));
  }

  method WriteRows(data: array<u8>, entries: seq<SignedMessage>, starts: seq<nat>)
    requires |starts| == |entries| && TableSize(entries) <= data.Length
    requires forall i :: 0 <= i < |entries| ==> RowFits(entries[i], starts[i])
    modifies data
    ensures forall i :: 0 <= i < |entries| ==> data[2 + ROW_SIZE * i..][..ROW_SIZE] == Row(entries[i], starts[i])
    ensures forall k :: 0 <= k < data.Length && !(2 <= k < TableSize(entries)) ==> data[k] == old(data[k])
  {
    var i := 0;
    while i < |entries|
      invariant 0 <= i <= |entries|
      invariant forall j :: 0 <= j < i ==> data[2 + ROW_SIZE * j..][..ROW_SIZE] == Row(entries[j], starts[j])
      invariant forall k :: 0 <= k < data.Length && !(2 <= k < 2 + ROW_SIZE * i) ==> data[k] == old(data[k])
    {
      var at := 2 + ROW_SIZE * i;
      ghost var before := data[..];
      WriteBytes(data, at, Row(entries[i], starts[i]));
      forall j | 0 <= j < i ensures data[2 + ROW_SIZE * j..][..ROW_SIZE] == Row(entries[j], starts[j]) {
        assert before[2 + ROW_SIZE * j..][..ROW_SIZE] == data[2 + ROW_SIZE * j..][..ROW_SIZE];
      }
      assert data[at..][..ROW_SIZE] == data[at..at + ROW_SIZE];
      i := i + 1;
    }
  }

  method WriteBlocks(data: array<u8>, entries: seq<SignedMessage>)
    requires data.Length == TableSize(entries) + |Blocks(entries)|
    modifies data
    ensures data[TableSize(entries)..] == Blocks(entries)
    ensures forall k :: 0 <= k < TableSize(entries) ==> data[k] == old(data[k])
  {
    hide Blocks;
    var size := TableSize(entries);
    var offset := size;
    var i := 0;
    while i < |entries|
      invariant 0 <= i <= |entries| && offset == size + BlockStart(entries, i) <= data.Length
      invariant data[size..offset] == Blocks(entries)[..offset - size]
      invariant forall k :: 0 <= k < size ==> data[k] == old(data[k])
    {
      NextBlock(entries, i);
      ghost var before := data[..];
      hide BlockStart;
      WriteBytes(data, offset, Block(entries[i]));
      SlicesJoin(before, data[..], Blocks(entries), size, offset, offset + |Block(entries[i])|);
      offset := offset + 96 + |entries[i].message|;
      i := i + 1;
    }
    AllBlocks(entries);
    assert data[size..offset] == data[size..];
  }

  lemma SlicesJoin(before: Bytes, after: Bytes, all: Bytes, size: nat, from: nat, to: nat)
    requires size <= from <= to <= |before| == |after| && to - size <= |all|
    requires before[size..from] == all[..from - size] && after[from..to] == all[from - size..to - size]
    requires forall k :: 0 <= k < from ==> after[k] == before[k]
    ensures after[size..to] == all[..to - size]
  {
    assert after[size..from] == before[size..from];
    assert after[size..to] == after[size..from] + after[from..to];
    assert all[..to - size] == all[..from - size] + all[from - size..to - size];
  }

  /** `createMultiMessageEd25519Instruction`: it fails exactly when an offset does not fit. */
  method CreateTable(entries: seq<SignedMessage>) returns (r: Result<array<u8>>)
    ensures r.Ok? <==> AllFit(entries)
    ensures r.Ok? ==> fresh(r.value) && IsTable(r.value[..], entries)
  {
    var placed :- PlaceBlocks(entries);
    var data := new u8[placed.1];
    data[0], data[1] := |entries| % 0x100, 0;
    WriteRows(data, entries, placed.0);
    ghost var table := data[..];
    WriteBlocks(data, entries);
    forall i | 0 <= i < |entries|
      ensures data[..][2 + ROW_SIZE * i..][..ROW_SIZE] == Row(entries[i], TableSize(entries) + BlockStart(entries, i))
    {
      assert data[..][2 + ROW_SIZE * i..][..ROW_SIZE] == table[2 + ROW_SIZE * i..][..ROW_SIZE];
    }
    return Ok(data);
  }

  // ----- the parser

  function Word(data: Bytes, at: nat): u16
    requires at + 2 <= |data|
  {
    FromLittleEndian16(data[at], data[at + 1])
  }

  function ParseOffsets(data: Bytes, index: nat): Result<Offsets> {
    if |data| < 2 then Err(InvalidEd25519Data)
    else
      :- Require(data[0] > 0 && index < data[0], InvalidEd25519Data);
      var start := 2 + index * ROW_SIZE;
      :- Require(|data| >= start + ROW_SIZE, InvalidEd25519Data);
      var row := data[start..][..ROW_SIZE];
      var offsets := Offsets(Word(row, 0), Word(row, 2), Word(row, 4), Word(row, 6), Word(row, 8), Word(row, 10),
                             Word(row, 12));
      :- Require(offsets.signatureIndex == SELF_CONTAINED && offsets.publicKeyIndex == SELF_CONTAINED
                 && offsets.messageIndex == SELF_CONTAINED, InvalidEd25519Data);
      Ok(offsets)
  }

  function ExtractPubkey(data: Bytes, o: Offsets): Result<PublicKey> {
    if |data| < o.publicKey + 32 then Err(InvalidEd25519Data)
    else
      Ok(data[o.publicKey..o.publicKey + 32])
  }

  function ExtractMessage(data: Bytes, o: Offsets): Result<Bytes> {
    if |data| < o.message + o.messageSize then Err(InvalidEd25519Data)
    else
      Ok(data[o.message..o.message + o.messageSize])
  }

  // ----- the round trip

  lemma RowRoundTrip(e: SignedMessage, cursor: nat)
    requires RowFits(e, cursor)
    ensures var row := Row(e, cursor);
            && Word(row, 0) == cursor + 32 && Word(row, 2) == SELF_CONTAINED
            && Word(row, 4) == cursor && Word(row, 6) == SELF_CONTAINED
            && Word(row, 8) == cursor + 96 && Word(row, 10) == |e.message| && Word(row, 12) == SELF_CONTAINED
  {
  }

  /** Parsing entry `i` of a built table is accepted and returns exactly signer `i` and message `i`. */
  lemma TableRoundTrip(data: Bytes, entries: seq<SignedMessage>, i: nat)
    requires 1 <= |entries| <= 255 && i < |entries| && IsTable(data, entries)
    ensures ParseOffsets(data, i).Ok?
    ensures ExtractPubkey(data, ParseOffsets(data, i).value) == Ok(entries[i].signer)
    ensures ExtractMessage(data, ParseOffsets(data, i).value) == Ok(entries[i].message)
    ensures var at := ParseOffsets(data, i).value.signature as int;
            at + 64 <= |data| && data[at..at + 64] == entries[i].signature
  {
    hide Row;
    var e, size := entries[i], TableSize(entries);
    var start := size + BlockStart(entries, i);
    NextBlock(entries, i);
    assert RowFits(e, start);
    RowRoundTrip(e, start);
    assert data[2 + i * ROW_SIZE..][..ROW_SIZE] == Row(e, start);
    BlockSlices(data, size, entries, i);
  }

  lemma BlockSlices(data: Bytes, size: nat, entries: seq<SignedMessage>, i: nat)
    requires i < |entries| && size <= |data| && data[size..] == Blocks(entries)
    ensures var e, start := entries[i], size + BlockStart(entries, i);
            && start + 96 + |e.message| <= |data|
            && data[start..start + 32] == e.signer
            && data[start + 32..start + 96] == e.signature
            && data[start + 96..start + 96 + |e.message|] == e.message
  {
    hide Blocks, BlockStart;
    NextBlock(entries, i);
    var e, from := entries[i], BlockStart(entries, i);
    var block := Block(e);
    assert block[..32] == e.signer && block[32..96] == e.signature && block[96..] == e.message;
    var start := size + from;
    SliceOfSuffix(data, size, from, |block|);
    SliceOfSlice(data, start, |block|, 0, 32);
    SliceOfSlice(data, start, |block|, 32, 96);
    SliceOfSlice(data, start, |block|, 96, |block|);
  }

  lemma SliceOfSuffix(data: Bytes, size: nat, from: nat, length: nat)
    requires size + from + length <= |data|
    ensures data[size + from..size + from + length] == data[size..][from..from + length]
  {
    var part, whole := data[size..][from..from + length], data[size + from..size + from + length];
    forall k | 0 <= k < length ensures part[k] == whole[k] {
      assert part[k] == data[size..][from + k] == data[size + from + k];
    }
  }

  lemma SliceOfSlice(data: Bytes, start: nat, length: nat, from: nat, to: nat)
    requires from <= to <= length && start + length <= |data|
    ensures data[start + from..start + to] == data[start..start + length][from..to]
  {
    var whole := data[start..start + length];
    assert forall k :: 0 <= k < to - from ==> whole[from..to][k] == whole[from + k] == data[start + from + k];
  }

  /** Each commitment in a built table comes back as the fields that were printed. */
  lemma SignedCommitmentsComeBack(data: Bytes, entries: seq<SignedMessage>, domain: Domain,
                                  commitments: seq<CommitmentFields>, i: nat)
    requires 1 <= |entries| == |commitments| <= 255 && i < |entries| && IsTable(data, entries)
    requires entries[i].message == PrintedCommitment(domain, commitments[i])
    ensures ParseOffsets(data, i).Ok?
    ensures ExtractMessage(data, ParseOffsets(data, i).value).Ok?
    ensures Parsed(ExtractMessage(data, ParseOffsets(data, i).value).value, domain) == Ok(commitments[i])
  {
    TableRoundTrip(data, entries, i);
    CommitmentRoundTrip(domain, commitments[i]);
  }

  /** An accepted row is within the announced count, refers to nothing outside the instruction, and
      holds little-endian words at fixed places. */
  lemma AcceptedRow(data: Bytes, index: nat)
    requires ParseOffsets(data, index).Ok?
    ensures var at, o := 2 + 14 * index, ParseOffsets(data, index).value;
            && |data| >= at + 14 && index < data[0]
            && o.signatureIndex == 0xffff && o.publicKeyIndex == 0xffff && o.messageIndex == 0xffff
            && o.signature == (data[at] as int) + 0x100 * (data[at + 1] as int)
            && o.publicKey == (data[at + 4] as int) + 0x100 * (data[at + 5] as int)
            && o.message == (data[at + 8] as int) + 0x100 * (data[at + 9] as int)
            && o.messageSize == (data[at + 10] as int) + 0x100 * (data[at + 11] as int)
  {
  }

  // ----- a message that all signers share

  datatype SharedMessage = SharedMessage(signers: seq<PublicKey>, message: Bytes)

  ghost predicate SignedBy(data: Bytes, index: nat, signer: PublicKey, message: Bytes) {
    && ParseOffsets(data, index).Ok?
    && ExtractPubkey(data, ParseOffsets(data, index).value) == Ok(signer)
    && ExtractMessage(data, ParseOffsets(data, index).value) == Ok(message)
  }

  /** The rows of the table are those of `signers`, in order, all over the same message. */
  ghost predicate AllSigned(data: Bytes, signers: seq<PublicKey>, message: Bytes) {
    && |data| >= 2 && |signers| == data[0] > 0
    && forall i :: 0 <= i < data[0] ==> SignedBy(data, i, signers[i], message)
  }

  /** `verify_and_extract_all_signatures`: every row carries the same message bytes, and every
      signer is returned. */
  method ExtractAllSigners(data: Bytes) returns (r: Result<SharedMessage>)
    ensures r.Ok? ==> AllSigned(data, r.value.signers, r.value.message)
    ensures r.Err? ==> forall signers: seq<PublicKey>, message: Bytes :: !AllSigned(data, signers, message)
  {
    hide ParseOffsets;
    :- Require(|data| >= 2, InvalidEd25519Data);
    :- Require(data[0] > 0, InvalidEd25519Data);
    assert forall ks: seq<PublicKey>, m: Bytes :: AllSigned(data, ks, m) ==> SignedBy(data, 0, ks[0], m);
    var firstOffsets :- ParseOffsets(data, 0);
    var shared :- ExtractMessage(data, firstOffsets);
    var first :- ExtractPubkey(data, firstOffsets);
    var signers: seq<PublicKey> := [first];
    var i := 1;
    while i < data[0]
      invariant 1 <= i <= data[0] == |signers| + data[0] - i
      invariant forall k :: 0 <= k < i ==> SignedBy(data, k, signers[k], shared)
    {
      assert forall ks: seq<PublicKey>, m: Bytes :: AllSigned(data, ks, m) ==>
          SignedBy(data, 0, ks[0], m) && SignedBy(data, i, ks[i], m);
      var offsets :- ParseOffsets(data, i);
      var candidate :- ExtractMessage(data, offsets);
      :- Require(candidate == shared, InvalidEd25519Data);
      var signer :- ExtractPubkey(data, offsets);
      signers := signers + [signer];
      i := i + 1;
    }
    return Ok(SharedMessage(signers, shared));
  }
}
