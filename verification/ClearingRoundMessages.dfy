/** The message that the payers of a clearing round sign together. */
module ClearingRoundMessages {
  import opened Machine
  import opened Varint
  import opened CommitmentMessages
  import opened ClearingRound

  const CLEARING_ROUND_MESSAGE_KIND: u8 := 0x02
  const CLEARING_ROUND_FIXED_HEADER_SIZE: nat := 21

  // ----- printing

  function RoundHeader(domain: Domain, version: u8, token: u16, count: u8): (b: Bytes)
    ensures |b| == CLEARING_ROUND_FIXED_HEADER_SIZE
  {
    [CLEARING_ROUND_MESSAGE_KIND, version] + domain + LittleEndian16(token) + [count]
  }

  function PrintedEntry(e: ChannelEntry): (b: Bytes)
    ensures |b| > 0
  {
    [e.payeeRef] + Printed(e.targetCumulative)
  }

  function PrintedEntries(entries: seq<ChannelEntry>): Bytes {
    if entries == [] then [] else PrintedEntry(entries[0]) + PrintedEntries(entries[1..])
  }

  /** Counts are cut to one byte, as `length & 0xff` does. */
  function BlockHead(block: Block): Bytes {
    Printed(block.participant) + [|block.entries| % 0x100]
  }

  function PrintedBlocks(blocks: seq<Block>): Bytes {
    if blocks == [] then []
    else BlockHead(blocks[0]) + PrintedEntries(blocks[0].entries) + PrintedBlocks(blocks[1..])
  }

  function PrintedRound(domain: Domain, version: u8, token: u16, blocks: seq<Block>): Bytes {
    RoundHeader(domain, version, token, |blocks| % 0x100) + PrintedBlocks(blocks)
  }

  method EncodeBlock(block: Block) returns (part: Bytes)
    ensures part == BlockHead(block) + PrintedEntries(block.entries)
  {
    var entries := block.entries;
    part := Encode(block.participant);
    part := part + [|entries| % 0x100];
    var j := 0;
    assert entries[0..] == entries;
    while j < |entries|
      invariant 0 <= j <= |entries|
      invariant part + PrintedEntries(entries[j..]) == BlockHead(block) + PrintedEntries(entries)
    {
      assert entries[j..][0] == entries[j] && entries[j..][1..] == entries[j + 1..];
      var target := Encode(entries[j].targetCumulative);
      part := part + ([entries[j].payeeRef] + target);
      j := j + 1;
    }
  }

  /** `createClearingRoundMessage`. */
  method CreateClearingRoundMessage(domain: Domain, version: u8, token: u16, blocks: seq<Block>) returns (out: Bytes)
    ensures out == PrintedRound(domain, version, token, blocks)
  {
    hide BlockHead, PrintedEntries;
    var dynamicParts: Bytes := [];
    var i := 0;
    assert blocks[0..] == blocks;
    while i < |blocks|
      invariant 0 <= i <= |blocks|
      invariant dynamicParts + PrintedBlocks(blocks[i..]) == PrintedBlocks(blocks)
    {
      assert blocks[i..][0] == blocks[i] && blocks[i..][1..] == blocks[i + 1..];
      var part := EncodeBlock(blocks[i]);
      dynamicParts := dynamicParts + part;
      i := i + 1;
    }
    out := RoundHeader(domain, version, token, |blocks| % 0x100) + dynamicParts;
  }

  // ----- parsing

  /** What the layout keeps of a block: where its entries start, and how many there are. */
  datatype BlockMeta = BlockMeta(participant: u32, entryCount: u8, entriesOffset: nat)

  datatype Layout = Layout(token: u16, blocks: seq<BlockMeta>, channelCount: nat)

  function ReadEntry(msg: Bytes, offset: nat): (r: Result<(ChannelEntry, nat)>)
    requires offset <= |msg|
    ensures r.Ok? ==> offset < r.value.1 <= |msg|
  {
    if offset >= |msg| then Err(InvalidClearingRoundMessage)
    else
      var (target, next) :- ReadVarintU64(msg, offset + 1, InvalidClearingRoundMessage);
      Ok((ChannelEntry(msg[offset], target), next))
  }

  /** `count` entries in a row, and the offset behind them. */
  function ReadEntries(msg: Bytes, offset: nat, count: nat): (r: Result<(seq<ChannelEntry>, nat)>)
    requires offset <= |msg|
    ensures r.Ok? ==> offset <= r.value.1 <= |msg| && |r.value.0| == count
    decreases count
  {
    if count == 0 then Ok(([], offset))
    else
      var (entry, next) :- ReadEntry(msg, offset);
      var (rest, end) :- ReadEntries(msg, next, count - 1);
      Ok(([entry] + rest, end))
  }

  function ReadBlocks(msg: Bytes, offset: nat, count: nat): (r: Result<(seq<BlockMeta>, nat, nat)>)
    requires offset <= |msg|
    ensures r.Ok? ==> |r.value.0| == count && r.value.1 <= |msg|
    decreases count
  {
    if count == 0 then Ok(([], offset, 0))
    else
      var (participant, afterId) :- ReadVarintU32(msg, offset, InvalidClearingRoundMessage);
      :- Require(afterId < |msg|, InvalidClearingRoundMessage);
      var entryCount := msg[afterId];
      var (_, afterEntries) :- ReadEntries(msg, afterId + 1, entryCount);
      var (rest, end, channels) :- ReadBlocks(msg, afterEntries, count - 1);
      Ok(([BlockMeta(participant, entryCount, afterId + 1)] + rest, end, entryCount + channels))
  }

  function ParsedRound(msg: Bytes, domain: Domain, version: u8): Result<Layout> {
    if |msg| < CLEARING_ROUND_FIXED_HEADER_SIZE then Err(InvalidClearingRoundMessage)
    else
      :- Require(msg[0] == CLEARING_ROUND_MESSAGE_KIND && msg[1] == version, InvalidClearingRoundMessage);
      :- Require(msg[2..18] == domain, InvalidMessageDomain);
      :- Require(msg[20] > 0, InvalidClearingRoundMessage);
      var (blocks, end, channels) :- ReadBlocks(msg, CLEARING_ROUND_FIXED_HEADER_SIZE, msg[20]);
      :- Require(end == |msg|, InvalidClearingRoundMessage);
      Ok(Layout(FromLittleEndian16(msg[18], msg[19]), blocks, channels))
  }

  /** The second pass: the entries of every block, read again from its own offset. */
  function ReadAgain(msg: Bytes, metas: seq<BlockMeta>): Result<seq<Block>> {
    if metas == [] then Ok([])
    else
      :- Require(metas[0].entriesOffset <= |msg|, InvalidClearingRoundMessage);
      var (entries, _) :- ReadEntries(msg, metas[0].entriesOffset, metas[0].entryCount);
      var rest :- ReadAgain(msg, metas[1..]);
      Ok([Block(metas[0].participant, entries)] + rest)
  }

  // ----- the parser as it runs

  /** `parse_channel_entry`. */
  method ParseChannelEntry(msg: Bytes, offset: nat) returns (r: Result<(ChannelEntry, nat)>)
    requires offset <= |msg|
    ensures r == ReadEntry(msg, offset)
  {
    hide ReadOn;
    :- Require(offset < |msg|, InvalidClearingRoundMessage);
    var payeeRef := msg[offset];
    var target :- ReadVarint(msg, offset + 1, InvalidClearingRoundMessage);
    return Ok((ChannelEntry(payeeRef, target.0), target.1));
  }

  /** The inner loop: entries are parsed for their length only. */
  method SkipEntries(msg: Bytes, start: nat, count: u8) returns (r: Result<nat>)
    requires start <= |msg|
    ensures r.Ok? ==> ReadEntries(msg, start, count).Ok? && r.value == ReadEntries(msg, start, count).value.1
    ensures r.Err? ==> ReadEntries(msg, start, count) == Err(r.error)
  {
    hide ReadEntry;
    var offset: nat := start;
    var k := 0;
    while k < count
      invariant 0 <= k <= count && start <= offset <= |msg|
      invariant ReadEntries(msg, offset, count - k).Err? ==>
                  ReadEntries(msg, start, count) == ReadEntries(msg, offset, count - k)
      invariant ReadEntries(msg, offset, count - k).Ok? ==>
                  ReadEntries(msg, start, count).Ok?
                  && ReadEntries(msg, start, count).value.1 == ReadEntries(msg, offset, count - k).value.1
    {
      var entry :- ParseChannelEntry(msg, offset);
      offset := entry.1;
      k := k + 1;
    }
    return Ok(offset);
  }

  /** A read of some blocks and then of others. */
  function Joined(first: seq<BlockMeta>, channels: nat, rest: Result<(seq<BlockMeta>, nat, nat)>)
    : Result<(seq<BlockMeta>, nat, nat)>
  {
    var (metas, end, more) :- rest;
    Ok((first + metas, end, channels + more))
  }

  lemma JoinedNext(msg: Bytes, first: seq<BlockMeta>, channels: nat, offset: nat, count: nat, meta: BlockMeta, next: nat)
    requires offset <= |msg| && count > 0
    requires ReadVarintU32(msg, offset, InvalidClearingRoundMessage).Ok?
    requires var (id, afterId) := ReadVarintU32(msg, offset, InvalidClearingRoundMessage).value;
             && afterId < |msg| && meta == BlockMeta(id, msg[afterId], afterId + 1)
             && ReadEntries(msg, afterId + 1, msg[afterId]).Ok?
             && next == ReadEntries(msg, afterId + 1, msg[afterId]).value.1
    ensures Joined(first, channels, ReadBlocks(msg, offset, count))
            == Joined(first + [meta], channels + meta.entryCount, ReadBlocks(msg, next, count - 1))
  {
    hide ReadEntries, ReadVarintU32;
    var rest := ReadBlocks(msg, next, count - 1);
    if rest.Ok? {
      assert first + ([meta] + rest.value.0) == (first + [meta]) + rest.value.0;
    }
  }

  lemma JoinedNone(msg: Bytes, first: seq<BlockMeta>, channels: nat, offset: nat)
    requires offset <= |msg|
    ensures Joined(first, channels, ReadBlocks(msg, offset, 0)) == Ok((first, offset, channels))
  {
    assert first + [] == first;
  }

  method ParseBlocks(msg: Bytes, start: nat, count: u8) returns (r: Result<(seq<BlockMeta>, nat, nat)>)
    requires start <= |msg|
    ensures r == ReadBlocks(msg, start, count)
  {
    hide ReadEntries, ReadOn;
    var offset: nat, channels: nat := start, 0;
    var blocks: seq<BlockMeta> := [];
    var k := 0;
    assert forall metas: seq<BlockMeta> :: [] + metas == metas;
    while k < count
      invariant 0 <= k <= count && offset <= |msg|
      invariant ReadBlocks(msg, start, count) == Joined(blocks, channels, ReadBlocks(msg, offset, count - k))
    {
      var id :- ReadVarint(msg, offset, InvalidClearingRoundMessage);
      :- Require(id.0 <= 0xffff_ffff, InvalidClearingRoundMessage);
      :- Require(id.1 < |msg|, InvalidClearingRoundMessage);
      var entryCount := msg[id.1];
      var entriesOffset := id.1 + 1;
      var next :- SkipEntries(msg, entriesOffset, entryCount);
      var meta := BlockMeta(id.0, entryCount, entriesOffset);
      JoinedNext(msg, blocks, channels, offset, count - k, meta, next);
      blocks, channels, offset := blocks + [meta], channels + entryCount, next;
      k := k + 1;
    }
    JoinedNone(msg, blocks, channels, offset);
    return Ok((blocks, offset, channels));
  }

  /** `parse_clearing_round_layout_with_version`. */
  method ParseClearingRoundLayout(msg: Bytes, domain: Domain, version: u8) returns (r: Result<Layout>)
    ensures r == ParsedRound(msg, domain, version)
  {
    hide ReadBlocks;
    :- Require(|msg| >= CLEARING_ROUND_FIXED_HEADER_SIZE, InvalidClearingRoundMessage);
    :- Require(msg[0] == CLEARING_ROUND_MESSAGE_KIND && msg[1] == version, InvalidClearingRoundMessage);
    :- Require(msg[2..18] == domain, InvalidMessageDomain);
    var participantCount := msg[20];
    :- Require(participantCount > 0, InvalidClearingRoundMessage);
    var read :- ParseBlocks(msg, CLEARING_ROUND_FIXED_HEADER_SIZE, participantCount);
    :- Require(read.1 == |msg|, InvalidClearingRoundMessage);
    return Ok(Layout(FromLittleEndian16(msg[18], msg[19]), read.0, read.2));
  }

  // ----- any message that the layout accepts

  lemma {:induction false} BlocksReadAgain(msg: Bytes, offset: nat, count: nat)
    requires offset <= |msg| && ReadBlocks(msg, offset, count).Ok?
    ensures var metas := ReadBlocks(msg, offset, count).value.0;
            && ReadAgain(msg, metas).Ok? && |ReadAgain(msg, metas).value| == count
            && forall i :: 0 <= i < count ==>
                 && ReadAgain(msg, metas).value[i].participant == metas[i].participant
                 && |ReadAgain(msg, metas).value[i].entries| == metas[i].entryCount
    decreases count
  {
    hide ReadVarintU32, ReadEntries;
    if count > 0 {
      var (participant, afterId) := ReadVarintU32(msg, offset, InvalidClearingRoundMessage).value;
      var next := ReadEntries(msg, afterId + 1, msg[afterId]).value.1;
      BlocksReadAgain(msg, next, count - 1);
      var metas := ReadBlocks(msg, offset, count).value.0;
      assert metas[1..] == ReadBlocks(msg, next, count - 1).value.0;
    }
  }

  /** Whatever message the first pass accepts, the second pass never fails on it and finds every
      participant again, with as many entries as the first pass counted. */
  lemma SecondPassNeverFails(msg: Bytes, domain: Domain, version: u8)
    requires ParsedRound(msg, domain, version).Ok?
    ensures var layout := ParsedRound(msg, domain, version).value;
            && ReadAgain(msg, layout.blocks).Ok?
            && |ReadAgain(msg, layout.blocks).value| == |layout.blocks|
            && forall i :: 0 <= i < |layout.blocks| ==>
                 && ReadAgain(msg, layout.blocks).value[i].participant == layout.blocks[i].participant
                 && |ReadAgain(msg, layout.blocks).value[i].entries| == layout.blocks[i].entryCount
  {
    hide ReadBlocks, ReadAgain;
    BlocksReadAgain(msg, CLEARING_ROUND_FIXED_HEADER_SIZE, msg[20]);
  }

  // ----- the round trip

  lemma EntryRoundTrip(before: Bytes, e: ChannelEntry, after: Bytes)
    ensures ReadEntry(before + PrintedEntry(e) + after, |before|) == Ok((e, |before| + |PrintedEntry(e)|))
  {
    hide ReadOn, Printed;
    var msg := before + PrintedEntry(e) + after;
    assert msg == (before + [e.payeeRef]) + Printed(e.targetCumulative) + after;
    ReadPrinted(before + [e.payeeRef], e.targetCumulative, after, InvalidClearingRoundMessage);
  }

  lemma ReadEntriesStep(msg: Bytes, offset: nat, entry: ChannelEntry, next: nat, rest: seq<ChannelEntry>, end: nat)
    requires offset <= |msg| && ReadEntry(msg, offset) == Ok((entry, next))
    requires next <= |msg| && ReadEntries(msg, next, |rest|) == Ok((rest, end))
    ensures ReadEntries(msg, offset, |rest| + 1) == Ok(([entry] + rest, end))
  {
    hide ReadEntry;
  }

  lemma PrintedEntriesStep(before: Bytes, entries: seq<ChannelEntry>, after: Bytes)
    requires entries != []
    ensures var first, rest := PrintedEntry(entries[0]), PrintedEntries(entries[1..]);
            && PrintedEntries(entries) == first + rest
            && before + PrintedEntries(entries) + after == before + first + (rest + after)
               == (before + first) + rest + after
  {
    hide PrintedEntry;
  }

  lemma {:induction false} EntriesRoundTrip(before: Bytes, entries: seq<ChannelEntry>, after: Bytes)
    ensures ReadEntries(before + PrintedEntries(entries) + after, |before|, |entries|)
            == Ok((entries, |before| + |PrintedEntries(entries)|))
    decreases |entries|
  {
    hide ReadEntry, PrintedEntry;
    if entries != [] {
      hide ReadEntries, PrintedEntries;
      var e, rest := entries[0], entries[1..];
      var first := PrintedEntry(e);
      var msg := before + PrintedEntries(entries) + after;
      PrintedEntriesStep(before, entries, after);
      EntryRoundTrip(before, e, PrintedEntries(rest) + after);
      EntriesRoundTrip(before + first, rest, after);
      assert [e] + rest == entries;
      ReadEntriesStep(msg, |before|, e, |before + first|, rest, |before| + |PrintedEntries(entries)|);
    }
  }

  /** One to 255 blocks of up to 255 entries each. */
  ghost predicate Printable(blocks: seq<Block>) {
    forall block :: block in blocks ==> |block.entries| <= 255
  }

  ghost function Channels(blocks: seq<Block>): nat {
    if blocks == [] then 0 else |blocks[0].entries| + Channels(blocks[1..])
  }

  lemma BlockRoundTrip(before: Bytes, block: Block, after: Bytes)
    requires |block.entries| <= 255
    ensures var msg := before + (BlockHead(block) + PrintedEntries(block.entries)) + after;
            var afterId := |before| + |Printed(block.participant)|;
            && ReadVarintU32(msg, |before|, InvalidClearingRoundMessage) == Ok((block.participant, afterId))
            && afterId < |msg| && msg[afterId] == |block.entries|
            && ReadEntries(msg, afterId + 1, |block.entries|)
               == Ok((block.entries, |before| + |BlockHead(block) + PrintedEntries(block.entries)|))
  {
    hide ReadOn, Printed, ReadEntries, PrintedEntries;
    var id, entries := Printed(block.participant), PrintedEntries(block.entries);
    var msg := before + (BlockHead(block) + entries) + after;
    assert msg == before + id + ([|block.entries|] + entries + after);
    ReadPrinted(before, block.participant, [|block.entries|] + entries + after, InvalidClearingRoundMessage);
    assert msg == (before + id + [|block.entries|]) + entries + after;
    EntriesRoundTrip(before + id + [|block.entries|], block.entries, after);
  }

  ghost predicate BlocksRecovered(msg: Bytes, offset: nat, blocks: seq<Block>) {
    && offset <= |msg|
    && ReadBlocks(msg, offset, |blocks|).Ok?
    && var (metas, end, channels) := ReadBlocks(msg, offset, |blocks|).value;
    && end == |msg| && channels == Channels(blocks)
    && ReadAgain(msg, metas) == Ok(blocks)
  }

  lemma BlocksRecoveredStep(msg: Bytes, offset: nat, block: Block, rest: seq<Block>, afterId: nat, next: nat)
    requires offset <= |msg| && afterId < |msg| && |block.entries| <= 255
    requires ReadVarintU32(msg, offset, InvalidClearingRoundMessage) == Ok((block.participant, afterId))
    requires msg[afterId] == |block.entries|
    requires ReadEntries(msg, afterId + 1, |block.entries|) == Ok((block.entries, next))
    requires BlocksRecovered(msg, next, rest)
    ensures BlocksRecovered(msg, offset, [block] + rest)
  {
    hide ReadVarintU32, ReadEntries;
    var (metas, end, channels) := ReadBlocks(msg, next, |rest|).value;
    var meta := BlockMeta(block.participant, |block.entries|, afterId + 1);
    assert ReadBlocks(msg, offset, |rest| + 1) == Ok(([meta] + metas, end, |block.entries| + channels));
    assert ([meta] + metas)[1..] == metas;
    assert ([block] + rest)[1..] == rest;
  }

  lemma {:induction false} BlocksRoundTrip(before: Bytes, blocks: seq<Block>)
    requires Printable(blocks)
    ensures BlocksRecovered(before + PrintedBlocks(blocks), |before|, blocks)
    decreases |blocks|
  {
    hide ReadVarintU32, ReadEntries, BlockHead, PrintedEntries;
    var msg := before + PrintedBlocks(blocks);
    if blocks != [] {
      var block, rest := blocks[0], blocks[1..];
      assert blocks == [block] + rest;
      var head := BlockHead(block) + PrintedEntries(block.entries);
      assert msg == before + head + PrintedBlocks(rest);
      BlockRoundTrip(before, block, PrintedBlocks(rest));
      BlocksRoundTrip(before + head, rest);
      hide BlocksRecovered;
      BlocksRecoveredStep(msg, |before|, block, rest, |before| + |Printed(block.participant)|, |before + head|);
    }
  }

  /** Printing and parsing a round undo each other: the parser consumes exactly the whole message,
      and the second pass recovers every block with its entries. */
  lemma ClearingRoundRoundTrip(domain: Domain, version: u8, token: u16, blocks: seq<Block>)
    requires 1 <= |blocks| <= 255 && Printable(blocks)
    ensures var msg := PrintedRound(domain, version, token, blocks);
            && ParsedRound(msg, domain, version).Ok?
            && var layout := ParsedRound(msg, domain, version).value;
            && layout.token == token && layout.channelCount == Channels(blocks) && |layout.blocks| == |blocks|
            && ReadAgain(msg, layout.blocks) == Ok(blocks)
  {
    hide ReadBlocks, ReadAgain, PrintedBlocks;
    var header := RoundHeader(domain, version, token, |blocks|);
    var msg := PrintedRound(domain, version, token, blocks);
    BlocksRoundTrip(header, blocks);
    Token16RoundTrip(token);
    assert header[2..18] == domain && header[18] == LittleEndian16(token)[0] && header[19] == LittleEndian16(token)[1];
    assert msg[..21] == header;
    assert msg[2..18] == header[2..18];
    assert forall i :: 0 <= i < 21 ==> msg[i] == header[i];
  }

  /** A multiple of 256 blocks, none at all included, prints a count of zero and is refused. */
  lemma FullCountIsRefused(domain: Domain, version: u8, token: u16, blocks: seq<Block>)
    requires |blocks| % 0x100 == 0
    ensures ParsedRound(PrintedRound(domain, version, token, blocks), domain, version) == Err(InvalidClearingRoundMessage)
  {
    var header, msg := RoundHeader(domain, version, token, 0), PrintedRound(domain, version, token, blocks);
    assert header[2..18] == domain;
    assert msg[2..18] == header[2..18] && msg[0] == header[0] && msg[1] == header[1] && msg[20] == header[20];
  }

  // ----- what is refused

  /** An accepted message has the kind, version and domain it is read for, and announces as many blocks
      as it has. */
  lemma AcceptedRound(msg: Bytes, domain: Domain, version: u8)
    requires ParsedRound(msg, domain, version).Ok?
    ensures |msg| >= 21 && msg[0] == 0x02 && msg[1] == version && msg[2..18] == domain
    ensures 0 < msg[20] == |ParsedRound(msg, domain, version).value.blocks|
    ensures ParsedRound(msg, domain, version).value.token == (msg[18] as int) + 0x100 * (msg[19] as int)
  {
    hide ReadBlocks;
  }

  /** A message printed for another domain is refused, and for that reason. */
  lemma RoundOfOtherDomainIsRefused(domain: Domain, other: Domain, version: u8, token: u16, blocks: seq<Block>)
    requires domain != other
    ensures ParsedRound(PrintedRound(domain, version, token, blocks), other, version) == Err(InvalidMessageDomain)
  {
    hide ReadBlocks, PrintedBlocks;
    var header, msg := RoundHeader(domain, version, token, |blocks| % 0x100), PrintedRound(domain, version, token, blocks);
    assert msg[..21] == header && header[2..18] == domain;
    assert msg[2..18] == header[2..18] && msg[0] == header[0] && msg[1] == header[1];
  }

  /** No message is both a commitment and a round, for whatever domains and versions. */
  lemma KindsNeverMix(msg: Bytes, domain: Domain, other: Domain, version: u8)
    ensures Parsed(msg, domain).Err? || ParsedRound(msg, other, version).Err?
  {
    if Parsed(msg, domain).Ok? && ParsedRound(msg, other, version).Ok? {
      AcceptedCommitment(msg, domain);
      AcceptedRound(msg, other, version);
    }
  }

  lemma {:induction false} EntriesIgnoreTail(msg: Bytes, tail: Bytes, offset: nat, count: nat)
    requires offset <= |msg| && ReadEntries(msg, offset, count).Ok?
    ensures ReadEntries(msg + tail, offset, count) == ReadEntries(msg, offset, count)
    decreases count
  {
    hide ReadOn;
    if count > 0 {
      assert (msg + tail)[offset] == msg[offset];
      TailIsIgnored(msg, tail, offset + 1, InvalidClearingRoundMessage);
      EntriesIgnoreTail(msg, tail, ReadEntry(msg, offset).value.1, count - 1);
    }
  }

  /** Messages that read alike for one block, and alike after it, read alike. */
  lemma ReadAlike(msg: Bytes, other: Bytes, offset: nat, count: nat)
    requires count > 0 && offset <= |msg| <= |other| && ReadBlocks(msg, offset, count).Ok?
    requires ReadVarintU32(other, offset, InvalidClearingRoundMessage) == ReadVarintU32(msg, offset, InvalidClearingRoundMessage)
    requires var afterId := ReadVarintU32(msg, offset, InvalidClearingRoundMessage).value.1;
             && other[afterId] == msg[afterId]
             && ReadEntries(other, afterId + 1, msg[afterId]) == ReadEntries(msg, afterId + 1, msg[afterId])
             && var next := ReadEntries(msg, afterId + 1, msg[afterId]).value.1;
             && ReadBlocks(other, next, count - 1) == ReadBlocks(msg, next, count - 1)
    ensures ReadBlocks(other, offset, count) == ReadBlocks(msg, offset, count)
  {
    hide ReadVarintU32, ReadEntries;
  }

  /** How a read of blocks begins. */
  lemma FirstBlockRead(msg: Bytes, offset: nat, count: nat)
    requires count > 0 && offset <= |msg| && ReadBlocks(msg, offset, count).Ok?
    ensures ReadVarintU32(msg, offset, InvalidClearingRoundMessage).Ok?
    ensures var afterId := ReadVarintU32(msg, offset, InvalidClearingRoundMessage).value.1;
            && afterId < |msg| && ReadEntries(msg, afterId + 1, msg[afterId]).Ok?
            && ReadBlocks(msg, ReadEntries(msg, afterId + 1, msg[afterId]).value.1, count - 1).Ok?
  {
    hide ReadVarintU32, ReadEntries;
  }

  lemma {:induction false} BlocksIgnoreTail(msg: Bytes, tail: Bytes, offset: nat, count: nat)
    requires offset <= |msg| && ReadBlocks(msg, offset, count).Ok?
    ensures ReadBlocks(msg + tail, offset, count) == ReadBlocks(msg, offset, count)
    decreases count
  {
    hide ReadVarintU32, ReadEntries;
    if count > 0 {
      FirstBlockRead(msg, offset, count);
      var afterId := ReadVarintU32(msg, offset, InvalidClearingRoundMessage).value.1;
      var next := ReadEntries(msg, afterId + 1, msg[afterId]).value.1;
      hide ReadBlocks;
      TailIsIgnored(msg, tail, offset, InvalidClearingRoundMessage);
      assert (msg + tail)[afterId] == msg[afterId];
      EntriesIgnoreTail(msg, tail, afterId + 1, msg[afterId]);
      BlocksIgnoreTail(msg, tail, next, count - 1);
      ReadAlike(msg, msg + tail, offset, count);
    }
  }

  /** Accepted round messages are prefix-free as well. */
  lemma NothingMayFollowRound(msg: Bytes, tail: Bytes, domain: Domain, version: u8)
    requires tail != [] && ParsedRound(msg, domain, version).Ok?
    ensures ParsedRound(msg + tail, domain, version) == Err(InvalidClearingRoundMessage)
  {
    hide ReadBlocks;
    var all := msg + tail;
    assert all[2..18] == msg[2..18] && all[0] == msg[0] && all[1] == msg[1] && all[20] == msg[20];
    BlocksIgnoreTail(msg, tail, CLEARING_ROUND_FIXED_HEADER_SIZE, msg[20]);
  }
}
