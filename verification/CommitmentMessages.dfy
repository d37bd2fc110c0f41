/** The signed message of one commitment. */
module CommitmentMessages {
  import opened Machine
  import opened Varint

  const COMMITMENT_MESSAGE_KIND: u8 := 0x01
  const COMMITMENT_MESSAGE_VERSION: u8 := 0x05
  const COMMITMENT_FIXED_HEADER_SIZE: nat := 19
  const COMMITMENT_MIN_MSG_SIZE: nat := 24

  type Domain = d: Bytes | |d| == 16 witness seq(16, _ => 0)
  type PublicKey = k: Bytes | |k| == 32 witness seq(32, _ => 0)

  datatype CommitmentFields = CommitmentFields(
    payer: u32,
    payee: u32,
    token: u16,
    committedAmount: u64,
    authorizedSettler: Option<PublicKey>)

  function LittleEndian16(x: u16): (b: Bytes)
    ensures |b| == 2
  {
    [x % 0x100, x / 0x100]
  }

  function FromLittleEndian16(low: u8, high: u8): u16 {
    low + 0x100 * high
  }

  // ----- printing

  function Header(domain: Domain, flags: u8): (b: Bytes)
    ensures |b| == COMMITMENT_FIXED_HEADER_SIZE
  {
    [COMMITMENT_MESSAGE_KIND, COMMITMENT_MESSAGE_VERSION] + domain + [flags]
  }

  function SettlerBytes(settler: Option<PublicKey>): Bytes {
    match settler
    case None => []
    case Some(key) => key
  }

  function PrintedCommitment(domain: Domain, c: CommitmentFields): Bytes {
    Header(domain, if c.authorizedSettler.Some? then 1 else 0)
    + Printed(c.payer) + Printed(c.payee) + LittleEndian16(c.token) + Printed(c.committedAmount)
    + SettlerBytes(c.authorizedSettler)
  }

  /** `createCommitmentMessage`, and with a settler the encoder of the program's own tests. */
  method CreateCommitmentMessage(domain: Domain, c: CommitmentFields) returns (out: Bytes)
    ensures out == PrintedCommitment(domain, c)
  {
    var payer := Encode(c.payer);
    var payee := Encode(c.payee);
    var amount := Encode(c.committedAmount);
    out := Header(domain, if c.authorizedSettler.Some? then 1 else 0) + payer + payee + LittleEndian16(c.token) + amount;
    if c.authorizedSettler.Some? {
      out := out + c.authorizedSettler.value;
    }
  }

  // ----- parsing

  /** What follows the two identifiers. */
  function ParsedTail(msg: Bytes, offset: nat, hasSettler: bool, payer: u32, payee: u32): Result<CommitmentFields> {
    if |msg| < offset + 2 then Err(InvalidCommitmentMessage)
    else
      var token := FromLittleEndian16(msg[offset], msg[offset + 1]);
      var (amount, next) :- ReadVarintU64(msg, offset + 2, InvalidCommitmentMessage);
      if hasSettler then
        :- Require(|msg| >= next + 32, InvalidCommitmentMessage);
        :- Require(next + 32 == |msg|, InvalidCommitmentMessage);
        Ok(CommitmentFields(payer, payee, token, amount, Some(msg[next..next + 32])))
      else
        :- Require(next == |msg|, InvalidCommitmentMessage);
        Ok(CommitmentFields(payer, payee, token, amount, None))
  }

  function Parsed(msg: Bytes, domain: Domain): Result<CommitmentFields> {
    if |msg| < COMMITMENT_MIN_MSG_SIZE then Err(InvalidCommitmentMessage)
    else
      :- Require(msg[0] == COMMITMENT_MESSAGE_KIND && msg[1] == COMMITMENT_MESSAGE_VERSION, InvalidCommitmentMessage);
      :- Require(msg[2..18] == domain, InvalidMessageDomain);
      :- Require(msg[18] <= 1, InvalidCommitmentMessage);
      var (payer, afterPayer) :- ReadVarintU32(msg, COMMITMENT_FIXED_HEADER_SIZE, InvalidCommitmentMessage);
      var (payee, afterPayee) :- ReadVarintU32(msg, afterPayer, InvalidCommitmentMessage);
      ParsedTail(msg, afterPayee, msg[18] == 1, payer, payee)
  }

  /** `parse_commitment_message`, with its moving offset. */
  method ParseCommitmentMessage(msg: Bytes, domain: Domain) returns (r: Result<CommitmentFields>)
    ensures r == Parsed(msg, domain)
  {
    hide ReadOn;
    :- Require(|msg| >= COMMITMENT_MIN_MSG_SIZE, InvalidCommitmentMessage);
    :- Require(msg[0] == COMMITMENT_MESSAGE_KIND && msg[1] == COMMITMENT_MESSAGE_VERSION, InvalidCommitmentMessage);
    :- Require(msg[2..18] == domain, InvalidMessageDomain);
    var flags := msg[18];
    :- Require(flags <= 1, InvalidCommitmentMessage);
    var offset := COMMITMENT_FIXED_HEADER_SIZE;
    var payer :- ReadVarint(msg, offset, InvalidCommitmentMessage);
    :- Require(payer.0 <= 0xffff_ffff, InvalidCommitmentMessage);
    offset := payer.1;
    var payee :- ReadVarint(msg, offset, InvalidCommitmentMessage);
    :- Require(payee.0 <= 0xffff_ffff, InvalidCommitmentMessage);
    offset := payee.1;
    :- Require(|msg| >= offset + 2, InvalidCommitmentMessage);
    var token := FromLittleEndian16(msg[offset], msg[offset + 1]);
    offset := offset + 2;
    var amount :- ReadVarint(msg, offset, InvalidCommitmentMessage);
    offset := amount.1;
    var settler := None;
    if flags == 1 {
      :- Require(|msg| >= offset + 32, InvalidCommitmentMessage);
      settler := Some(msg[offset..offset + 32]);
      offset := offset + 32;
    }
    :- Require(offset == |msg|, InvalidCommitmentMessage);
    return Ok(CommitmentFields(payer.0, payee.0, token, amount.0, settler));
  }

  // ----- the round trip

  lemma Token16RoundTrip(x: u16)
    ensures FromLittleEndian16(LittleEndian16(x)[0], LittleEndian16(x)[1]) == x
  {
  }

  lemma TailRoundTrip(before: Bytes, c: CommitmentFields)
    ensures ParsedTail(before + LittleEndian16(c.token) + Printed(c.committedAmount) + SettlerBytes(c.authorizedSettler),
                       |before|, c.authorizedSettler.Some?, c.payer, c.payee)
            == Ok(c)
  {
    hide ReadOn, Printed;
    var front, amount := before + LittleEndian16(c.token), Printed(c.committedAmount);
    var settler := SettlerBytes(c.authorizedSettler);
    var msg := front + amount + settler;
    Token16RoundTrip(c.token);
    assert msg[|before|] == LittleEndian16(c.token)[0] && msg[|before| + 1] == LittleEndian16(c.token)[1];
    ReadPrinted(front, c.committedAmount, settler, InvalidCommitmentMessage);
    var next := |front| + |amount|;
    assert |msg| == next + |settler| && msg[next..next + |settler|] == settler;
  }

  /** Every printed commitment parses back to its fields. */
  lemma CommitmentRoundTrip(domain: Domain, c: CommitmentFields)
    ensures Parsed(PrintedCommitment(domain, c), domain) == Ok(c)
  {
    hide ReadOn, Printed, ParsedTail;
    var header := Header(domain, if c.authorizedSettler.Some? then 1 else 0);
    var payer, payee, amount := Printed(c.payer), Printed(c.payee), Printed(c.committedAmount);
    var settler := SettlerBytes(c.authorizedSettler);
    var tail := LittleEndian16(c.token) + amount + settler;
    var msg := PrintedCommitment(domain, c);
    assert msg == header + payer + (payee + tail) == (header + payer) + payee + tail
               == (header + payer + payee) + LittleEndian16(c.token) + amount + settler;
    assert header[2..18] == domain;
    assert msg[0] == header[0] && msg[1] == header[1] && msg[2..18] == header[2..18] && msg[18] == header[18];
    ReadPrinted(header, c.payer, payee + tail, InvalidCommitmentMessage);
    ReadPrinted(header + payer, c.payee, tail, InvalidCommitmentMessage);
    TailRoundTrip(header + payer + payee, c);
  }

  // ----- what is refused

  /** An accepted message has the kind, the version and the domain of its program, no unknown flag,
      and a settler exactly when the flag says so. */
  lemma AcceptedCommitment(msg: Bytes, domain: Domain)
    requires Parsed(msg, domain).Ok?
    ensures |msg| >= 24 && msg[0] == 0x01 && msg[1] == 0x05 && msg[2..18] == domain
    ensures msg[18] == if Parsed(msg, domain).value.authorizedSettler.Some? then 1 else 0
  {
    hide ReadOn;
  }

  /** A message printed for another domain is refused, and for that reason. */
  lemma OtherDomainIsRefused(domain: Domain, other: Domain, c: CommitmentFields)
    requires domain != other
    ensures Parsed(PrintedCommitment(domain, c), other) == Err(InvalidMessageDomain)
  {
    hide ReadOn, Printed;
    var header := Header(domain, if c.authorizedSettler.Some? then 1 else 0);
    var rest := Printed(c.payer) + (Printed(c.payee) + LittleEndian16(c.token) + Printed(c.committedAmount)
                                    + SettlerBytes(c.authorizedSettler));
    var msg := PrintedCommitment(domain, c);
    assert msg == header + rest;
    assert header[2..18] == domain;
    assert msg[2..18] == header[2..18] && msg[0] == header[0] && msg[1] == header[1];
  }

  lemma TailEndsAt(msg: Bytes, tail: Bytes, offset: nat, hasSettler: bool, payer: u32, payee: u32)
    requires tail != [] && ParsedTail(msg, offset, hasSettler, payer, payee).Ok?
    ensures ParsedTail(msg + tail, offset, hasSettler, payer, payee) == Err(InvalidCommitmentMessage)
  {
    hide ReadOn;
    assert (msg + tail)[offset] == msg[offset] && (msg + tail)[offset + 1] == msg[offset + 1];
    TailIsIgnored(msg, tail, offset + 2, InvalidCommitmentMessage);
  }

  /** Accepted messages are prefix-free: an accepted one is refused with anything behind it, and no
      accepted one can be cut short. */
  lemma NothingMayFollow(msg: Bytes, tail: Bytes, domain: Domain)
    requires tail != [] && Parsed(msg, domain).Ok?
    ensures Parsed(msg + tail, domain) == Err(InvalidCommitmentMessage)
  {
    hide ReadOn, ParsedTail;
    var all := msg + tail;
    assert all[2..18] == msg[2..18] && all[0] == msg[0] && all[1] == msg[1] && all[18] == msg[18];
    TailIsIgnored(msg, tail, COMMITMENT_FIXED_HEADER_SIZE, InvalidCommitmentMessage);
    var (payer, afterPayer) := ReadVarintU32(msg, COMMITMENT_FIXED_HEADER_SIZE, InvalidCommitmentMessage).value;
    TailIsIgnored(msg, tail, afterPayer, InvalidCommitmentMessage);
    var (payee, afterPayee) := ReadVarintU32(msg, afterPayer, InvalidCommitmentMessage).value;
    TailEndsAt(msg, tail, afterPayee, msg[18] == 1, payer, payee);
  }
}
