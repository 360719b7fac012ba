/** Message headers, protocol headers, acknowledgements and status reports. */
module Messages {
  import opened Bytes
  import opened Buffers

  const PROTOCOL_SECURE_CHANNEL: uint16 := 0
  const PROTOCOL_INTERACTION: uint16 := 1
  const OPCODE_ACK: byte := 0x10
  const OPCODE_STATUS_REPORT: byte := 0x40

  // ----- message headers

  datatype Header = Header(
    flags: byte,
    sessionId: uint16,
    securityFlags: byte,
    messageCounter: uint32,
    sourceNodeId: seq<byte>,
    destinationNodeId: seq<byte>)

  const NO_HEADER: Header := Header(0, 0, 0, 0, [], [])

  /** Bit 2 announces a source node id; the low bits announce the size of the destination. */
  function CalcMessageFlags(h: Header): byte {
    (if |h.sourceNodeId| == 8 then 4 else 0)
    + (if |h.destinationNodeId| == 2 then 2 else if |h.destinationNodeId| == 8 then 1 else 0)
  }

  function EncodeHeader(h: Header): seq<byte> {
    [CalcMessageFlags(h)] + LittleEndian(h.sessionId, 2) + [h.securityFlags] + LittleEndian(h.messageCounter, 4)
    + (if |h.sourceNodeId| == 8 then h.sourceNodeId else []) + h.destinationNodeId
  }

  /** A header as far as it was read, what is left of the input, and whether no read reported an error. */
  datatype HeaderRead = HeaderRead(h: Header, rest: seq<byte>, ok: bool)

  function DecodeHeader(h: Header, s: seq<byte>): HeaderRead {
    if |s| == 0 then HeaderRead(h.(flags := 0), s, false)
    else
      var h1 := h.(flags := s[0], sessionId := Read16(s[1..], h.sessionId));
      var s1 := Remaining(s[1..], 2);
      if |s1| == 0 then HeaderRead(h1.(securityFlags := 0), s1, false)
      else
        DecodeSource(h1.(securityFlags := s1[0], messageCounter := Read32(s1[1..], h1.messageCounter)),
                     Remaining(s1[1..], 4))
  }

  function DecodeSource(h: Header, s: seq<byte>): HeaderRead {
    if h.flags / 4 % 2 == 0 then DecodeDestination(h, s)
    else if |s| == 0 then HeaderRead(h.(sourceNodeId := Zeros(8)), s, false)
    else DecodeDestination(h.(sourceNodeId := Filled(s, 8)), Remaining(s, 8))
  }

  function DestinationSize(flags: byte): nat {
    match flags % 4 case 1 => 8 case 2 => 2 case _ => 0
  }

  function DecodeDestination(h: Header, s: seq<byte>): HeaderRead {
    var size := DestinationSize(h.flags);
    if size == 0 then HeaderRead(h, s, true)
    else if |s| == 0 then HeaderRead(h.(destinationNodeId := Zeros(size)), s, false)
    else HeaderRead(h.(destinationNodeId := Filled(s, size)), Remaining(s, size), true)
  }

  predicate Addressable(h: Header) {
    |h.sourceNodeId| in {0, 8} && |h.destinationNodeId| in {0, 2, 8}
  }

  lemma NodesRoundTrip(h: Header, rest: seq<byte>)
    requires Addressable(h) && h.flags == CalcMessageFlags(h)
    ensures DecodeSource(h.(sourceNodeId := [], destinationNodeId := []), h.sourceNodeId + (h.destinationNodeId + rest))
         == HeaderRead(h, rest, true)
  {
    var d := h.destinationNodeId + rest;
    ReadComplete(h.sourceNodeId, d, 0);
    ReadComplete(h.destinationNodeId, rest, 0);
    assert h.sourceNodeId == [] ==> h.sourceNodeId + d == d;
    assert h.destinationNodeId == [] ==> d == rest;
    assert DestinationSize(h.flags) == |h.destinationNodeId|;
  }

  /** The fixed part of a header, in front of the node ids. */
  lemma FixedPartReads(h: Header, flags: byte, nodes: seq<byte>)
    ensures var tail := [h.securityFlags] + (LittleEndian(h.messageCounter, 4) + nodes);
            DecodeHeader(NO_HEADER, [flags] + (LittleEndian(h.sessionId, 2) + tail)) ==
            DecodeSource(h.(flags := flags, sourceNodeId := [], destinationNodeId := []), nodes)
  {
    var session, counter := LittleEndian(h.sessionId, 2), LittleEndian(h.messageCounter, 4);
    var s1 := [h.securityFlags] + (counter + nodes);
    var s := [flags] + (session + s1);
    assert s[1..] == session + s1 && s1[1..] == counter + nodes;
    Pow256Values();
    LittleEndianRoundTrip(h.sessionId, 2);
    LittleEndianRoundTrip(h.messageCounter, 4);
    ReadComplete(session, s1, 0);
    ReadComplete(counter, nodes, 0);
  }

  lemma HeaderRoundTrip(h: Header, rest: seq<byte>)
    requires Addressable(h)
    ensures DecodeHeader(NO_HEADER, EncodeHeader(h) + rest)
         == HeaderRead(h.(flags := CalcMessageFlags(h)), rest, true)
  {
    var flags := CalcMessageFlags(h);
    var nodes := h.sourceNodeId + (h.destinationNodeId + rest);
    FixedPartReads(h, flags, nodes);
    NodesRoundTrip(h.(flags := flags), rest);
    Regroup([flags], LittleEndian(h.sessionId, 2), [h.securityFlags], LittleEndian(h.messageCounter, 4),
            h.sourceNodeId, h.destinationNodeId, rest);
  }

  /** The bytes of a header, one field after the other. */
  lemma HeaderBytes(h: Header)
    requires Addressable(h)
    ensures var s, n := EncodeHeader(h), |h.sourceNodeId|;
            && |s| == 8 + n + |h.destinationNodeId|
            && s[0] == (if n == 8 then 4 else 0) + (match |h.destinationNodeId| case 2 => 2 case 8 => 1 case _ => 0)
            && FromLittleEndian(s[1..3]) == h.sessionId && s[3] == h.securityFlags
            && FromLittleEndian(s[4..8]) == h.messageCounter
            && s[8..8 + n] == h.sourceNodeId && s[8 + n..] == h.destinationNodeId
  {
    var s, session, counter := EncodeHeader(h), LittleEndian(h.sessionId, 2), LittleEndian(h.messageCounter, 4);
    assert s[1..3] == session && s[4..8] == counter;
    Pow256Values();
    LittleEndianRoundTrip(h.sessionId, 2);
    LittleEndianRoundTrip(h.messageCounter, 4);
  }

  /** How many bytes the node ids take that a first byte announces. */
  function SourceBytes(flags: byte): nat {
    if flags / 4 % 2 == 1 then 8 else 0
  }

  function DestinationBytes(flags: byte): nat {
    if flags % 4 == 1 then 8 else if flags % 4 == 2 then 2 else 0
  }

  /** What a header is read as, from any bytes that are enough for it. */
  lemma HeaderFields(s: seq<byte>)
    requires |s| > 0 && |s| >= 8 + SourceBytes(s[0]) + DestinationBytes(s[0])
    ensures FromLittleEndian(s[1..3]) < TWO_TO_THE_16 && FromLittleEndian(s[4..8]) < TWO_TO_THE_32
    ensures var n := 8 + SourceBytes(s[0]);
            var m := n + DestinationBytes(s[0]);
            DecodeHeader(NO_HEADER, s) ==
            HeaderRead(Header(s[0], FromLittleEndian(s[1..3]), s[3], FromLittleEndian(s[4..8]), s[8..n], s[n..m]),
                       s[m..], true)
  {
    var s1 := Remaining(s[1..], 2);
    assert s[1..][..2] == s[1..3] && s1 == s[3..] && s1[1..][..4] == s[4..8] && Remaining(s1[1..], 4) == s[8..];
    LittleEndianBytes(s[1..3]);
    LittleEndianBytes(s[4..8]);
    Pow256Values();
    var h := Header(s[0], FromLittleEndian(s[1..3]), s[3], FromLittleEndian(s[4..8]), [], []);
    assert DecodeHeader(NO_HEADER, s) == DecodeSource(h, s[8..]);
    NodesRead(h, s);
  }

  lemma NodesRead(h: Header, s: seq<byte>)
    requires h.sourceNodeId == h.destinationNodeId == []
    requires |s| >= 8 + SourceBytes(h.flags) + DestinationBytes(h.flags)
    ensures var n := 8 + SourceBytes(h.flags);
            var m := n + DestinationBytes(h.flags);
            DecodeSource(h, s[8..])
                == HeaderRead(h.(sourceNodeId := s[8..n], destinationNodeId := s[n..m]), s[m..], true)
  {
    var n := 8 + SourceBytes(h.flags);
    var m := n + DestinationBytes(h.flags);
    assert s[8..][..n - 8] == s[8..n] && s[8..][n - 8..] == s[n..];
    assert s[n..][..m - n] == s[n..m] && s[n..][m - n..] == s[m..];
  }

  /** Of a header that is cut off in front of the node ids, the fields that are not complete are zero. */
  lemma ShortHeaderFields(s: seq<byte>)
    requires |s| < 8
    ensures var r := DecodeHeader(NO_HEADER, s);
            && r.rest == [] && (|s| < 4 ==> !r.ok)
            && r.h.flags == (if |s| > 0 then s[0] else 0)
            && r.h.sessionId == (if |s| >= 3 then FromLittleEndian(s[1..3]) else 0)
            && r.h.securityFlags == (if |s| >= 4 then s[3] else 0) && r.h.messageCounter == 0
  {
    if |s| >= 3 {
      assert s[1..][..2] == s[1..3] && s[1..][2..] == s[3..];
    }
  }

  lemma DecodedNodeSizes(h: Header, s: seq<byte>)
    requires Addressable(h)
    ensures Addressable(DecodeHeader(h, s).h)
  {
  }

  /** A header can be read back exactly when its node ids have sizes that the flags can announce. */
  lemma HeaderRoundTripIff(h: Header, rest: seq<byte>)
    ensures DecodeHeader(NO_HEADER, EncodeHeader(h) + rest) == HeaderRead(h.(flags := CalcMessageFlags(h)), rest, true)
       <==> Addressable(h)
  {
    if Addressable(h) {
      HeaderRoundTrip(h, rest);
    } else {
      DecodedNodeSizes(NO_HEADER, EncodeHeader(h) + rest);
    }
  }

  /** A node id of seven bytes is left out or, as a destination, not announced. */
  lemma OddNodeLost(h: Header, rest: seq<byte>)
    requires |h.sourceNodeId| == 7 || |h.destinationNodeId| == 7
    ensures DecodeHeader(NO_HEADER, EncodeHeader(h) + rest) != HeaderRead(h.(flags := CalcMessageFlags(h)), rest, true)
  {
    HeaderRoundTripIff(h, rest);
  }

  class MessageHeader {
    var flags: byte
    var sessionId: uint16
    var securityFlags: byte
    var messageCounter: uint32
    var sourceNodeId: seq<byte>
    var destinationNodeId: seq<byte>

    constructor (h: Header)
      ensures Value() == h
    {
      flags, sessionId, securityFlags := h.flags, h.sessionId, h.securityFlags;
      messageCounter, sourceNodeId, destinationNodeId := h.messageCounter, h.sourceNodeId, h.destinationNodeId;
    }

    function Value(): Header
      reads this
    {
      Header(flags, sessionId, securityFlags, messageCounter, sourceNodeId, destinationNodeId)
    }

    method Encode(data: Buffer)
      modifies data
      ensures data.unread == old(data.unread) + EncodeHeader(Value())
    {
      data.WriteByte(CalcMessageFlags(Value()));
      data.Write(LittleEndian(sessionId, 2));
      data.WriteByte(securityFlags);
      data.Write(LittleEndian(messageCounter, 4));
      if |sourceNodeId| == 8 {
        data.Write(sourceNodeId);
      }
      if |destinationNodeId| > 0 {
        data.Write(destinationNodeId);
      }
    }

    method Decode(data: Buffer) returns (ok: bool)
      modifies this, data
      ensures HeaderRead(Value(), data.unread, ok) == DecodeHeader(old(Value()), old(data.unread))
    {
      var read;
      read, flags := data.ReadByte();
      if !read {
        return false;
      }
      sessionId := Read16(data.unread, sessionId);
      var skipped := data.ReadLittleEndian(2, 0);
      read, securityFlags := data.ReadByte();
      if !read {
        return false;
      }
      messageCounter := Read32(data.unread, messageCounter);
      skipped := data.ReadLittleEndian(4, 0);
      if flags / 4 % 2 != 0 {
        var atEnd := |data.unread| == 0;
        sourceNodeId := data.Read(8);
        if atEnd {
          return false;
        }
      }
      var size := DestinationSize(flags);
      if size != 0 {
        var atEnd := |data.unread| == 0;
        destinationNodeId := data.Read(size);
        if atEnd {
          return false;
        }
      }
      return true;
    }
  }

  // ----- protocol headers

  datatype ProtocolHeader = ProtocolHeader(
    exchangeFlags: byte,
    opcode: byte,
    exchangeId: uint16,
    protocolId: uint16,
    ackCounter: uint32)

  const NO_PROTOCOL_HEADER: ProtocolHeader := ProtocolHeader(0, 0, 0, 0, 0)

  predicate IsInitiator(p: ProtocolHeader) {
    p.exchangeFlags % 2 == 1
  }

  predicate Acknowledges(p: ProtocolHeader) {
    p.exchangeFlags / 2 % 2 == 1
  }

  predicate IsStandaloneAck(p: ProtocolHeader) {
    p.protocolId == PROTOCOL_SECURE_CHANNEL && p.opcode == OPCODE_ACK
  }

  predicate IsStatusReport(p: ProtocolHeader) {
    p.protocolId == PROTOCOL_SECURE_CHANNEL && p.opcode == OPCODE_STATUS_REPORT
  }

  /** The acknowledged counter is not written. */
  function EncodeProtocolHeader(p: ProtocolHeader): (s: seq<byte>)
    ensures |s| == 6
  {
    [p.exchangeFlags, p.opcode] + LittleEndian(p.exchangeId, 2) + LittleEndian(p.protocolId, 2)
  }

  function FirstOrZero(s: seq<byte>): byte {
    if |s| > 0 then s[0] else 0
  }

  function DecodeProtocolHeader(p: ProtocolHeader, s: seq<byte>): (ProtocolHeader, seq<byte>) {
    var s1 := Remaining(s, 1);
    var s2 := Remaining(s1, 1);
    var s3 := Remaining(s2, 2);
    var s4 := Remaining(s3, 2);
    var q := ProtocolHeader(FirstOrZero(s), FirstOrZero(s1), Read16(s2, p.exchangeId), Read16(s3, p.protocolId),
                            p.ackCounter);
    if Acknowledges(q) then (q.(ackCounter := Read32(s4, p.ackCounter)), Remaining(s4, 4)) else (q, s4)
  }

  /** Reading back what was written, up to the acknowledged counter. */
  lemma ProtocolHeaderRead(p: ProtocolHeader, rest: seq<byte>)
    ensures DecodeProtocolHeader(NO_PROTOCOL_HEADER, EncodeProtocolHeader(p) + rest) ==
            if Acknowledges(p) then (p.(ackCounter := Read32(rest, 0)), Remaining(rest, 4))
            else (p.(ackCounter := 0), rest)
  {
    var exchange, protocol := LittleEndian(p.exchangeId, 2), LittleEndian(p.protocolId, 2);
    var s := EncodeProtocolHeader(p) + rest;
    assert s == [p.exchangeFlags] + ([p.opcode] + (exchange + (protocol + rest)));
    ReadComplete([p.exchangeFlags], [p.opcode] + (exchange + (protocol + rest)), 0);
    ReadComplete([p.opcode], exchange + (protocol + rest), 0);
    ReadComplete(exchange, protocol + rest, 0);
    ReadComplete(protocol, rest, 0);
    Pow256Values();
    LittleEndianRoundTrip(p.exchangeId, 2);
    LittleEndianRoundTrip(p.protocolId, 2);
  }

  /** The bytes of a protocol header, one field after the other. */
  lemma ProtocolHeaderBytes(p: ProtocolHeader)
    ensures var s := EncodeProtocolHeader(p);
            && s[0] == p.exchangeFlags && s[1] == p.opcode
            && FromLittleEndian(s[2..4]) == p.exchangeId && FromLittleEndian(s[4..6]) == p.protocolId
  {
    var s := EncodeProtocolHeader(p);
    assert s[2..4] == LittleEndian(p.exchangeId, 2) && s[4..6] == LittleEndian(p.protocolId, 2);
    Pow256Values();
    LittleEndianRoundTrip(p.exchangeId, 2);
    LittleEndianRoundTrip(p.protocolId, 2);
  }

  /** What a protocol header is read as, from any bytes that are enough for it: bit 1 of the first announces a counter.
      */
  lemma ProtocolHeaderFields(s: seq<byte>)
    requires |s| >= if |s| > 0 && s[0] / 2 % 2 == 1 then 10 else 6
    ensures FromLittleEndian(s[2..4]) < TWO_TO_THE_16 && FromLittleEndian(s[4..6]) < TWO_TO_THE_16
    ensures if s[0] / 2 % 2 == 1 then
              && FromLittleEndian(s[6..10]) < TWO_TO_THE_32
              && DecodeProtocolHeader(NO_PROTOCOL_HEADER, s) ==
                 (ProtocolHeader(s[0], s[1], FromLittleEndian(s[2..4]), FromLittleEndian(s[4..6]),
                                 FromLittleEndian(s[6..10])), s[10..])
            else
              DecodeProtocolHeader(NO_PROTOCOL_HEADER, s) ==
              (ProtocolHeader(s[0], s[1], FromLittleEndian(s[2..4]), FromLittleEndian(s[4..6]), 0), s[6..])
  {
    LittleEndianBytes(s[2..4]);
    LittleEndianBytes(s[4..6]);
    Pow256Values();
    assert s[1..][0] == s[1] && s[1..][1..] == s[2..] && s[2..][..2] == s[2..4] && s[2..][2..] == s[4..];
    assert s[4..][..2] == s[4..6] && s[4..][2..] == s[6..];
    if s[0] / 2 % 2 == 1 {
      LittleEndianBytes(s[6..10]);
      assert s[6..][..4] == s[6..10] && s[6..][4..] == s[10..];
    }
  }

  /** Of one that is cut off, the fields that are not complete are zero. */
  lemma ShortProtocolHeaderFields(s: seq<byte>)
    requires |s| < if |s| > 0 && s[0] / 2 % 2 == 1 then 10 else 6
    ensures var (p, rest) := DecodeProtocolHeader(NO_PROTOCOL_HEADER, s);
            && (|s| < 10 && |s| > 0 && s[0] / 2 % 2 == 1 ==> rest == [] && p.ackCounter == 0)
            && (|s| < 6 ==> rest == [] && p.ackCounter == 0)
            && p.exchangeFlags == (if |s| > 0 then s[0] else 0) && p.opcode == (if |s| > 1 then s[1] else 0)
            && p.exchangeId == (if |s| >= 4 then FromLittleEndian(s[2..4]) else 0)
            && p.protocolId == (if |s| >= 6 then FromLittleEndian(s[4..6]) else 0)
  {
    if |s| >= 4 {
      assert s[1..][1..] == s[2..] && s[2..][..2] == s[2..4] && s[2..][2..] == s[4..];
    }
    if |s| >= 6 {
      assert s[4..][..2] == s[4..6] && s[4..][2..] == s[6..];
    }
  }

  /** A protocol header can be read back exactly when it carries no acknowledged counter and does not
      announce one; with the announcement, only in front of nothing. */
  lemma ProtocolHeaderRoundTripIff(p: ProtocolHeader, rest: seq<byte>)
    ensures DecodeProtocolHeader(NO_PROTOCOL_HEADER, EncodeProtocolHeader(p) + rest) == (p, rest)
       <==> p.ackCounter == 0 && (Acknowledges(p) ==> rest == [])
  {
    ProtocolHeaderRead(p, rest);
  }

  /** An announced counter is missed when other bytes follow. */
  lemma AnnouncedCounterMissed(p: ProtocolHeader, rest: seq<byte>)
    requires Acknowledges(p) && rest != []
    ensures DecodeProtocolHeader(NO_PROTOCOL_HEADER, EncodeProtocolHeader(p) + rest) != (p, rest)
  {
    ProtocolHeaderRoundTripIff(p, rest);
  }

  /** With the acknowledged counter appended, the whole header is read back. */
  lemma AcknowledgingHeaderRoundTrip(p: ProtocolHeader, rest: seq<byte>)
    requires Acknowledges(p)
    ensures DecodeProtocolHeader(NO_PROTOCOL_HEADER, EncodeProtocolHeader(p) + (LittleEndian(p.ackCounter, 4) + rest))
         == (p, rest)
  {
    var counter := LittleEndian(p.ackCounter, 4);
    ProtocolHeaderRead(p, counter + rest);
    Pow256Values();
    LittleEndianRoundTrip(p.ackCounter, 4);
    ReadComplete(counter, rest, 0);
  }

  class ProtocolMessageHeader {
    var exchangeFlags: byte
    var opcode: byte
    var exchangeId: uint16
    var protocolId: uint16
    var ackCounter: uint32

    constructor (p: ProtocolHeader)
      ensures Value() == p
    {
      exchangeFlags, opcode, exchangeId, protocolId, ackCounter :=
        p.exchangeFlags, p.opcode, p.exchangeId, p.protocolId, p.ackCounter;
    }

    function Value(): ProtocolHeader
      reads this
    {
      ProtocolHeader(exchangeFlags, opcode, exchangeId, protocolId, ackCounter)
    }

    method Encode(data: Buffer)
      modifies data
      ensures data.unread == old(data.unread) + EncodeProtocolHeader(Value())
    {
      data.WriteByte(exchangeFlags);
      data.WriteByte(opcode);
      data.Write(LittleEndian(exchangeId, 2));
      data.Write(LittleEndian(protocolId, 2));
    }

    method Decode(data: Buffer)
      modifies this, data
      ensures (Value(), data.unread) == DecodeProtocolHeader(old(Value()), old(data.unread))
    {
      var read;
      read, exchangeFlags := data.ReadByte();
      read, opcode := data.ReadByte();
      exchangeId := Read16(data.unread, exchangeId);
      var skipped := data.ReadLittleEndian(2, 0);
      protocolId := Read16(data.unread, protocolId);
      skipped := data.ReadLittleEndian(2, 0);
      if exchangeFlags / 2 % 2 != 0 {
        ackCounter := Read32(data.unread, ackCounter);
        skipped := data.ReadLittleEndian(4, 0);
      }
    }
  }

  // ----- acknowledgements

  /** The acknowledgement of a message with protocol header p and the given message counter. */
  function AckHeader(p: ProtocolHeader, counter: uint32): ProtocolHeader {
    ProtocolHeader(2 + (if IsInitiator(p) then 0 else 1), OPCODE_ACK, p.exchangeId, PROTOCOL_SECURE_CHANNEL, counter)
  }

  function AckMessage(p: ProtocolHeader, counter: uint32): seq<byte> {
    EncodeProtocolHeader(AckHeader(p, counter)) + LittleEndian(counter, 4)
  }

  /** What the other side reads: a standalone acknowledgement of this counter on the same exchange, from
      the other role, and nothing after it. */
  lemma AckReads(p: ProtocolHeader, counter: uint32)
    ensures var ack := AckHeader(p, counter);
            && DecodeProtocolHeader(NO_PROTOCOL_HEADER, AckMessage(p, counter)) == (ack, [])
            && IsStandaloneAck(ack) && Acknowledges(ack) && ack.ackCounter == counter
            && ack.exchangeId == p.exchangeId && (IsInitiator(ack) <==> !IsInitiator(p))
  {
    var ack := AckHeader(p, counter);
    AcknowledgingHeaderRoundTrip(ack, []);
    assert AckMessage(p, counter) == EncodeProtocolHeader(ack) + (LittleEndian(counter, 4) + []);
  }

  /** Its ten bytes: the acknowledge bit, and the initiator bit if the message has none; opcode 0x10 of protocol 0. */
  lemma AckBytes(p: ProtocolHeader, counter: uint32)
    ensures var s := AckMessage(p, counter);
            && |s| == 10 && s[0] == (if p.exchangeFlags % 2 == 0 then 3 else 2) && s[1] == 0x10
            && FromLittleEndian(s[2..4]) == p.exchangeId && s[4..6] == [0, 0] && FromLittleEndian(s[6..10]) == counter
  {
    var s, h := AckMessage(p, counter), EncodeProtocolHeader(AckHeader(p, counter));
    ProtocolHeaderBytes(AckHeader(p, counter));
    assert s[..6] == h && s[2..4] == h[2..4] && s[4..6] == h[4..6] && s[6..10] == LittleEndian(counter, 4);
    ZeroIff(s[4..6]);
    Pow256Values();
    LittleEndianRoundTrip(counter, 4);
  }

  method AckGen(p: ProtocolHeader, counter: uint32) returns (data: seq<byte>)
    ensures data == AckMessage(p, counter)
  {
    var buffer := new Buffer([]);
    var flags := 2;
    if p.exchangeFlags % 2 == 0 {
      flags := flags + 1;
    }
    var prot := new ProtocolMessageHeader(ProtocolHeader(flags, OPCODE_ACK, p.exchangeId, PROTOCOL_SECURE_CHANNEL, 0));
    prot.Encode(buffer);
    buffer.Write(LittleEndian(counter, 4));
    data := buffer.unread;
  }

  // ----- status reports

  datatype StatusReport = StatusReport(generalCode: uint16, protocolId: uint32, protocolCode: uint16)

  const NO_STATUS: StatusReport := StatusReport(0, 0, 0)

  predicate IsOk(r: StatusReport) {
    if r.generalCode != 0 then false
    else if r.protocolId != 0 then false
    else if r.protocolCode != 0 then false
    else true
  }

  function StatusReportHeader(exchangeId: uint16): ProtocolHeader {
    ProtocolHeader(5, OPCODE_STATUS_REPORT, exchangeId, PROTOCOL_SECURE_CHANNEL, 0)
  }

  function StatusPayload(r: StatusReport): seq<byte> {
    LittleEndian(r.generalCode, 2) + LittleEndian(r.protocolId, 4) + LittleEndian(r.protocolCode, 2)
  }

  function EncodeStatusReport(r: StatusReport, exchangeId: uint16): seq<byte> {
    EncodeProtocolHeader(StatusReportHeader(exchangeId)) + StatusPayload(r)
  }

  /** Fields that the payload is too short for stay zero. */
  function DecodeStatus(payload: seq<byte>): StatusReport {
    var s1 := Remaining(payload, 2);
    StatusReport(Read16(payload, 0), Read32(s1, 0), Read16(Remaining(s1, 4), 0))
  }

  lemma StatusRoundTrip(r: StatusReport, rest: seq<byte>)
    ensures DecodeStatus(StatusPayload(r) + rest) == r
  {
    var a, b, c := LittleEndian(r.generalCode, 2), LittleEndian(r.protocolId, 4), LittleEndian(r.protocolCode, 2);
    assert StatusPayload(r) + rest == a + (b + (c + rest));
    ReadComplete(a, b + (c + rest), 0);
    ReadComplete(b, c + rest, 0);
    ReadComplete(c, rest, 0);
    Pow256Values();
    LittleEndianRoundTrip(r.generalCode, 2);
    LittleEndianRoundTrip(r.protocolId, 4);
    LittleEndianRoundTrip(r.protocolCode, 2);
  }

  /** The fourteen bytes of a status report: opcode 0x40 of protocol 0, and the three fields. */
  lemma StatusBytes(r: StatusReport, exchangeId: uint16)
    ensures var s := EncodeStatusReport(r, exchangeId);
            && |s| == 14 && s[0] == 5 && s[1] == 0x40 && FromLittleEndian(s[2..4]) == exchangeId && s[4..6] == [0, 0]
            && FromLittleEndian(s[6..8]) == r.generalCode && FromLittleEndian(s[8..12]) == r.protocolId
            && FromLittleEndian(s[12..14]) == r.protocolCode
  {
    var s, h := EncodeStatusReport(r, exchangeId), EncodeProtocolHeader(StatusReportHeader(exchangeId));
    ProtocolHeaderBytes(StatusReportHeader(exchangeId));
    assert s[..6] == h && s[2..4] == h[2..4] && s[4..6] == h[4..6];
    assert s[6..8] == LittleEndian(r.generalCode, 2) && s[8..12] == LittleEndian(r.protocolId, 4);
    assert s[12..14] == LittleEndian(r.protocolCode, 2);
    ZeroIff(s[4..6]);
    Pow256Values();
    LittleEndianRoundTrip(r.generalCode, 2);
    LittleEndianRoundTrip(r.protocolId, 4);
    LittleEndianRoundTrip(r.protocolCode, 2);
  }

  /** What a payload of eight or more bytes is read as. */
  lemma StatusFields(payload: seq<byte>)
    requires |payload| >= 8
    ensures var r := DecodeStatus(payload);
            && r.generalCode == FromLittleEndian(payload[..2]) && r.protocolId == FromLittleEndian(payload[2..6])
            && r.protocolCode == FromLittleEndian(payload[6..8])
  {
    assert payload[2..][..4] == payload[2..6] && payload[2..][4..][..2] == payload[6..8];
  }

  /** A payload counts as success exactly when every field that it is long enough for is zero. */
  lemma SuccessIff(payload: seq<byte>)
    ensures IsOk(DecodeStatus(payload)) <==>
            && (|payload| >= 2 ==> payload[..2] == Zeros(2))
            && (|payload| >= 6 ==> payload[2..6] == Zeros(4))
            && (|payload| >= 8 ==> payload[6..8] == Zeros(2))
  {
    if |payload| >= 2 {
      ZeroIff(payload[..2]);
      var s1 := payload[2..];
      if |payload| >= 6 {
        assert s1[..4] == payload[2..6];
        ZeroIff(payload[2..6]);
        if |payload| >= 8 {
          assert s1[4..][..2] == payload[6..8];
          ZeroIff(payload[6..8]);
        }
      }
    }
  }

  /** Its protocol code alone is zero exactly when it is too short for one or has zeros there. */
  lemma ProtocolCodeIff(payload: seq<byte>)
    ensures DecodeStatus(payload).protocolCode == 0 <==> |payload| >= 8 ==> payload[6..8] == Zeros(2)
  {
    if |payload| >= 8 {
      assert payload[2..][4..][..2] == payload[6..8];
      ZeroIff(payload[6..8]);
    }
  }

  lemma {:induction false} ZeroIff(s: seq<byte>)
    ensures FromLittleEndian(s) == 0 <==> s == Zeros(|s|)
  {
    if |s| > 0 {
      ZeroIff(s[1..]);
      assert Zeros(|s|)[1..] == Zeros(|s| - 1);
      assert s == [s[0]] + s[1..];
      assert Zeros(|s|) == [0] + Zeros(|s| - 1);
    }
  }
}
