/** What a secure channel makes of data to send and of a datagram that arrives. */
module ChannelSpec {
  import opened Bytes
  import opened Options
  import opened Buffers
  import opened CcmLength
  import opened CcmFormat
  import opened CcmSpec
  import opened Tlv
  import opened Messages

  /** The block cipher of a key. */
  type Aes = seq<byte> -> BlockCipher

  const TAG_SIZE: nat := 16
  const RECEIVE_BUFFER: nat := 10240
  const SOURCE_NODE: seq<byte> := [1, 2, 3, 4, 5, 6, 7, 8]

  /** The state of a channel. Without keys it is in the clear. */
  datatype Channel = Channel(
    encryptKey: seq<byte>,
    decryptKey: seq<byte>,
    remoteNode: seq<byte>,
    localNode: seq<byte>,
    counter: uint32,
    session: int)

  /** The same channel, with another counter perhaps. */
  predicate SameButCounter(c: Channel, c': Channel) {
    c' == c.(counter := c'.counter)
  }

  predicate ValidKeySize(n: nat) {
    n in {16, 24, 32}
  }

  predicate ValidNonceSize(n: nat) {
    7 <= n <= 13
  }

  function MakeNonce(counter: uint32, node: seq<byte>): (n: seq<byte>)
    ensures |n| == 5 + |node|
  {
    [0] + LittleEndian(counter, 4) + node
  }

  function Next(counter: uint32): uint32 {
    (counter + 1) % TWO_TO_THE_32
  }

  /** Nonces tell counters apart, whatever the nodes. */
  lemma NonceCounters(counter: uint32, node: seq<byte>, counter': uint32, node': seq<byte>)
    ensures MakeNonce(counter, node) == MakeNonce(counter', node') ==> counter == counter'
  {
    Pow256Values();
    LittleEndianRoundTrip(counter, 4);
    LittleEndianRoundTrip(counter', 4);
    assert MakeNonce(counter, node)[1..5] == LittleEndian(counter, 4);
    assert MakeNonce(counter', node')[1..5] == LittleEndian(counter', 4);
  }

  /** The nonce tells the counters of a node apart. */
  lemma NonceInjective(counter: uint32, counter': uint32, node: seq<byte>)
    ensures MakeNonce(counter, node) == MakeNonce(counter', node) <==> counter == counter'
  {
    NonceCounters(counter, node, counter', node);
  }

  // ----- sending

  datatype SendResult = Sent(datagram: seq<byte>) | SendFailed | SendPanicked

  function SendHeader(c: Channel): Header {
    Header(0, c.session % TWO_TO_THE_16, 0, Next(c.counter), SOURCE_NODE, [])
  }

  /** The message that is sealed: the header is its associated data. */
  function SealedMessage(c: Channel, data: seq<byte>): Message {
    var nonce := MakeNonce(Next(c.counter), c.localNode);
    Message(TAG_SIZE, if |nonce| <= 15 then 15 - |nonce| else 0, nonce, EncodeHeader(SendHeader(c)), data)
  }

  function Send(aes: Aes, c: Channel, data: seq<byte>): SendResult {
    var header := EncodeHeader(SendHeader(c));
    if |c.encryptKey| == 0 then Sent(header + data)
    else if !ValidKeySize(|c.encryptKey|) || !ValidNonceSize(5 + |c.localNode|) then SendFailed
    else if !Fits(10 - |c.localNode|, TAG_SIZE, |data|) then SendPanicked
    else Sent(header + Seal(aes(c.encryptKey), SealedMessage(c, data)))
  }

  // ----- what is sent, in numbers

  /** A nonce is a zero, the counter in four bytes, least significant first, and the node id. */
  ghost predicate IsNonce(nonce: seq<byte>, counter: uint32, node: seq<byte>) {
    |nonce| == 5 + |node| && nonce[0] == 0 && FromLittleEndian(nonce[1..5]) == counter && nonce[5..] == node
  }

  lemma NonceIsMade(nonce: seq<byte>, counter: uint32, node: seq<byte>)
    requires IsNonce(nonce, counter, node)
    ensures nonce == MakeNonce(counter, node)
  {
    LittleEndianBytes(nonce[1..5]);
    assert nonce == [nonce[0]] + nonce[1..5] + nonce[5..];
  }

  lemma SendHeaderBytes(c: Channel)
    ensures var s := EncodeHeader(SendHeader(c));
            && |s| == 16 && s[0] == 4 && FromLittleEndian(s[1..3]) == c.session % 0x1_0000 && s[3] == 0
            && FromLittleEndian(s[4..8]) == (c.counter + 1) % 0x1_0000_0000 && s[8..] == [1, 2, 3, 4, 5, 6, 7, 8]
  {
    var s := EncodeHeader(SendHeader(c));
    HeaderBytes(SendHeader(c));
    assert s[8..16] == SOURCE_NODE && s[16..] == [];
  }

  /** The first sixteen bytes of a datagram, and its length; without a key the rest is the data. */
  lemma SentBytes(aes: Aes, c: Channel, data: seq<byte>)
    requires Send(aes, c, data).Sent?
    ensures var d := Send(aes, c, data).datagram;
            && |d| == 16 + |data| + (if |c.encryptKey| == 0 then 0 else 16)
            && d[0] == 4 && FromLittleEndian(d[1..3]) == c.session % 0x1_0000 && d[3] == 0
            && FromLittleEndian(d[4..8]) == (c.counter + 1) % 0x1_0000_0000 && d[8..16] == [1, 2, 3, 4, 5, 6, 7, 8]
            && (|c.encryptKey| == 0 ==> d[16..] == data)
  {
    var d, header := Send(aes, c, data).datagram, EncodeHeader(SendHeader(c));
    SendHeaderBytes(c);
    assert d[..16] == header;
    assert d[1..3] == header[1..3] && d[4..8] == header[4..8] && d[8..16] == header[8..];
  }

  /** Under a key the rest is the data, sealed with a 16-byte tag: under the nonce of the new counter and the local
      node, and with the first sixteen bytes as associated data. */
  lemma SentSealed(aes: Aes, c: Channel, data: seq<byte>, nonce: seq<byte>)
    requires |c.encryptKey| > 0 && Send(aes, c, data).Sent?
    requires IsNonce(nonce, (c.counter + 1) % 0x1_0000_0000, c.localNode)
    ensures var d := Send(aes, c, data).datagram;
            && 2 <= |c.localNode| <= 8 && |d| >= 16
            && var m := Message(16, 10 - |c.localNode|, nonce, d[..16], data);
               m.WellFormed() && d[16..] == Seal(aes(c.encryptKey), m)
  {
    var d, header := Send(aes, c, data).datagram, EncodeHeader(SendHeader(c));
    SendHeaderBytes(c);
    NonceIsMade(nonce, (c.counter + 1) % 0x1_0000_0000, c.localNode);
    assert d[..16] == header && d[16..] == Seal(aes(c.encryptKey), SealedMessage(c, data));
  }

  /** Sending fails on a key or a node id of a wrong size, and panics over data that is too long for the nonce. */
  lemma SendOutcome(aes: Aes, c: Channel, data: seq<byte>)
    ensures var key, node, r := |c.encryptKey|, |c.localNode|, Send(aes, c, data);
            && (r.SendFailed? <==> key > 0 && (key !in {16, 24, 32} || !(2 <= node <= 8)))
            && (r.SendPanicked? <==> && key in {16, 24, 32} && 2 <= node <= 8
                                     && (|data| >= Pow256(10 - node) || |data| + 16 > MAX_INT64))
  {
  }

  // ----- one arriving datagram

  datatype Processed =
    | Accepted(h: Header, p: ProtocolHeader, payload: seq<byte>)
    | StandaloneAck(p: ProtocolHeader)
    | Rejected

  function Interpret(h: Header, s: seq<byte>): Processed {
    var (p, payload) := DecodeProtocolHeader(NO_PROTOCOL_HEADER, s);
    if IsStandaloneAck(p) then StandaloneAck(p) else Accepted(h, p, payload)
  }

  /** The receive buffer cuts off longer datagrams; errors while decoding the header are ignored. */
  function Process(aes: Aes, c: Channel, datagram: seq<byte>): Processed {
    var data := datagram[..Min(|datagram|, RECEIVE_BUFFER)];
    var read := DecodeHeader(NO_HEADER, data);
    HeaderReadShrinks(NO_HEADER, data);
    ProcessBody(aes, c, read.h, Before(data, read.rest), read.rest)
  }

  /** The part of a datagram after its header, which under a key is sealed with the header as associated data. */
  function Unseal(aes: Aes, c: Channel, counter: uint32, header: seq<byte>, body: seq<byte>): Option<seq<byte>> {
    if |c.decryptKey| == 0 then Some(body)
    else
      var nonce := MakeNonce(counter, c.remoteNode);
      if !ValidKeySize(|c.decryptKey|) || !ValidNonceSize(|nonce|) then None
      else OpenOption(aes(c.decryptKey), TAG_SIZE, 15 - |nonce|, nonce, body, header)
  }

  function ProcessBody(aes: Aes, c: Channel, h: Header, header: seq<byte>, body: seq<byte>): Processed {
    match Unseal(aes, c, h.messageCounter, header, body)
    case None => Rejected
    case Some(s) => Interpret(h, s)
  }

  /** What is made of a datagram does not depend on the channel's counter. */
  lemma ProcessSameKeys(aes: Aes, c: Channel, counter: uint32, datagram: seq<byte>)
    ensures Process(aes, c.(counter := counter), datagram) == Process(aes, c, datagram)
  {
    var data := datagram[..Min(|datagram|, RECEIVE_BUFFER)];
    HeaderReadShrinks(NO_HEADER, data);
    var read := DecodeHeader(NO_HEADER, data);
    UnsealSameKeys(aes, c, counter, read.h.messageCounter, Before(data, read.rest), read.rest);
  }

  lemma UnsealSameKeys(aes: Aes, c: Channel, counter: uint32, messageCounter: uint32, header: seq<byte>,
                       body: seq<byte>)
    ensures Unseal(aes, c.(counter := counter), messageCounter, header, body)
            == Unseal(aes, c, messageCounter, header, body)
  {
  }

  lemma HeaderReadShrinks(h: Header, s: seq<byte>)
    ensures |DecodeHeader(h, s).rest| <= |s|
  {
  }

  // ----- what is received, in numbers

  /** The header in front of a message, and how many bytes it takes. */
  ghost predicate IsHeader(data: seq<byte>, n: nat, h: Header) {
    && |data| >= 8 && n == 8 + SourceBytes(data[0]) + DestinationBytes(data[0]) && |data| >= n
    && h.flags == data[0] && h.sessionId == FromLittleEndian(data[1..3]) && h.securityFlags == data[3]
    && h.messageCounter == FromLittleEndian(data[4..8])
    && h.sourceNodeId + h.destinationNodeId == data[8..n] && |h.sourceNodeId| == SourceBytes(data[0])
  }

  lemma HeaderIsRead(data: seq<byte>, n: nat, h: Header)
    requires IsHeader(data, n, h)
    ensures DecodeHeader(NO_HEADER, data) == HeaderRead(h, data[n..], true) && Before(data, data[n..]) == data[..n]
  {
    HeaderFields(data);
    var m := 8 + SourceBytes(data[0]);
    assert h.sourceNodeId == data[8..n][..m - 8] == data[8..m];
    assert h.destinationNodeId == data[8..n][m - 8..] == data[m..n];
  }

  /** What is made of a datagram whose header is known. */
  lemma ProcessRead(aes: Aes, c: Channel, datagram: seq<byte>, h: Header, rest: seq<byte>)
    requires var data := datagram[..Min(|datagram|, RECEIVE_BUFFER)];
             |rest| <= |data| && DecodeHeader(NO_HEADER, data) == HeaderRead(h, rest, true)
    ensures Process(aes, c, datagram) ==
            ProcessBody(aes, c, h, Before(datagram[..Min(|datagram|, RECEIVE_BUFFER)], rest), rest)
  {
  }

  /** Of a datagram the first 10240 bytes count. Without a key what follows its header is taken as it is. */
  lemma ClearReceived(aes: Aes, c: Channel, datagram: seq<byte>, n: nat, h: Header)
    requires |c.decryptKey| == 0 && IsHeader(datagram[..Min(|datagram|, 10240)], n, h)
    ensures Process(aes, c, datagram) == Interpret(h, datagram[..Min(|datagram|, 10240)][n..])
  {
    HeaderIsRead(datagram[..Min(|datagram|, 10240)], n, h);
    ProcessRead(aes, c, datagram, h, datagram[..Min(|datagram|, 10240)][n..]);
  }

  lemma UnsealUnder(aes: Aes, c: Channel, counter: uint32, nonce: seq<byte>, header: seq<byte>, body: seq<byte>)
    requires |c.decryptKey| > 0 && IsNonce(nonce, counter, c.remoteNode)
    ensures Unseal(aes, c, counter, header, body) ==
            if |c.decryptKey| !in {16, 24, 32} || !(2 <= |c.remoteNode| <= 8) then None
            else OpenOption(aes(c.decryptKey), 16, 10 - |c.remoteNode|, nonce, body, header)
  {
    NonceIsMade(nonce, counter, c.remoteNode);
  }

  /** Under a key it is opened, with a 16-byte tag: under the nonce of the header's counter and the remote node, and
      with the header as associated data. */
  lemma SealedReceived(aes: Aes, c: Channel, datagram: seq<byte>, n: nat, h: Header, nonce: seq<byte>)
    requires |c.decryptKey| > 0 && IsHeader(datagram[..Min(|datagram|, 10240)], n, h)
    requires IsNonce(nonce, h.messageCounter, c.remoteNode)
    ensures var data := datagram[..Min(|datagram|, 10240)];
            Process(aes, c, datagram) ==
            if |c.decryptKey| !in {16, 24, 32} || !(2 <= |c.remoteNode| <= 8) then Rejected
            else
              match Open(aes(c.decryptKey), 16, 10 - |c.remoteNode|, nonce, data[n..], data[..n])
              case Plaintext(s) => Interpret(h, s)
              case _ => Rejected
  {
    var data := datagram[..Min(|datagram|, 10240)];
    HeaderIsRead(data, n, h);
    ProcessRead(aes, c, datagram, h, data[n..]);
    UnsealUnder(aes, c, h.messageCounter, nonce, data[..n], data[n..]);
  }

  /** A message of protocol 0 with opcode 0x10 is a standalone acknowledgement; of any other the six bytes of its
      header, ten if they announce a counter, are followed by the payload. */
  lemma InterpretedBytes(h: Header, s: seq<byte>)
    requires |s| >= if |s| > 0 && s[0] / 2 % 2 == 1 then 10 else 6
    ensures var r, k := Interpret(h, s), if s[0] / 2 % 2 == 1 then 10 else 6;
            && (r.StandaloneAck? <==> s[1] == 0x10 && s[4..6] == [0, 0])
            && !r.Rejected?
            && (r.Accepted? ==>
                  && r.h == h && r.payload == s[k..]
                  && r.p.exchangeFlags == s[0] && r.p.opcode == s[1] && r.p.exchangeId == FromLittleEndian(s[2..4])
                  && r.p.protocolId == FromLittleEndian(s[4..6])
                  && r.p.ackCounter == if k == 10 then FromLittleEndian(s[6..10]) else 0)
  {
    ProtocolHeaderFields(s);
    ZeroIff(s[4..6]);
  }

  // ----- what an accepted message is returned as

  datatype DecodedGeneric = DecodedGeneric(
    messageHeader: Header,
    protocolHeader: ProtocolHeader,
    tlv: Item,
    payload: seq<byte>,
    statusReport: StatusReport)

  datatype Outcome = Returned(out: DecodedGeneric) | ReceiveFailed | ReceivePanicked

  function Finish(h: Header, p: ProtocolHeader, payload: seq<byte>): Outcome {
    if IsStatusReport(p) then Returned(DecodedGeneric(h, p, EMPTY, payload, DecodeStatus(payload)))
    else if |payload| == 0 then Returned(DecodedGeneric(h, p, EMPTY, payload, NO_STATUS))
    else
      match DecodeFirst(payload)
      case Panicked => ReceivePanicked
      case Got(item, _) => Returned(DecodedGeneric(h, p, item, payload, NO_STATUS))
  }

  /** A message of protocol 0 with opcode 0x40 is read as a status report; any other as TLV, unless it is empty. */
  lemma FinishedAs(h: Header, p: ProtocolHeader, payload: seq<byte>)
    ensures var r, none := Finish(h, p, payload), Item(0, TypeNone, 0, false, 0, [], [], []);
            if p.protocolId == 0 && p.opcode == 0x40 then
              r == Returned(DecodedGeneric(h, p, none, payload, DecodeStatus(payload)))
            else if payload == [] then
              r == Returned(DecodedGeneric(h, p, none, [], StatusReport(0, 0, 0)))
            else
              match DecodeFirst(payload)
              case Panicked => r == ReceivePanicked
              case Got(item, _) => r == Returned(DecodedGeneric(h, p, item, payload, StatusReport(0, 0, 0)))
  {
  }

  // ----- both ends together

  /** Nothing about the channel stands in the way of sending: it is in the clear, or has a key of a size that is one and
      an 8-byte node id. */
  predicate CanSend(c: Channel) {
    |c.encryptKey| == 0 || (ValidKeySize(|c.encryptKey|) && |c.localNode| == 8)
  }

  /** What a sends, b can read: both are in the clear, or they have the same key and matching 8-byte node ids. */
  predicate Mirrored(a: Channel, b: Channel) {
    a.encryptKey == b.decryptKey && CanSend(a) && (|a.encryptKey| == 0 || a.localNode == b.remoteNode)
  }

  /** The header as the receiver reads it. */
  function WireHeader(c: Channel): Header {
    SendHeader(c).(flags := 4)
  }

  lemma SendHeaderReads(c: Channel, rest: seq<byte>)
    ensures |EncodeHeader(SendHeader(c))| == 16
    ensures DecodeHeader(NO_HEADER, EncodeHeader(SendHeader(c)) + rest) == HeaderRead(WireHeader(c), rest, true)
  {
    HeaderRoundTrip(SendHeader(c), rest);
  }

  lemma SealedMessageFits(c: Channel, data: seq<byte>)
    requires |c.localNode| == 8 && |data| <= 0xffff
    ensures SealedMessage(c, data).WellFormed()
  {
    Pow256Values();
  }

  /** Every message of at most 0xffff bytes can be sent. */
  lemma SendSucceeds(aes: Aes, c: Channel, data: seq<byte>)
    requires CanSend(c) && |data| <= 0xffff
    ensures Send(aes, c, data).Sent?
    ensures |Send(aes, c, data).datagram| == 16 + |data| + if |c.encryptKey| == 0 then 0 else TAG_SIZE
  {
    SendHeaderReads(c, []);
    if |c.encryptKey| > 0 {
      SealedMessageFits(c, data);
    }
  }

  /** The receiver rebuilds the sender's nonce and associated data from the wire and reads what was sent. */
  lemma EndToEnd(aes: Aes, a: Channel, b: Channel, data: seq<byte>)
    requires Mirrored(a, b)
    requires Send(aes, a, data).Sent? && |Send(aes, a, data).datagram| <= RECEIVE_BUFFER
    ensures var datagram := Send(aes, a, data).datagram;
            var read := DecodeHeader(NO_HEADER, datagram);
            && read.h == WireHeader(a)
            && |read.rest| <= |datagram| && Before(datagram, read.rest) == EncodeHeader(SendHeader(a))
            && (|a.encryptKey| > 0 ==>
                  MakeNonce(read.h.messageCounter, b.remoteNode) == MakeNonce(Next(a.counter), a.localNode))
    ensures Process(aes, b, Send(aes, a, data).datagram) == Interpret(WireHeader(a), data)
  {
    var datagram := Send(aes, a, data).datagram;
    var rest := if |a.encryptKey| == 0 then data else Seal(aes(a.encryptKey), SealedMessage(a, data));
    SentReads(aes, a, data);
    assert datagram[..|datagram|] == datagram;
    ProcessRead(aes, b, datagram, WireHeader(a), rest);
    if |a.encryptKey| > 0 {
      UnsealSealed(aes, a, b, data);
    }
  }

  lemma UnsealSealed(aes: Aes, a: Channel, b: Channel, data: seq<byte>)
    requires Mirrored(a, b) && |a.encryptKey| > 0 && Send(aes, a, data).Sent?
    ensures SealedMessage(a, data).WellFormed()
    ensures Unseal(aes, b, Next(a.counter), EncodeHeader(SendHeader(a)),
                   Seal(aes(a.encryptKey), SealedMessage(a, data))) == Some(data)
  {
    OpenInvertsSeal(aes(a.encryptKey), SealedMessage(a, data));
  }

  /** The header of a datagram and what follows it. */
  lemma SentReads(aes: Aes, c: Channel, data: seq<byte>)
    requires Send(aes, c, data).Sent?
    ensures var datagram, header := Send(aes, c, data).datagram, EncodeHeader(SendHeader(c));
            var rest := if |c.encryptKey| == 0 then data else Seal(aes(c.encryptKey), SealedMessage(c, data));
            && DecodeHeader(NO_HEADER, datagram) == HeaderRead(WireHeader(c), rest, true)
            && |rest| <= |datagram| && Before(datagram, rest) == header
  {
    var header := EncodeHeader(SendHeader(c));
    var rest := if |c.encryptKey| == 0 then data else Seal(aes(c.encryptKey), SealedMessage(c, data));
    SendHeaderReads(c, rest);
    assert Before(header + rest, rest) == header;
  }

  /** Protocol headers that are written out completely: without an acknowledged counter, or followed by it. */
  function EncodeMessage(p: ProtocolHeader, payload: seq<byte>): seq<byte> {
    if Acknowledges(p) then EncodeProtocolHeader(p) + (LittleEndian(p.ackCounter, 4) + payload)
    else EncodeProtocolHeader(p) + payload
  }

  /** A whole message comes through: the same protocol header and payload, unless it is a standalone ack. */
  lemma MessageComesThrough(aes: Aes, a: Channel, b: Channel, p: ProtocolHeader, payload: seq<byte>)
    requires Mirrored(a, b)
    requires Acknowledges(p) || p.ackCounter == 0
    requires var sent := Send(aes, a, EncodeMessage(p, payload)); sent.Sent? && |sent.datagram| <= RECEIVE_BUFFER
    ensures Process(aes, b, Send(aes, a, EncodeMessage(p, payload)).datagram) ==
            if IsStandaloneAck(p) then StandaloneAck(p) else Accepted(WireHeader(a), p, payload)
  {
    EndToEnd(aes, a, b, EncodeMessage(p, payload));
    if Acknowledges(p) {
      AcknowledgingHeaderRoundTrip(p, payload);
    } else {
      ProtocolHeaderRead(p, payload);
    }
  }

  /** The acknowledgement of an accepted message is read at the other end as exactly that. */
  lemma AckComesThrough(aes: Aes, a: Channel, b: Channel, p: ProtocolHeader, counter: uint32)
    requires Mirrored(a, b)
    ensures Send(aes, a, AckMessage(p, counter)).Sent?
    ensures Process(aes, b, Send(aes, a, AckMessage(p, counter)).datagram) == StandaloneAck(AckHeader(p, counter))
  {
    var data := AckMessage(p, counter);
    SendSucceeds(aes, a, data);
    EndToEnd(aes, a, b, data);
    AckReads(p, counter);
  }

  /** The body is the sealing of this data under the channel's key. */
  ghost predicate SealedBody(aes: Aes, c: Channel, counter: uint32, header: seq<byte>, body: seq<byte>, data: seq<byte>)
    requires |c.remoteNode| == 8
  {
    var m := Message(TAG_SIZE, 2, MakeNonce(counter, c.remoteNode), header, data);
    m.WellFormed() && body == Seal(aes(c.decryptKey), m)
  }

  lemma SealedBodyIff(aes: Aes, c: Channel, counter: uint32, header: seq<byte>, body: seq<byte>, data: seq<byte>)
    requires |c.remoteNode| == 8
    ensures SealedBody(aes, c, counter, header, body, data) <==>
            Open(aes(c.decryptKey), TAG_SIZE, 2, MakeNonce(counter, c.remoteNode), body, header) == Plaintext(data)
  {
    MaxLenIff(2, TAG_SIZE, |data|);
    OpenAcceptsExactlySealed(aes(c.decryptKey), TAG_SIZE, 2, MakeNonce(counter, c.remoteNode), body, header, data);
  }

  /** An acknowledgement is short enough for every nonce size. */
  lemma AckNeverPanics(aes: Aes, c: Channel, p: ProtocolHeader, counter: uint32)
    ensures !Send(aes, c, AckMessage(p, counter)).SendPanicked?
  {
    if ValidNonceSize(5 + |c.localNode|) {
      Pow256Mono(2, 10 - |c.localNode|);
      Pow256Values();
    }
  }

  /** Under a key, a datagram is taken in exactly when its body is the sealing, under that key and with the
      header as associated data, of data that is interpreted so. */
  lemma AcceptedIffSealed(aes: Aes, c: Channel, h: Header, header: seq<byte>, body: seq<byte>, result: Processed)
    requires ValidKeySize(|c.decryptKey|) && |c.remoteNode| == 8
    requires !result.Rejected?
    ensures ProcessBody(aes, c, h, header, body) == result <==>
            exists data: seq<byte> ::
              SealedBody(aes, c, h.messageCounter, header, body, data) && Interpret(h, data) == result
  {
    var attempt := Open(aes(c.decryptKey), TAG_SIZE, 2, MakeNonce(h.messageCounter, c.remoteNode), body, header);
    if ProcessBody(aes, c, h, header, body) == result {
      SealedBodyIff(aes, c, h.messageCounter, header, body, attempt.p);
    } else if data: seq<byte> :|
      SealedBody(aes, c, h.messageCounter, header, body, data) && Interpret(h, data) == result
    {
      SealedBodyIff(aes, c, h.messageCounter, header, body, data);
    }
  }
}
