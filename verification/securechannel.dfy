/** The secure channel object over an abstract network: sending, and receiving with automatic acknowledgements. */
module SecureChannels {
  import opened Bytes
  import opened Options
  import opened Buffers
  import opened CcmFormat
  import opened Ccm
  import CcmSpec
  import opened Tlv
  import opened TlvCodec
  import TlvIO
  import opened Messages
  import opened ChannelSpec
  import opened Sequences

  // ----- a whole call of Receive

  /** How many datagrams a call takes in, what it returns, and the message that it acknowledges, if any. */
  datatype ReceiveRun = ReceiveRun(consumed: nat, outcome: Outcome, ack: Option<seq<byte>>)

  /** Standalone acknowledgements are skipped; running out of datagrams is a timeout. */
  function RunReceive(aes: Aes, c: Channel, incoming: seq<seq<byte>>): (r: ReceiveRun)
    ensures r.consumed <= |incoming|
  {
    if |incoming| == 0 then ReceiveRun(0, ReceiveFailed, None)
    else
      match Process(aes, c, incoming[0])
      case Rejected => ReceiveRun(1, ReceiveFailed, None)
      case StandaloneAck(_) =>
        var r := RunReceive(aes, c, incoming[1..]);
        r.(consumed := r.consumed + 1)
      case Accepted(h, p, payload) =>
        ReceiveRun(1, Finish(h, p, payload), Some(AckMessage(p, h.messageCounter)))
  }

  /** What a call returns is never a standalone acknowledgement, and it is acknowledged by exactly one message,
      with its exchange id, its message counter and the other role; nothing else is acknowledged. */
  lemma {:induction false} ReceiveAcknowledges(aes: Aes, c: Channel, incoming: seq<seq<byte>>)
    ensures var r := RunReceive(aes, c, incoming);
            && (r.outcome.Returned? ==>
                  && !IsStandaloneAck(r.outcome.out.protocolHeader)
                  && r.ack == Some(AckMessage(r.outcome.out.protocolHeader,
                                              r.outcome.out.messageHeader.messageCounter)))
            && (r.outcome.ReceiveFailed? ==> r.ack.None?)
            && (forall i :: 0 <= i < r.consumed - 1 ==> Process(aes, c, incoming[i]).StandaloneAck?)
  {
    if |incoming| > 0 && Process(aes, c, incoming[0]).StandaloneAck? {
      ReceiveAcknowledges(aes, c, incoming[1..]);
      AcksInFront(aes, c, incoming, RunReceive(aes, c, incoming[1..]).consumed);
    }
  }

  lemma AcksInFront(aes: Aes, c: Channel, incoming: seq<seq<byte>>, n: nat)
    requires n < |incoming| && Process(aes, c, incoming[0]).StandaloneAck?
    requires forall i :: 0 <= i < n - 1 ==> Process(aes, c, incoming[1..][i]).StandaloneAck?
    ensures forall i :: 0 <= i < n ==> Process(aes, c, incoming[i]).StandaloneAck?
  {
    forall i | 0 <= i < n ensures Process(aes, c, incoming[i]).StandaloneAck? {
      if i > 0 {
        assert incoming[i] == incoming[1..][i - 1];
      }
    }
  }

  /** The whole way, for every protocol header and payload that a's Send was given: b's Receive skips a standalone
      acknowledgement, and otherwise returns this protocol header and this payload, as far as the payload can be
      decoded, and acknowledges a's counter. */
  lemma ReceiveReturnsSent(aes: Aes, a: Channel, b: Channel, p: ProtocolHeader, payload: seq<byte>,
                           more: seq<seq<byte>>)
    requires Mirrored(a, b)
    requires Acknowledges(p) || p.ackCounter == 0
    requires var sent := Send(aes, a, EncodeMessage(p, payload)); sent.Sent? && |sent.datagram| <= RECEIVE_BUFFER
    ensures var run := RunReceive(aes, b, [Send(aes, a, EncodeMessage(p, payload)).datagram] + more);
            if IsStandaloneAck(p) then
              var rest := RunReceive(aes, b, more); run == rest.(consumed := rest.consumed + 1)
            else
              run == ReceiveRun(1, Finish(WireHeader(a), p, payload), Some(AckMessage(p, Next(a.counter))))
  {
    MessageComesThrough(aes, a, b, p, payload);
    ReceiveFirst(aes, b, Send(aes, a, EncodeMessage(p, payload)).datagram, more);
  }

  /** Receiving when something has arrived. */
  lemma ReceiveFirst(aes: Aes, c: Channel, datagram: seq<byte>, more: seq<seq<byte>>)
    ensures RunReceive(aes, c, [datagram] + more) ==
            match Process(aes, c, datagram)
            case Rejected => ReceiveRun(1, ReceiveFailed, None)
            case StandaloneAck(_) => var r := RunReceive(aes, c, more); r.(consumed := r.consumed + 1)
            case Accepted(h, p, payload) => ReceiveRun(1, Finish(h, p, payload), Some(AckMessage(p, h.messageCounter)))
  {
    assert ([datagram] + more)[1..] == more;
  }

  /** So a tree that was written into the payload arrives as that tree. */
  lemma ReceiveReturnsTree(aes: Aes, a: Channel, b: Channel, p: ProtocolHeader, t: Tree, more: seq<seq<byte>>)
    requires Mirrored(a, b)
    requires Acknowledges(p) || p.ackCounter == 0
    requires !IsStandaloneAck(p) && !IsStatusReport(p) && Representable(t)
    requires var sent := Send(aes, a, EncodeMessage(p, Encode(t))); sent.Sent? && |sent.datagram| <= RECEIVE_BUFFER
    ensures RunReceive(aes, b, [Send(aes, a, EncodeMessage(p, Encode(t))).datagram] + more).outcome ==
            Returned(DecodedGeneric(WireHeader(a), p, ItemOf(t), Encode(t), NO_STATUS))
  {
    ReceiveReturnsSent(aes, a, b, p, Encode(t), more);
    MessageRoundTrip(t);
  }

  /** The same for a status report. */
  lemma ReceiveReturnsStatus(aes: Aes, a: Channel, b: Channel, r: StatusReport, exchangeId: uint16,
                             more: seq<seq<byte>>)
    requires Mirrored(a, b)
    ensures Send(aes, a, EncodeStatusReport(r, exchangeId)).Sent?
    ensures var p := StatusReportHeader(exchangeId);
            RunReceive(aes, b, [Send(aes, a, EncodeStatusReport(r, exchangeId)).datagram] + more) ==
            ReceiveRun(1, Returned(DecodedGeneric(WireHeader(a), p, EMPTY, StatusPayload(r), r)),
                       Some(AckMessage(p, Next(a.counter))))
  {
    var p := StatusReportHeader(exchangeId);
    assert EncodeStatusReport(r, exchangeId) == EncodeMessage(p, StatusPayload(r));
    SendSucceeds(aes, a, EncodeStatusReport(r, exchangeId));
    ReceiveReturnsSent(aes, a, b, p, StatusPayload(r), more);
    StatusRoundTrip(r, []);
    assert StatusPayload(r) + [] == StatusPayload(r);
  }

  // ----- the network and the channel as objects

  /** What happens, in order: a call of Send on a channel in some state, or a call of Receive that returns a message. */
  datatype Event = SentEvent(chan: Channel, data: seq<byte>) | GotEvent(out: DecodedGeneric) {
    function Key(): seq<byte>
      requires SentEvent?
    {
      chan.encryptKey
    }

    /** The counter that the call uses. */
    function Counter(): uint32
      requires SentEvent?
    {
      Next(chan.counter)
    }
  }

  /** The event of a call of Send, also of one that fails. */
  function SentEvents(c: Channel, data: seq<byte>): seq<Event> {
    [SentEvent(c, data)]
  }

  function SentDatagrams(aes: Aes, c: Channel, data: seq<byte>): seq<seq<byte>> {
    match ChannelSpec.Send(aes, c, data)
    case Sent(d) => [d]
    case _ => []
  }

  function DatagramsOf(aes: Aes): Event -> seq<seq<byte>> {
    (e: Event) => match e
         case SentEvent(c, data) => SentDatagrams(aes, c, data)
         case GotEvent(_) => []
  }

  /** The datagrams that go out, in order. */
  function Wire(aes: Aes, ev: seq<Event>): seq<seq<byte>> {
    FlatMap(DatagramsOf(aes), ev)
  }

  /** The network as one endpoint sees it: any datagrams may arrive, in any order; what is sent may get lost. */
  class Udp {
    var sent: seq<seq<byte>>
    var incoming: seq<seq<byte>>
    ghost var trace: seq<Event>

    constructor (incoming: seq<seq<byte>>)
      ensures sent == [] && this.incoming == incoming && trace == []
    {
      sent, this.incoming, trace := [], incoming, [];
    }

    /** What went out is what the calls of Send made of their data, and nothing else. */
    ghost predicate Recorded(aes: Aes)
      reads this
    {
      sent == Wire(aes, trace)
    }
  }

  function GotEvents(outcome: Outcome): seq<Event> {
    match outcome
    case Returned(out) => [GotEvent(out)]
    case _ => []
  }

  /** The events of a call of Receive. */
  function ReceiveEvents(c: Channel, run: ReceiveRun): seq<Event> {
    (if run.ack.Some? then SentEvents(c, run.ack.value) else []) + GotEvents(run.outcome)
  }

  lemma WireConcat(aes: Aes, a: seq<Event>, b: seq<Event>)
    ensures Wire(aes, a + b) == Wire(aes, a) + Wire(aes, b)
  {
    FlatMapConcat(DatagramsOf(aes), a, b);
  }

  lemma WireOfSend(aes: Aes, c: Channel, data: seq<byte>)
    ensures Wire(aes, SentEvents(c, data)) == SentDatagrams(aes, c, data)
  {
    FlatMapOne(DatagramsOf(aes), SentEvent(c, data));
  }

  lemma WireOfGot(aes: Aes, outcome: Outcome)
    ensures Wire(aes, GotEvents(outcome)) == []
  {
    if outcome.Returned? {
      FlatMapOne(DatagramsOf(aes), GotEvent(outcome.out));
    } else {
      FlatMapNone(DatagramsOf(aes));
    }
  }

  lemma WireOfReceive(aes: Aes, c: Channel, run: ReceiveRun)
    ensures Wire(aes, ReceiveEvents(c, run)) == if run.ack.Some? then SentDatagrams(aes, c, run.ack.value) else []
  {
    WireOfGot(aes, run.outcome);
    if run.ack.Some? {
      WireOfSend(aes, c, run.ack.value);
      WireConcat(aes, SentEvents(c, run.ack.value), GotEvents(run.outcome));
    } else {
      assert [] + GotEvents(run.outcome) == GotEvents(run.outcome);
    }
  }

  class SecureChannel {
    const aes: Aes
    var udp: Udp?
    var encryptKey: seq<byte>
    var decryptKey: seq<byte>
    var remoteNode: seq<byte>
    var localNode: seq<byte>
    var counter: uint32
    var session: int

    constructor (aes: Aes, udp: Udp?, c: Channel)
      ensures this.aes == aes && this.udp == udp && State() == c
    {
      this.aes, this.udp := aes, udp;
      encryptKey, decryptKey, remoteNode, localNode := c.encryptKey, c.decryptKey, c.remoteNode, c.localNode;
      counter, session := c.counter, c.session;
    }

    function State(): Channel
      reads this
    {
      Channel(encryptKey, decryptKey, remoteNode, localNode, counter, session)
    }

    /** Every call advances the counter, even one that fails. */
    method Send(data: seq<byte>) returns (r: SendResult)
      requires udp != null
      modifies this`counter, udp
      ensures r == ChannelSpec.Send(aes, old(State()), data)
      ensures State() == old(State()).(counter := Next(old(counter)))
      ensures udp.incoming == old(udp.incoming)
      ensures udp.sent == old(udp.sent) + SentDatagrams(aes, old(State()), data)
      ensures udp.trace == old(udp.trace) + SentEvents(old(State()), data)
    {
      ghost var before := State();
      counter := (counter + 1) % TWO_TO_THE_32;
      udp.trace := udp.trace + [SentEvent(before, data)];
      r := BuildDatagram(before, data);
      if r.Sent? {
        udp.sent := udp.sent + [r.datagram];
      }
    }

    /** The datagram, with the counter already advanced. */
    method BuildDatagram(ghost before: Channel, data: seq<byte>) returns (r: SendResult)
      requires State() == before.(counter := Next(before.counter))
      ensures r == ChannelSpec.Send(aes, before, data)
    {
      var buffer := new Buffer([]);
      var msg := new MessageHeader(Header(0, session % TWO_TO_THE_16, 0, counter, SOURCE_NODE, []));
      msg.Encode(buffer);
      var header := buffer.unread;
      assert header == EncodeHeader(SendHeader(before));
      if |encryptKey| == 0 {
        buffer.Write(data);
      } else {
        var sealed := SealData(header, data);
        if !sealed.Sent? {
          return sealed;
        }
        buffer.Write(sealed.datagram);
      }
      return Sent(buffer.unread);
    }

    /** The encrypting branch of Send: cipher and CCM set-up, which may fail, and sealing, which may panic. */
    method SealData(header: seq<byte>, data: seq<byte>) returns (r: SendResult)
      ensures var nonce := MakeNonce(counter, localNode);
              r == if !ValidKeySize(|encryptKey|) || !ValidNonceSize(|nonce|) then SendFailed
                   else
                     var m := Message(TAG_SIZE, 15 - |nonce|, nonce, header, data);
                     if !m.WellFormed() then SendPanicked else Sent(CcmSpec.Seal(aes(encryptKey), m))
    {
      var nonce := MakeNonce(counter, localNode);
      if !ValidKeySize(|encryptKey|) {
        return SendFailed;
      }
      var created := NewCCM(16, aes(encryptKey), TAG_SIZE, |nonce|);
      if !created.Created? {
        return SendFailed;
      }
      var sealed := SealBytes(created.ccm, nonce, data, header);
      return if sealed.None? then SendPanicked else Sent(sealed.value);
    }

    /** One call of Receive: it recurses on standalone acknowledgements, and acknowledges before it decodes. */
    method Receive() returns (r: Outcome)
      requires udp != null
      modifies this`counter, udp
      ensures var run := RunReceive(aes, old(State()), old(udp.incoming));
              && r == run.outcome
              && udp.incoming == old(udp.incoming)[run.consumed..]
              && udp.trace == old(udp.trace) + ReceiveEvents(old(State()), run)
              && match run.ack
                 case None =>
                   State() == old(State()) && udp.sent == old(udp.sent)
                 case Some(ack) =>
                   && State() == old(State()).(counter := Next(old(counter)))
                   && udp.sent == old(udp.sent) + SentDatagrams(aes, old(State()), ack)
      decreases |udp.incoming|
    {
      if |udp.incoming| == 0 {
        return ReceiveFailed;
      }
      var datagram := udp.incoming[0];
      udp.incoming := udp.incoming[1..];
      var processed := ProcessDatagram(datagram);
      match processed {
        case Rejected =>
          r := ReceiveFailed;
        case StandaloneAck(_) =>
          r := Receive();
        case Accepted(h, p, payload) =>
          r := TakeIn(h, p, payload);
      }
    }

    /** Acknowledges a message, and decodes it. */
    method TakeIn(h: Header, p: ProtocolHeader, payload: seq<byte>) returns (r: Outcome)
      requires udp != null
      modifies this`counter, udp
      ensures r == Finish(h, p, payload)
      ensures State() == old(State()).(counter := Next(old(counter))) && udp.incoming == old(udp.incoming)
      ensures udp.sent == old(udp.sent) + SentDatagrams(aes, old(State()), AckMessage(p, h.messageCounter))
      ensures udp.trace == old(udp.trace) + (SentEvents(old(State()), AckMessage(p, h.messageCounter)) + GotEvents(r))
    {
      var ack := AckGen(p, h.messageCounter);
      AckNeverPanics(aes, State(), p, h.messageCounter);
      var sent := Send(ack);
      assert !sent.SendPanicked?;
      r := FinishReceive(h, p, payload);
      udp.trace := udp.trace + GotEvents(r);
    }

    /** Header, decryption, protocol header. */
    method ProcessDatagram(datagram: seq<byte>) returns (r: Processed)
      ensures r == Process(aes, State(), datagram)
    {
      var data := datagram[..Min(|datagram|, RECEIVE_BUFFER)];
      var buffer := new Buffer(data);
      var header := new MessageHeader(NO_HEADER);
      var ignored := header.Decode(buffer);
      HeaderReadShrinks(NO_HEADER, data);
      var added := data[..|data| - |buffer.unread|];
      var plain := Unseal(header.messageCounter, added, buffer.unread);
      if plain.None? {
        return Rejected;
      }
      var rest := new Buffer(plain.value);
      var proto := new ProtocolMessageHeader(NO_PROTOCOL_HEADER);
      proto.Decode(rest);
      if proto.protocolId == 0 && proto.opcode == OPCODE_ACK {
        return StandaloneAck(proto.Value());
      }
      return Accepted(header.Value(), proto.Value(), rest.unread);
    }

    /** The decrypting branch of Receive; without a key the body is left as it is. */
    method Unseal(messageCounter: uint32, header: seq<byte>, body: seq<byte>) returns (r: Option<seq<byte>>)
      ensures r == ChannelSpec.Unseal(aes, State(), messageCounter, header, body)
    {
      if |decryptKey| == 0 {
        return Some(body);
      }
      r := OpenWith(decryptKey, MakeNonce(messageCounter, remoteNode), header, body);
    }

    /** Cipher and CCM set-up, which may fail, and opening. */
    method OpenWith(key: seq<byte>, nonce: seq<byte>, header: seq<byte>, body: seq<byte>) returns (r: Option<seq<byte>>)
      ensures r == if !ValidKeySize(|key|) || !ValidNonceSize(|nonce|) then None
                   else CcmSpec.OpenOption(aes(key), TAG_SIZE, 15 - |nonce|, nonce, body, header)
    {
      if !ValidKeySize(|key|) {
        return None;
      }
      var created := NewCCM(16, aes(key), TAG_SIZE, |nonce|);
      if !created.Created? {
        return None;
      }
      r := OpenBytes(created.ccm, nonce, body, header);
    }

    /** Status reports are parsed field by field; any other payload is decoded as TLV, which may panic. */
    method FinishReceive(h: Header, p: ProtocolHeader, payload: seq<byte>) returns (r: Outcome)
      ensures r == Finish(h, p, payload)
    {
      if p.protocolId == 0 && p.opcode == OPCODE_STATUS_REPORT {
        return Returned(DecodedGeneric(h, p, EMPTY, payload, DecodeStatus(payload)));
      }
      if |payload| == 0 {
        return Returned(DecodedGeneric(h, p, EMPTY, payload, NO_STATUS));
      }
      var item := TlvIO.Decode(payload);
      return if item.None? then ReceivePanicked else Returned(DecodedGeneric(h, p, item.value, payload, NO_STATUS));
    }

    /** Sends a close-session status report, on a channel that has a socket. */
    method Close(exchangeId: uint16)
      modifies this`counter, udp
      ensures udp == null ==> State() == old(State())
      ensures udp != null ==>
                var bye := EncodeStatusReport(StatusReport(0, 0, 3), exchangeId);
                && State() == old(State()).(counter := Next(old(counter)))
                && udp.sent == old(udp.sent) + SentDatagrams(aes, old(State()), bye)
                && udp.trace == old(udp.trace) + SentEvents(old(State()), bye)
                && udp.incoming == old(udp.incoming)
    {
      if udp == null {
        return;
      }
      var sr := EncodeStatusReport(StatusReport(0, 0, 3), exchangeId);
      var r := Send(sr);
    }
  }
}
