/** Commissioning together with a device that does its part, with every datagram that the device sends: it is done,
    whatever result the device reports at the end; and what one unreadable message makes of it. */
module Rehearsal {
  import opened Bytes
  import opened Options
  import opened Tlv
  import opened TlvCodec
  import opened Messages
  import opened Invoke
  import opened ChannelSpec
  import opened SecureChannels
  import opened Conversations
  import opened FlowSpec
  import opened FlowMessages

  // ----- what the device says

  datatype Line = Written(p: ProtocolHeader, t: Tree) | Success

  const OPCODE_INVOKE_RESPONSE: byte := 9

  /** What a device has to say: its PASE parameters and session, its share, a certificate request, Sigma2, the result
      that it reports at the end; and the counters of its channels and the session that it puts into headers. */
  datatype Device = Device(
    iterations: uint64,
    salt: seq<byte>,
    session: uint64,
    share: seq<byte>,
    csr: seq<byte>,
    sigma2: Tree,
    result: uint64,
    counters: nat -> uint32,
    peerSession: int)

  function Parameters(d: Device): Tree {
    Container(AnonStruct, [
      UInt(3, 7, d.session),
      Container(Struct(4), [UInt(1, 7, d.iterations), Octets(2, d.salt)])])
  }

  /** Octets in a structure of their own: a share, or a certificate request. */
  function Share(data: seq<byte>): Tree {
    Container(AnonStruct, [Octets(1, data)])
  }

  function Nocsr(d: Device): Tree {
    Share(d.csr)
  }

  function CsrAnswer(d: Device): Tree {
    AnswerTree(DATA, false, [], [Octets(0, Encode(Nocsr(d)))])
  }

  /** The answer to a command with a common status. */
  function StatusAnswer(n: uint64): Tree {
    ResponseTree(false, [], [CommonStatus(n)])
  }

  function Secure(opcode: byte): ProtocolHeader {
    ProtocolHeader(0, opcode, 0, 0, 0)
  }

  function Reply(t: Tree): Line {
    Written(ProtocolHeader(0, OPCODE_INVOKE_RESPONSE, 0, PROTOCOL_INTERACTION, 0), t)
  }

  /** The answer to question k. */
  function LineOf(d: Device, k: nat): Line {
    match k
    case 0 => Written(Secure(0x21), Parameters(d))
    case 1 => Written(Secure(0x23), Share(d.share))
    case 2 => Success
    case 3 => Reply(CsrAnswer(d))
    case 4 => Reply(StatusAnswer(0))
    case 5 => Reply(ResultAnswer(0))
    case 6 => Written(Secure(0x31), d.sigma2)
    case 7 => Success
    case _ => Reply(ResultAnswer(d.result))
  }

  function HeaderOf(l: Line): ProtocolHeader {
    match l
    case Written(p, _) => p
    case Success => Secure(0x40)
  }

  function PayloadOf(l: Line): seq<byte> {
    match l
    case Written(_, t) => Encode(t)
    case Success => StatusPayload(NO_STATUS)
  }

  function ContentOf(l: Line): Item {
    match l case Written(_, t) => ItemOf(t) case _ => EMPTY
  }

  /** No acknowledgement, readable, and short enough for the receive buffer: 16 bytes of header, 6 of protocol header,
      and 16 of tag beside the payload. */
  ghost predicate Proper(l: Line) {
    && !Acknowledges(HeaderOf(l)) && !IsStandaloneAck(HeaderOf(l)) && HeaderOf(l).ackCounter == 0
    && |PayloadOf(l)| <= 10240 - 38
    && (IsStatusReport(HeaderOf(l)) <==> l.Success?)
    && (l.Written? ==> Representable(l.t))
  }

  /** What the commissioner makes of it. */
  function Read(h: Header, l: Line): DecodedGeneric {
    DecodedGeneric(h, HeaderOf(l), ContentOf(l), PayloadOf(l), NO_STATUS)
  }

  lemma LineRead(h: Header, l: Line)
    requires Proper(l)
    ensures Finish(h, HeaderOf(l), PayloadOf(l)) == Returned(Read(h, l))
  {
    match l {
      case Written(_, t) => MessageRoundTrip(t);
      case Success => StatusRoundTrip(NO_STATUS, []); assert PayloadOf(l) + [] == PayloadOf(l);
    }
  }

  // ----- a commissioner and a device

  datatype Meeting = Meeting(env: Env, controllerId: uint64, deviceId: uint64, device: Device)

  /** The keys of PASE, if the commissioner's context takes what the device sends. */
  function KeysOf(m: Meeting): Option<SpakeKeys> {
    m.env.spake(m.device.salt, m.device.iterations, m.device.share, PbkdfPayload(m.env), Encode(Parameters(m.device)))
  }

  /** The Sigma context, if it takes the device's Sigma2. */
  function SigmaOf(m: Meeting): Made<Sigma3> {
    m.env.sigma3(Read(WireHeader(ClearSide(m.device, 6)), LineOf(m.device, 6)))
  }

  function ClearSide(d: Device, k: nat): Channel {
    Channel([], [], [], [], d.counters(k), 0)
  }

  /** The channel on which the device answers question k: its keys are the commissioner's the other way round. */
  function DeviceSide(m: Meeting, k: nat): Channel {
    var d := m.device;
    if 3 <= k < 6 && KeysOf(m).Some? then
      var keys := KeysOf(m).value;
      Channel(keys.decryptKey, keys.encryptKey, Zeros(8), Zeros(8), d.counters(k), d.peerSession)
    else if k == 8 && SigmaOf(m).Made? then
      var s := SigmaOf(m).value;
      Channel(s.r2i, s.i2r, LittleEndian(m.controllerId, 8), LittleEndian(m.deviceId, 8), d.counters(k), d.peerSession)
    else ClearSide(d, k)
  }

  /** What the commissioner makes of the first n answers. */
  function Answers(m: Meeting, n: nat): (a: seq<DecodedGeneric>)
    ensures |a| == n
    ensures forall i :: 0 <= i < n ==> a[i] == Read(WireHeader(DeviceSide(m, i)), LineOf(m.device, i))
  {
    seq(n, i requires 0 <= i => Read(WireHeader(DeviceSide(m, i)), LineOf(m.device, i)))
  }

  lemma AnswersMore(m: Meeting, k: nat)
    ensures Answers(m, k + 1) == Answers(m, k) + [Read(WireHeader(DeviceSide(m, k)), LineOf(m.device, k))]
  {
  }

  /** The commissioner takes the device's keys, certificate request and Sigma2, and has a root certificate and Sigma1.
      */
  ghost predicate Agree(m: Meeting) {
    && KeysOf(m).Some? && SigmaOf(m).Made?
    && m.env.parseCsr(m.device.csr).EcdsaKey? && m.env.caCertificate.Some? && m.env.sigma1.Some?
    && m.env.signCertificate(m.env.parseCsr(m.device.csr).key, m.deviceId).Made?
  }

  /** Question k is short enough to be sealed. */
  ghost predicate ShortQuestion(m: Meeting, k: nat) {
    |RequestBytes(RequestAt(m.env, m.controllerId, m.deviceId, Answers(m, k)))| <= 0xffff
  }

  /** They agree, and everything is short enough to be sent and received. */
  ghost predicate Serves(m: Meeting) {
    && Agree(m)
    && Representable(m.device.sigma2) && |Encode(m.device.sigma2)| <= 10240 - 38
    && |Encode(Parameters(m.device))| <= 10240 - 38 && |Encode(Share(m.device.share))| <= 10240 - 38
    && |Encode(CsrAnswer(m.device))| <= 10240 - 38
    && forall k: nat :: k < 9 ==> ShortQuestion(m, k)
  }

  // ----- the trees

  lemma OneEncoded(head: Head, t: Tree)
    ensures |Encode(t)| + 2 <= |Encode(Container(head, [t]))| <= |Encode(t)| + 3
  {
    assert [t][1..] == [];
    assert EncodeAll([t]) == Encode(t) + EncodeAll([]);
  }

  lemma TwoEncoded(head: Head, t: Tree, u: Tree)
    ensures var n := |Encode(t)| + |Encode(u)|; n + 2 <= |Encode(Container(head, [t, u]))| <= n + 3
  {
    assert [t, u][1..] == [u] && [u][1..] == [];
    assert EncodeAll([t, u]) == Encode(t) + EncodeAll([u]);
    assert EncodeAll([u]) == Encode(u) + EncodeAll([]);
  }

  lemma OctetsEncoded(tag: byte, data: seq<byte>)
    ensures |data| + 3 <= |Encode(Octets(tag, data))| <= |data| + 4
  {
  }

  lemma AnswerEncoded(kind: byte, t: Tree)
    ensures |Encode(t)| < |Encode(AnswerTree(kind, false, [], [t]))| <= |Encode(t)| + 20
  {
    var list, fields := Container(List(0), []), Container(Struct(1), [t]);
    var answer := CommandAnswer(kind, [], [t]);
    assert |Encode(list)| == 3;
    OneEncoded(Struct(1), t);
    TwoEncoded(Struct(kind), list, fields);
    OneEncoded(AnonStruct, answer);
    OneEncoded(Array(1), Container(AnonStruct, [answer]));
    TwoEncoded(AnonStruct, Bool(0, false), Container(Array(1), [Container(AnonStruct, [answer])]));
  }

  lemma ParametersProper(d: Device)
    requires |Encode(Parameters(d))| <= 10240 - 38
    ensures Representable(Parameters(d))
    ensures GetIntRec(ItemOf(Parameters(d)), [3]) == Some(d.session)
    ensures GetIntRec(ItemOf(Parameters(d)), [4, 1]) == Some(d.iterations)
    ensures GetOctetStringRec(ItemOf(Parameters(d)), [4, 2]) == d.salt
  {
    var session, iterations, salt := UInt(3, 7, d.session), UInt(1, 7, d.iterations), Octets(2, d.salt);
    var inner := Container(Struct(4), [iterations, salt]);
    OctetsEncoded(2, d.salt);
    TwoEncoded(Struct(4), iterations, salt);
    TwoEncoded(AnonStruct, session, inner);
    TwoItems(iterations, salt);
    TwoItems(session, inner);
    ParametersRead(d, session, iterations, salt, inner);
  }

  lemma ParametersRead(d: Device, session: Tree, iterations: Tree, salt: Tree, inner: Tree)
    requires session == UInt(3, 7, d.session) && iterations == UInt(1, 7, d.iterations) && salt == Octets(2, d.salt)
    requires inner == Container(Struct(4), [iterations, salt])
    ensures GetIntRec(ItemOf(Parameters(d)), [3]) == Some(d.session)
    ensures GetIntRec(ItemOf(Parameters(d)), [4, 1]) == Some(d.iterations)
    ensures GetOctetStringRec(ItemOf(Parameters(d)), [4, 2]) == d.salt
  {
    TwoItems(session, inner);
    Pow256Values();
    NumberField(AnonStruct, [session, inner], 0, 3, 7, d.session);
    NumberField(Struct(4), [iterations, salt], 0, 1, 7, d.iterations);
    OctetsField(Struct(4), [iterations, salt], 1, 2, d.salt);
    Down(ItemOf(Parameters(d)), 1, 4, [1], GetItemRec(ItemOf(inner), [1]));
    Down(ItemOf(Parameters(d)), 1, 4, [2], GetItemRec(ItemOf(inner), [2]));
    assert [4] + [1] == [4, 1] && [4] + [2] == [4, 2];
  }

  lemma ShareProper(data: seq<byte>)
    requires |Encode(Share(data))| <= 10240 - 38
    ensures Representable(Share(data)) && GetOctetStringRec(ItemOf(Share(data)), [1]) == data
    ensures DecodeFirst(Encode(Share(data))) == Got(ItemOf(Share(data)), [])
  {
    OctetsEncoded(1, data);
    OneEncoded(AnonStruct, Octets(1, data));
    OneItem(Octets(1, data));
    OctetsField(AnonStruct, [Octets(1, data)], 0, 1, data);
    MessageRoundTrip(Share(data));
  }

  lemma CsrProper(d: Device)
    requires |Encode(CsrAnswer(d))| <= 10240 - 38
    ensures Representable(CsrAnswer(d))
    ensures GetOctetStringRec(ItemOf(CsrAnswer(d)), RESULT_PATH) == Encode(Nocsr(d))
    ensures |Encode(Nocsr(d))| > 0 && DecodeFirst(Encode(Nocsr(d))) == Got(ItemOf(Nocsr(d)), [])
    ensures GetOctetStringRec(ItemOf(Nocsr(d)), [1]) == d.csr
  {
    var t := Octets(0, Encode(Nocsr(d)));
    OctetsEncoded(0, Encode(Nocsr(d)));
    AnswerEncoded(DATA, t);
    ShareProper(d.csr);
    OneItem(t);
    OctetsField(Struct(1), [t], 0, 0, Encode(Nocsr(d)));
    AnswerRepresentable(DATA, false, [], [t]);
    FieldLookup(DATA, false, [], [t], 0);
  }

  lemma StatusProper(n: uint64)
    ensures Representable(StatusAnswer(n)) && |Encode(StatusAnswer(n))| <= 10240 - 38
    ensures ParseImInvokeResponse(ItemOf(StatusAnswer(n))) == 0 <==> n == 0
  {
    CommonNumber(n);
    AnswerEncoded(STATUS, CommonStatus(n));
    AnswerRepresentable(STATUS, false, [], [CommonStatus(n)]);
    FieldLookup(STATUS, false, [], [CommonStatus(n)], 0);
    FieldLookup(STATUS, false, [], [CommonStatus(n)], 1);
    NoSecondNumber(n);
    ParseByLookups(ItemOf(StatusAnswer(n)), Some(n), None);
  }

  lemma NoSecondNumber(n: uint64)
    ensures StatusNumber([CommonStatus(n)], 1) == None
  {
    OneItem(CommonStatus(n));
  }

  lemma ResultProper(n: uint64)
    ensures Representable(ResultAnswer(n)) && |Encode(ResultAnswer(n))| <= 10240 - 38
    ensures GetIntRec(ItemOf(ResultAnswer(n)), RESULT_PATH) == Some(n)
  {
    CommonNumber(n);
    AnswerEncoded(DATA, UInt(0, 7, n));
    AnswerRepresentable(DATA, false, [], [UInt(0, 7, n)]);
    FieldLookup(DATA, false, [], [UInt(0, 7, n)], 0);
  }

  lemma WrittenProper(p: ProtocolHeader, t: Tree)
    requires !Acknowledges(p) && !IsStandaloneAck(p) && p.ackCounter == 0 && !IsStatusReport(p)
    requires Representable(t) && |Encode(t)| <= 10240 - 38
    ensures Proper(Written(p, t))
  {
  }

  lemma ReplyProper(t: Tree)
    requires Representable(t) && |Encode(t)| <= 10240 - 38
    ensures Proper(Reply(t))
  {
    WrittenProper(ProtocolHeader(0, OPCODE_INVOKE_RESPONSE, 0, PROTOCOL_INTERACTION, 0), t);
  }

  lemma StatusLine(n: uint64)
    ensures Proper(Reply(StatusAnswer(n)))
  {
    StatusProper(n);
    ReplyProper(StatusAnswer(n));
  }

  lemma ResultLine(n: uint64)
    ensures Proper(Reply(ResultAnswer(n)))
  {
    ResultProper(n);
    ReplyProper(ResultAnswer(n));
  }

  lemma PaseLines(d: Device, k: nat)
    requires k < 3 && |Encode(Parameters(d))| <= 10240 - 38 && |Encode(Share(d.share))| <= 10240 - 38
    ensures Proper(LineOf(d, k))
  {
    if k == 0 {
      ParametersProper(d);
      WrittenProper(Secure(0x21), Parameters(d));
    } else if k == 1 {
      ShareProper(d.share);
      WrittenProper(Secure(0x23), Share(d.share));
    }
  }

  lemma CommandLines(d: Device, k: nat)
    requires 3 <= k < 6 && |Encode(CsrAnswer(d))| <= 10240 - 38
    ensures Proper(LineOf(d, k))
  {
    if k == 3 {
      CsrProper(d);
      ReplyProper(CsrAnswer(d));
    } else if k == 4 {
      StatusLine(0);
    } else {
      ResultLine(0);
    }
  }

  lemma CaseLines(d: Device, k: nat)
    requires 6 <= k && Representable(d.sigma2) && |Encode(d.sigma2)| <= 10240 - 38
    ensures Proper(LineOf(d, k))
  {
    if k == 6 {
      WrittenProper(Secure(0x31), d.sigma2);
    } else if k > 7 {
      ResultLine(d.result);
    }
  }

  lemma LinesProper(m: Meeting, k: nat)
    requires Serves(m)
    ensures Proper(LineOf(m.device, k))
  {
    if k < 3 {
      PaseLines(m.device, k);
    } else if k < 6 {
      CommandLines(m.device, k);
    } else {
      CaseLines(m.device, k);
    }
  }

  // ----- the datagrams

  function DatagramOf(aes: Aes, c: Channel, p: ProtocolHeader, payload: seq<byte>): seq<byte> {
    match Send(aes, c, EncodeMessage(p, payload)) case Sent(datagram) => datagram case _ => []
  }

  /** The datagram with the answer to question k. */
  function Saying(m: Meeting): nat -> seq<byte> {
    k => DatagramOf(m.env.aes, DeviceSide(m, k), HeaderOf(LineOf(m.device, k)), PayloadOf(LineOf(m.device, k)))
  }

  /** Those with the answers to questions k to n - 1. */
  function Told(say: nat -> seq<byte>, k: nat, n: nat): seq<seq<byte>>
    decreases n - k
  {
    if k >= n then [] else [say(k)] + Told(say, k + 1, n)
  }

  function AnswersOf(m: Meeting): nat -> seq<DecodedGeneric> {
    (n: nat) => Answers(m, n)
  }

  /** A short message on the other end's channel is the answer to a question. */
  lemma MessageHeard(aes: Aes, c: Channel, request: seq<byte>, device: Channel, p: ProtocolHeader, payload: seq<byte>,
                     more: seq<seq<byte>>)
    requires Mirrored(device, c) && !Send(aes, c, request).SendPanicked?
    requires !Acknowledges(p) && !IsStandaloneAck(p) && p.ackCounter == 0 && |payload| <= 10240 - 38
    ensures Heard(aes, c, request, [DatagramOf(aes, device, p, payload)] + more) ==
            Answer(Finish(WireHeader(device), p, payload), more)
  {
    var incoming := [DatagramOf(aes, device, p, payload)] + more;
    SendSucceeds(aes, device, EncodeMessage(p, payload));
    ReceiveReturnsSent(aes, device, c, p, payload, more);
    ReceiveAnswers(aes, c, incoming);
    assert incoming[1..] == more;
  }

  lemma LineHeard(aes: Aes, c: Channel, request: seq<byte>, device: Channel, l: Line, more: seq<seq<byte>>)
    requires Mirrored(device, c) && !Send(aes, c, request).SendPanicked? && Proper(l)
    ensures Heard(aes, c, request, [DatagramOf(aes, device, HeaderOf(l), PayloadOf(l))] + more) ==
            Answer(Returned(Read(WireHeader(device), l)), more)
  {
    MessageHeard(aes, c, request, device, HeaderOf(l), PayloadOf(l), more);
    LineRead(WireHeader(device), l);
  }

  // ----- question by question

  lemma PaseMirrored(m: Meeting, response: DecodedGeneric, pake2: DecodedGeneric, k: nat)
    requires Serves(m) && 3 <= k < 8
    requires response.tlv == ItemOf(Parameters(m.device)) && response.payload == Encode(Parameters(m.device))
    requires pake2.tlv == ItemOf(Share(m.device.share))
    ensures var c := PaseChannel(m.env, response, pake2);
            if k < 6 then Mirrored(DeviceSide(m, k), c) && CanSend(c)
            else Mirrored(DeviceSide(m, k), Cleared(c)) && CanSend(Cleared(c))
  {
    ParametersProper(m.device);
    ShareProper(m.device.share);
  }

  lemma CaseMirrored(m: Meeting, sigma2: DecodedGeneric)
    requires SigmaOf(m).Made? && m.env.sigma3(sigma2) == SigmaOf(m)
    ensures var c := CaseChannel(m.env, m.controllerId, m.deviceId, sigma2);
            Mirrored(DeviceSide(m, 8), c) && CanSend(c)
  {
    CaseMirrors(m.env, m.controllerId, m.deviceId, sigma2, SigmaOf(m).value, m.device.counters(8),
                m.device.peerSession);
  }

  lemma ChannelMirrored(m: Meeting, k: nat)
    requires Serves(m) && k < 9
    ensures var c := ChannelAt(m.env, m.controllerId, m.deviceId, Answers(m, k));
            Mirrored(DeviceSide(m, k), c) && CanSend(c)
  {
    if 3 <= k < 8 {
      PaseMirrored(m, Answers(m, k)[0], Answers(m, k)[1], k);
    } else if k == 8 {
      CaseMirrored(m, Answers(m, k)[6]);
    }
  }

  lemma PaseJudged(m: Meeting, h: Header, h': Header, h'': Header)
    requires Serves(m)
    ensures var d, response := m.device, Read(h, LineOf(m.device, 0));
            && JudgeParameters(response).GoOn? && JudgeShare(m.env, response, Read(h', LineOf(d, 1))).GoOn?
            && JudgeStatus(Read(h'', LineOf(d, 2))).GoOn?
  {
    ParametersProper(m.device);
    ShareProper(m.device.share);
  }

  lemma CsrJudged(m: Meeting, h: Header)
    requires Serves(m)
    ensures var a := Read(h, Reply(CsrAnswer(m.device)));
            JudgeCsr(m.env, a).GoOn? && NocOf(m.env, m.deviceId, a).Made?
  {
    CsrProper(m.device);
  }

  lemma RootJudged(m: Meeting, h: Header, csrAnswer: DecodedGeneric)
    requires NocOf(m.env, m.deviceId, csrAnswer).Made?
    ensures JudgeRoot(m.env, m.deviceId, csrAnswer, Read(h, Reply(StatusAnswer(0)))).GoOn?
  {
    StatusProper(0);
  }

  lemma ResultJudged(m: Meeting, h: Header, n: uint64)
    requires Serves(m)
    ensures n == 0 ==> JudgeNoc(m.env, Read(h, Reply(ResultAnswer(n)))).GoOn?
    ensures JudgeComplete(Read(h, Reply(ResultAnswer(n)))).GoOn?
  {
    ResultProper(n);
  }

  lemma SigmaJudged(m: Meeting, sigma2: DecodedGeneric, h: Header)
    requires SigmaOf(m).Made? && sigma2 == Read(WireHeader(ClearSide(m.device, 6)), LineOf(m.device, 6))
    ensures JudgeSigma2(m.env, sigma2).GoOn? && JudgeResult(Read(h, Success)).GoOn?
  {
  }

  lemma Judged(m: Meeting, k: nat)
    requires Serves(m) && k <= 9
    ensures JudgeAt(m.env, m.deviceId, Answers(m, k)).GoOn?
  {
    var a := Answers(m, k);
    match k {
      case 0 =>
      case 1 => PaseJudged(m, a[0].messageHeader, NO_HEADER, NO_HEADER);
      case 2 => PaseJudged(m, a[0].messageHeader, a[1].messageHeader, NO_HEADER);
      case 3 => PaseJudged(m, a[0].messageHeader, a[1].messageHeader, a[2].messageHeader);
      case 4 => FourthJudge(m.env, m.deviceId, a); CsrJudged(m, a[3].messageHeader);
      case 5 =>
        FifthJudge(m.env, m.deviceId, a);
        CsrJudged(m, a[3].messageHeader);
        RootJudged(m, a[4].messageHeader, a[3]);
      case 6 => SixthJudge(m.env, m.deviceId, a); ResultJudged(m, a[5].messageHeader, 0);
      case 7 => SeventhJudge(m.env, m.deviceId, a); SigmaJudged(m, a[6], NO_HEADER);
      case 8 => EighthJudge(m.env, m.deviceId, a); SigmaJudged(m, a[6], a[7].messageHeader);
      case _ => LastJudge(m.env, m.deviceId, a); ResultJudged(m, a[8].messageHeader, m.device.result);
    }
  }

  lemma Onward(listen: Listener, s: Script, a: seq<DecodedGeneric>, incoming: seq<seq<byte>>, n: nat,
               out: DecodedGeneric, rest: seq<seq<byte>>)
    requires |a| < n && listen(a, incoming) == Answer(Returned(out), rest) && s.judge(a + [out]).GoOn?
    ensures Arrive(listen, s, a, incoming, n) == Arrive(listen, s, a + [out], rest, n)
  {
  }

  /** The answer to question k is heard, and lets the conversation go on. */
  ghost predicate Moves(listen: Listener, s: Script, say: nat -> seq<byte>, a: nat -> seq<DecodedGeneric>, n: nat,
                        k: nat, more: seq<seq<byte>>) {
    Arrive(listen, s, a(k), [say(k)] + more, n) == Arrive(listen, s, a(k + 1), more, n)
  }

  lemma {:induction false} ToldArrives(listen: Listener, s: Script, say: nat -> seq<byte>,
                                       a: nat -> seq<DecodedGeneric>, n: nat, k: nat, more: seq<seq<byte>>)
    requires k <= n && forall i: nat, rest: seq<seq<byte>> :: i < n ==> Moves(listen, s, say, a, n, i, rest)
    ensures Arrive(listen, s, a(k), Told(say, k, n) + more, n) == Arrive(listen, s, a(n), more, n)
    decreases n - k
  {
    if k == n {
      assert [] + more == more;
    } else {
      assert Moves(listen, s, say, a, n, k, Told(say, k + 1, n) + more);
      ToldArrives(listen, s, say, a, n, k + 1, more);
      assert Told(say, k, n) + more == [say(k)] + (Told(say, k + 1, n) + more);
    }
  }

  function ScriptOf(m: Meeting): Script {
    CommissionScript(m.env, m.controllerId, m.deviceId)
  }

  lemma QuestionHeard(m: Meeting, k: nat, more: seq<seq<byte>>)
    requires Serves(m) && k < 9
    ensures Listening(m.env.aes, ScriptOf(m))(Answers(m, k), [Saying(m)(k)] + more) ==
            Answer(Returned(Read(WireHeader(DeviceSide(m, k)), LineOf(m.device, k))), more)
  {
    var s, a := ScriptOf(m), Answers(m, k);
    ChannelMirrored(m, k);
    assert ShortQuestion(m, k);
    SendSucceeds(m.env.aes, s.channel(a), s.request(a));
    LinesProper(m, k);
    LineHeard(m.env.aes, s.channel(a), s.request(a), DeviceSide(m, k), LineOf(m.device, k), more);
  }

  lemma DeviceMoves(m: Meeting, n: nat, k: nat, more: seq<seq<byte>>)
    requires Serves(m) && k < n <= 9
    ensures Moves(Listening(m.env.aes, ScriptOf(m)), ScriptOf(m), Saying(m), AnswersOf(m), n, k, more)
  {
    var out := Read(WireHeader(DeviceSide(m, k)), LineOf(m.device, k));
    QuestionHeard(m, k, more);
    Judged(m, k + 1);
    AnswersMore(m, k);
    Onward(Listening(m.env.aes, ScriptOf(m)), ScriptOf(m), Answers(m, k), [Saying(m)(k)] + more, n, out, more);
  }

  /** The first n answers of the device arrive, whatever comes after them. */
  lemma DeviceArrives(m: Meeting, n: nat, more: seq<seq<byte>>)
    requires Serves(m) && n <= 9
    ensures Arrive(Listening(m.env.aes, ScriptOf(m)), ScriptOf(m), [], Told(Saying(m), 0, n) + more, n) ==
            Some(Arrival(Answers(m, n), more))
  {
    var listen, s, say, a := Listening(m.env.aes, ScriptOf(m)), ScriptOf(m), Saying(m), AnswersOf(m);
    forall i: nat, rest: seq<seq<byte>> | i < n ensures Moves(listen, s, say, a, n, i, rest) {
      DeviceMoves(m, n, i, rest);
    }
    ToldArrives(listen, s, say, a, n, 0, more);
    assert Answers(m, 0) == [];
  }

  // ----- the runs

  function RunOf(m: Meeting, incoming: seq<seq<byte>>): Run {
    Conversation(m.env, m.controllerId, m.deviceId, incoming)
  }

  /** With a device that does its part commissioning is done, and uses up what the device sent; the answers are the
      device's, the result included, be it a failure or not. */
  lemma CommissioningWorks(m: Meeting)
    requires Serves(m)
    ensures var run := RunOf(m, Told(Saying(m), 0, 9));
            && run.r.Done? && run.end.incoming == [] && run.end.answers == Answers(m, 9)
            && GetIntRec(run.end.answers[8].tlv, RESULT_PATH) == Some(m.device.result)
  {
    DeviceArrives(m, 9, []);
    DoneWith(m, Told(Saying(m), 0, 9), Answers(m, 9));
    LastAnswer(m, Answers(m, 9));
  }

  lemma DoneWith(m: Meeting, incoming: seq<seq<byte>>, a: seq<DecodedGeneric>)
    requires Arrive(Listening(m.env.aes, ScriptOf(m)), ScriptOf(m), [], incoming + [], 9) == Some(Arrival(a, []))
    ensures var run := RunOf(m, incoming); run.r.Done? && run.end.incoming == [] && run.end.answers == a
  {
    assert incoming + [] == incoming;
    ListeningHears(m.env.aes, ScriptOf(m));
    ArriveDone(Listening(m.env.aes, ScriptOf(m)), ScriptOf(m), Begin(m.env, incoming));
  }

  lemma LastAnswer(m: Meeting, a: seq<DecodedGeneric>)
    requires |a| == 9 && a[8] == Read(WireHeader(DeviceSide(m, 8)), Reply(ResultAnswer(m.device.result)))
    ensures GetIntRec(a[8].tlv, RESULT_PATH) == Some(m.device.result)
  {
    ResultProper(m.device.result);
  }

  const UNREADABLE: seq<byte> := [END_OF_CONTAINER]

  lemma UnreadablePanics(h: Header, p: ProtocolHeader)
    requires !IsStatusReport(p)
    ensures Finish(h, p, UNREADABLE).ReceivePanicked?
  {
  }

  /** Whatever has been answered up to Sigma1: then a message in the clear whose payload is a lone end byte makes CASE
      panic. */
  lemma UnreadableMakesPanic(env: Env, controllerId: uint64, deviceId: uint64, incoming: seq<seq<byte>>, a: Arrival,
                             p: ProtocolHeader, more: seq<seq<byte>>)
    requires var s := CommissionScript(env, controllerId, deviceId);
             Arrive(Listening(env.aes, s), s, [], incoming, 6) == Some(a)
    requires !Acknowledges(p) && !IsStandaloneAck(p) && !IsStatusReport(p) && p.ackCounter == 0
    requires a.rest == [DatagramOf(env.aes, NO_CHANNEL, p, UNREADABLE)] + more
    ensures PanicsInCase(env, controllerId, deviceId, incoming)
  {
    var s := CommissionScript(env, controllerId, deviceId);
    var c := s.channel(a.answers);
    ClearHeard(env.aes, c, [], a.rest);
    MessageHeard(env.aes, c, [], NO_CHANNEL, p, UNREADABLE, more);
    UnreadablePanics(WireHeader(NO_CHANNEL), p);
  }

  /** The datagrams of six answers, and such a message. */
  function CutOff(m: Meeting): seq<seq<byte>> {
    Told(Saying(m), 0, 6) + [DatagramOf(m.env.aes, NO_CHANNEL, Secure(0x31), UNREADABLE)]
  }

  /** On these Sigma1 and the closing message have the same counter. */
  lemma CounterUsedTwice(m: Meeting)
    requires Serves(m)
    ensures var run := RunOf(m, CutOff(m));
            var bye := Bye(m.env, ScriptOf(m), run);
            && |run.parts| > 6 && run.parts[6] != [] && run.parts[6][0].SentEvent?
            && bye != [] && bye[0].SentEvent? && bye[0].Counter() == run.parts[6][0].Counter()
            && !Numbered(SentAfterPase(m.env, m.controllerId, m.deviceId, run), 0)
  {
    var unreadable := DatagramOf(m.env.aes, NO_CHANNEL, Secure(0x31), UNREADABLE);
    DeviceArrives(m, 6, [unreadable]);
    UnreadableMakesPanic(m.env, m.controllerId, m.deviceId, CutOff(m), Arrival(Answers(m, 6), [unreadable]),
                         Secure(0x31), []);
    ConsecutiveIff(m.env, m.controllerId, m.deviceId, CutOff(m));
  }

  // ----- one such meeting

  function Key(b: byte): SessionKey {
    seq(16, i => b)
  }

  /** A commissioner that takes nothing but what the device of this meeting sends; all keys are different. */
  function Commissioner(aes: Aes): Env {
    Env(aes, 0, (n: nat) => 0, (n: nat) => [n % 0x100],
        (salt, n) => [12],
        (salt, n, share, pbkdf, response) =>
          if salt == [1, 2] && n == 1000 && share == [3] then Some(SpakeKeys([4], Key(5), Key(6))) else None,
        Some([7]), csr => if csr == [8] then EcdsaKey([9]) else CsrError,
        (key, id) => if key == [9] then Made([10]) else Fails, [11],
        Some([13]), (sigma2: DecodedGeneric) =>
          if GetIntRec(sigma2.tlv, [1]) == Some(14) then Made(Sigma3([15], Key(16), Key(17), 18)) else Fails)
  }

  const SIGMA2: Tree := Container(AnonStruct, [UInt(1, 4, 14)])

  /** The device reports failure 1 at the end. */
  function Example(aes: Aes, controllerId: uint64, deviceId: uint64): Meeting {
    Meeting(Commissioner(aes), controllerId, deviceId,
            Device(1000, [1, 2], 19, [3], [8], SIGMA2, 1, (k: nat) => 0, 1))
  }

  lemma Sigma2Proper()
    ensures Representable(SIGMA2) && |Encode(SIGMA2)| <= 10240 - 38 && GetIntRec(ItemOf(SIGMA2), [1]) == Some(14)
  {
    OneEncoded(AnonStruct, UInt(1, 4, 14));
    OneItem(UInt(1, 4, 14));
    Pow256Values();
    NumberField(AnonStruct, [UInt(1, 4, 14)], 0, 1, 4, 14);
  }

  lemma ExampleAgrees(aes: Aes, controllerId: uint64, deviceId: uint64)
    ensures Agree(Example(aes, controllerId, deviceId))
  {
    Sigma2Proper();
  }

  lemma ExampleShort(d: Device)
    requires |d.salt| <= 2 && |d.share| <= 2 && |d.csr| <= 2
    ensures |Encode(Parameters(d))| <= 10240 - 38 && |Encode(Share(d.share))| <= 10240 - 38
    ensures |Encode(CsrAnswer(d))| <= 10240 - 38
  {
    var iterations, salt := UInt(1, 7, d.iterations), Octets(2, d.salt);
    OctetsEncoded(2, d.salt);
    OctetsEncoded(1, d.share);
    OctetsEncoded(1, d.csr);
    TwoEncoded(Struct(4), iterations, salt);
    TwoEncoded(AnonStruct, UInt(3, 7, d.session), Container(Struct(4), [iterations, salt]));
    OneEncoded(AnonStruct, Octets(1, d.share));
    OneEncoded(AnonStruct, Octets(1, d.csr));
    OctetsEncoded(0, Encode(Nocsr(d)));
    AnswerEncoded(DATA, Octets(0, Encode(Nocsr(d))));
  }

  // ----- the questions are short

  lemma OneField(t: Tree)
    ensures EncodeAll([t]) == Encode(t)
  {
    assert [t][1..] == [];
    assert Encode(t) + EncodeAll([]) == Encode(t);
  }

  lemma NocShort(noc: seq<byte>, ipk: seq<byte>, controllerId: uint64)
    ensures |EncodeAll(NocFields(noc, ipk, controllerId))| <= |noc| + |ipk| + 30
  {
    var ts := NocFields(noc, ipk, controllerId);
    assert ts[1..] == [ts[1], ts[2], ts[3]] && ts[1..][1..] == [ts[2], ts[3]] && [ts[2], ts[3]][1..] == [ts[3]];
    OneField(ts[3]);
    assert EncodeAll([ts[2], ts[3]]) == Encode(ts[2]) + EncodeAll([ts[3]]);
    assert EncodeAll(ts[1..]) == Encode(ts[1]) + EncodeAll([ts[2], ts[3]]);
  }

  lemma RequestSize(endpoint: uint16, cluster: uint32, command: uint32, payload: seq<byte>, exchange: uint16)
    ensures |InvokeRequest(endpoint, cluster, command, payload, false, exchange)| == 42 + |payload|
  {
    PathBytes(endpoint, cluster, command);
  }

  function SizeOf(r: Request): nat {
    match r
    case Secure(_, _, payload) => |payload|
    case Invoke(_, _, fields, _) => |fields|
  }

  lemma SizeBounds(r: Request)
    ensures |RequestBytes(r)| <= 42 + SizeOf(r)
  {
    if r.Invoke? {
      RequestSize(0, r.cluster, r.command, r.fields, r.exchange);
    }
  }

  lemma SmallTrees(data: seq<byte>)
    requires |data| <= 1
    ensures |Encode(PakeTree(data))| <= 100 && |Encode(PbkdfTree(data))| <= 100 && |EncodeAll([Octets(0, data)])| <= 100
  {
    var ts := [Octets(1, data), UInt(2, 5, 1), UInt(3, 4, 0), Bool(4, false)];
    OneField(Octets(0, data));
    OneEncoded(AnonStruct, Octets(1, data));
    OneField(ts[3]);
    assert ts[1..] == [ts[1], ts[2], ts[3]] && ts[1..][1..] == [ts[2], ts[3]] && [ts[2], ts[3]][1..] == [ts[3]];
    assert EncodeAll([ts[2], ts[3]]) == Encode(ts[2]) + EncodeAll([ts[3]]);
    assert EncodeAll(ts[1..]) == Encode(ts[1]) + EncodeAll([ts[2], ts[3]]);
    assert EncodeAll(ts) == Encode(ts[0]) + EncodeAll(ts[1..]);
  }

  lemma PaseSizes(aes: Aes, controllerId: uint64, deviceId: uint64, a: seq<DecodedGeneric>)
    requires |a| < 3
    ensures SizeOf(RequestAt(Commissioner(aes), controllerId, deviceId, a)) <= 100
  {
    SmallTrees([0]);
    SmallTrees([4]);
    SmallTrees([12]);
  }

  lemma CommandSizes(aes: Aes, controllerId: uint64, deviceId: uint64, a: seq<DecodedGeneric>)
    requires 3 <= |a| < 6
    ensures SizeOf(RequestAt(Commissioner(aes), controllerId, deviceId, a)) <= 100
  {
    if |a| == 5 {
      NocShort([10], [11], controllerId);
    } else {
      SmallTrees([1]);
      SmallTrees([7]);
    }
  }

  lemma CaseSizes(aes: Aes, controllerId: uint64, deviceId: uint64, a: seq<DecodedGeneric>)
    requires 6 <= |a|
    ensures SizeOf(RequestAt(Commissioner(aes), controllerId, deviceId, a)) <= 100
  {
  }

  lemma QuestionShort(aes: Aes, controllerId: uint64, deviceId: uint64, a: seq<DecodedGeneric>)
    requires |a| < 9
    ensures |RequestBytes(RequestAt(Commissioner(aes), controllerId, deviceId, a))| <= 0xffff
  {
    if |a| < 3 {
      PaseSizes(aes, controllerId, deviceId, a);
    } else if |a| < 6 {
      CommandSizes(aes, controllerId, deviceId, a);
    } else {
      CaseSizes(aes, controllerId, deviceId, a);
    }
    SizeBounds(RequestAt(Commissioner(aes), controllerId, deviceId, a));
  }

  /** So there is one: with keys of every kind that differ, for every block cipher and all node ids. */
  lemma ExampleServes(aes: Aes, controllerId: uint64, deviceId: uint64)
    ensures Serves(Example(aes, controllerId, deviceId))
  {
    var m := Example(aes, controllerId, deviceId);
    ExampleAgrees(aes, controllerId, deviceId);
    ExampleShort(m.device);
    Sigma2Proper();
    forall k: nat | k < 9 ensures ShortQuestion(m, k) {
      QuestionShort(aes, controllerId, deviceId, Answers(m, k));
    }
  }

  /** Commissioning is done with it, although the device reports failure 1. */
  lemma DoneDespiteFailure(aes: Aes, controllerId: uint64, deviceId: uint64)
    ensures var m := Example(aes, controllerId, deviceId);
            var run := RunOf(m, Told(Saying(m), 0, 9));
            run.r.Done? && |run.end.answers| == 9 && GetIntRec(run.end.answers[8].tlv, RESULT_PATH) == Some(1)
  {
    ExampleServes(aes, controllerId, deviceId);
    CommissioningWorks(Example(aes, controllerId, deviceId));
  }
}
