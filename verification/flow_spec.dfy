/** Commissioning as a conversation of nine questions: which they are, on which channel they are put, and after
    which answers; and what an observer can tell about the messages of a run. */
module FlowSpec {
  import opened Bytes
  import opened Options
  import opened Sequences
  import opened Tlv
  import opened TlvCodec
  import opened Messages
  import opened Invoke
  import opened ChannelSpec
  import opened SecureChannels
  import opened Conversations

  // ----- kinds of messages, read off their bytes

  datatype Kind = SecureMessage(opcode: byte) | Command(cluster: nat, command: nat) | Other

  const OPCODE_PBKDF_REQUEST: byte := 0x20
  const OPCODE_PBKDF_RESPONSE: byte := 0x21
  const OPCODE_PAKE1: byte := 0x22
  const OPCODE_PAKE2: byte := 0x23
  const OPCODE_PAKE3: byte := 0x24
  const OPCODE_SIGMA1: byte := 0x30
  const OPCODE_SIGMA2: byte := 0x31
  const OPCODE_SIGMA3: byte := 0x32

  const CLUSTER_CREDENTIALS: uint32 := 0x3e
  const CLUSTER_COMMISSIONING: uint32 := 0x30

  const ACK: Kind := SecureMessage(0x10)
  const CLOSE: Kind := SecureMessage(0x40)
  const PBKDF_REQUEST: Kind := SecureMessage(0x20)
  const PAKE1: Kind := SecureMessage(0x22)
  const PAKE3: Kind := SecureMessage(0x24)
  const SIGMA1: Kind := SecureMessage(0x30)
  const SIGMA3: Kind := SecureMessage(0x32)
  const CSR_REQUEST: Kind := Command(0x3e, 4)
  const ADD_ROOT: Kind := Command(0x3e, 0xb)
  const ADD_NOC: Kind := Command(0x3e, 6)
  const COMPLETE: Kind := Command(0x30, 4)

  /** Protocol and opcode from the protocol header; of an invoke request also the cluster and the command, which
      stand at fixed places in front of the payload. */
  function KindOf(data: seq<byte>): Kind {
    if |data| >= 6 && data[4..6] == [0, 0] then SecureMessage(data[1])
    else if |data| >= 32 && data[1] == OPCODE_INVOKE_REQUEST && data[4..6] == [1, 0] then
      Command(FromLittleEndian(data[22..26]), FromLittleEndian(data[28..32]))
    else Other
  }

  lemma KindOfSecure(p: ProtocolHeader, rest: seq<byte>)
    requires p.protocolId == 0
    ensures KindOf(EncodeProtocolHeader(p) + rest) == SecureMessage(p.opcode)
  {
    var data := EncodeProtocolHeader(p) + rest;
    assert LittleEndian(0, 2) == [0, 0] by { assert LittleEndian(0, 1) == [0] + LittleEndian(0, 0); }
    assert data[4..6] == LittleEndian(p.protocolId, 2);
  }

  /** The first bytes of an invoke request, up to its command number. */
  lemma InvokeBytes(endpoint: uint16, cluster: uint32, command: uint32, payload: seq<byte>, timed: bool)
    ensures var tlv := InvokeTlv(endpoint, cluster, command, payload, timed);
            |tlv| >= 26 && tlv[16..20] == LittleEndian(cluster, 4) && tlv[22..26] == LittleEndian(command, 4)
  {
    PathBytes(endpoint, cluster, command);
    var c, d := LittleEndian(cluster, 4), LittleEndian(command, 4);
    var front := EncodeHead(List(0)) + EncodeUInt(0, 5, endpoint) + [0x26, 1];
    var path := Encode(CommandPath(endpoint, cluster, command));
    assert path == front + c + [0x26, 2] + d + END;
    Placed(Start(timed), path, Fields(payload), Ends(), front, c, d);
  }

  lemma Placed(start: seq<byte>, path: seq<byte>, fields: seq<byte>, ends: seq<byte>, front: seq<byte>, c: seq<byte>,
               d: seq<byte>)
    requires |start| == 7 && |front| == 8 && |c| == |d| == 4
    requires path == front + c + [0x26, 2] + d + END
    ensures var s := start + ([0x15] + (path + fields)) + ends;
            |s| >= 26 && s[16..20] == c && s[22..26] == d
  {
    var rest := fields + ends;
    Surround(start + [0x15], path, rest, front, c, d);
    assert start + ([0x15] + (path + fields)) + ends == start + [0x15] + path + rest;
    TwoFields(start + [0x15] + front, c, [0x26, 2], d, END + rest);
  }

  lemma Surround(head: seq<byte>, path: seq<byte>, rest: seq<byte>, front: seq<byte>, c: seq<byte>, d: seq<byte>)
    requires path == front + c + [0x26, 2] + d + END
    ensures head + path + rest == (head + front) + c + [0x26, 2] + d + (END + rest)
  {
  }

  lemma TwoFields(a: seq<byte>, c: seq<byte>, b: seq<byte>, d: seq<byte>, rest: seq<byte>)
    ensures var s, i, j := a + c + b + d + rest, |a|, |a| + |c| + |b|;
            s[i..i + |c|] == c && s[j..j + |d|] == d
  {
  }

  lemma KindOfInvoke(endpoint: uint16, cluster: uint32, command: uint32, payload: seq<byte>, timed: bool,
                     exchange: uint16)
    ensures KindOf(InvokeRequest(endpoint, cluster, command, payload, timed, exchange)) == Command(cluster, command)
  {
    var data := InvokeRequest(endpoint, cluster, command, payload, timed, exchange);
    var tlv := InvokeTlv(endpoint, cluster, command, payload, timed);
    InvokeBytes(endpoint, cluster, command, payload, timed);
    assert LittleEndian(1, 2) == [1, 0] by { assert LittleEndian(0, 1) == [0] + LittleEndian(0, 0); }
    assert data[4..6] == LittleEndian(1, 2);
    assert data[22..26] == tlv[16..20] && data[28..32] == tlv[22..26];
    Pow256Values();
    LittleEndianRoundTrip(cluster, 4);
    LittleEndianRoundTrip(command, 4);
  }

  // ----- what a run takes from outside

  type SessionKey = s: seq<byte> | |s| == 16 witness Zeros(16)

  /** Something that another part of the program makes, fails to make, or panics over. */
  datatype Made<T> = Made(value: T) | Fails | Panics

  /** What the SPAKE2+ context yields for a commissioner: its confirmation and keys. */
  datatype SpakeKeys = SpakeKeys(confirmation: seq<byte>, encryptKey: SessionKey, decryptKey: SessionKey)

  /** What the Sigma context yields once Sigma2 is in: Sigma3, keys and the session. */
  datatype Sigma3 = Sigma3(payload: seq<byte>, i2r: SessionKey, r2i: SessionKey, session: uint64)

  /** A certificate request: unreadable, with a key that is not an ECDSA key, or with one. */
  datatype Csr = CsrError | OtherKey | EcdsaKey(key: seq<byte>)

  /** Random numbers, cryptography, and the certificate manager; None is a panic. */
  datatype Env = Env(
    aes: Aes,
    startCounter: uint32,
    exchanges: nat -> uint16,
    random: nat -> seq<byte>,
    share: (seq<byte>, uint64) -> seq<byte>,
    spake: (seq<byte>, uint64, seq<byte>, seq<byte>, seq<byte>) -> Option<SpakeKeys>,
    caCertificate: Option<seq<byte>>,
    parseCsr: seq<byte> -> Csr,
    signCertificate: (seq<byte>, uint64) -> Made<seq<byte>>,
    ipk: seq<byte>,
    sigma1: Option<seq<byte>>,
    sigma3: DecodedGeneric -> Made<Sigma3>)

  const NO_CHANNEL: Channel := Channel([], [], [], [], 0, 0)
  const NO_NODE: seq<byte> := Zeros(8)

  /** Where the result of a command stands in its response. */
  const RESULT_PATH: seq<int> := [1, 0, 0, 1, 0]

  // ----- PASE

  function SecureRequest(opcode: byte, exchange: uint16, payload: seq<byte>): seq<byte> {
    EncodeProtocolHeader(ProtocolHeader(5, opcode, exchange, PROTOCOL_SECURE_CHANNEL, 0)) + payload
  }

  function PbkdfTree(random: seq<byte>): Tree {
    Container(AnonStruct, [Octets(1, random), UInt(2, 5, 1), UInt(3, 4, 0), Bool(4, false)])
  }

  function PakeTree(key: seq<byte>): Tree {
    Container(AnonStruct, [Octets(1, key)])
  }

  /** The payload of the parameter request. */
  function PbkdfPayload(env: Env): seq<byte> {
    Encode(PbkdfTree(env.random(0)))
  }

  function Salt(response: DecodedGeneric): seq<byte> {
    GetOctetStringRec(response.tlv, [4, 2])
  }

  function Iterations(response: DecodedGeneric): Option<uint64> {
    GetIntRec(response.tlv, [4, 1])
  }

  function SessionOf(response: DecodedGeneric): Option<uint64> {
    GetIntRec(response.tlv, [3])
  }

  function ShareOf(pake2: DecodedGeneric): seq<byte> {
    GetOctetStringRec(pake2.tlv, [1])
  }

  /** The keys come from the salt, the iterations and the share that were received, and from both payloads of the
      parameter exchange. */
  function PaseKeys(env: Env, response: DecodedGeneric, pake2: DecodedGeneric): Option<SpakeKeys> {
    match Iterations(response)
    case None => None
    case Some(n) => env.spake(Salt(response), n, ShareOf(pake2), PbkdfPayload(env), response.payload)
  }

  function PaseChannel(env: Env, response: DecodedGeneric, pake2: DecodedGeneric): Channel {
    match (PaseKeys(env, response, pake2), SessionOf(response))
    case (Some(keys), Some(session)) => Channel(keys.encryptKey, keys.decryptKey, NO_NODE, NO_NODE, 0, ToInt64(session))
    case _ => NO_CHANNEL
  }

  function JudgeParameters(response: DecodedGeneric): Move {
    if response.protocolHeader.opcode != OPCODE_PBKDF_RESPONSE then GiveUp
    else if Iterations(response).None? || SessionOf(response).None? then GiveUp
    else GoOn
  }

  function JudgeShare(env: Env, response: DecodedGeneric, pake2: DecodedGeneric): Move {
    if pake2.protocolHeader.opcode != OPCODE_PAKE2 then GiveUp
    else if PaseKeys(env, response, pake2).None? then Crash
    else GoOn
  }

  function JudgeStatus(status: DecodedGeneric): Move {
    if status.statusReport.protocolCode != 0 then GiveUp else GoOn
  }

  function Pake1Payload(env: Env, response: DecodedGeneric): seq<byte> {
    match Iterations(response)
    case None => []
    case Some(n) => Encode(PakeTree(env.share(Salt(response), n)))
  }

  function Pake3Payload(env: Env, response: DecodedGeneric, pake2: DecodedGeneric): seq<byte> {
    match PaseKeys(env, response, pake2)
    case None => []
    case Some(keys) => Encode(PakeTree(keys.confirmation))
  }

  // ----- the commands under PASE keys

  function Nocsr(answer: DecodedGeneric): seq<byte> {
    GetOctetStringRec(answer.tlv, RESULT_PATH)
  }

  /** The certificate request in an answer; no such when it cannot be decoded. */
  function CsrOf(env: Env, answer: DecodedGeneric): Option<Csr> {
    match DecodeFirst(Nocsr(answer))
    case Panicked => None
    case Got(elements, _) => Some(env.parseCsr(GetOctetStringRec(elements, [1])))
  }

  function JudgeCsr(env: Env, answer: DecodedGeneric): Move {
    if |Nocsr(answer)| == 0 then GiveUp
    else
      match CsrOf(env, answer)
      case None => Crash
      case Some(csr) => if csr.CsrError? then GiveUp else if env.caCertificate.None? then Crash else GoOn
  }

  /** The operational certificate for the key in the request. */
  function NocOf(env: Env, deviceId: uint64, answer: DecodedGeneric): Made<seq<byte>> {
    match CsrOf(env, answer)
    case Some(EcdsaKey(key)) => env.signCertificate(key, deviceId)
    case _ => Panics
  }

  function MoveOf<T>(m: Made<T>): Move {
    match m case Made(_) => GoOn case Fails => GiveUp case Panics => Crash
  }

  function JudgeRoot(env: Env, deviceId: uint64, csrAnswer: DecodedGeneric, answer: DecodedGeneric): Move {
    if ParseImInvokeResponse(answer.tlv) != 0 then GiveUp else MoveOf(NocOf(env, deviceId, csrAnswer))
  }

  function JudgeNoc(env: Env, answer: DecodedGeneric): Move {
    if GetIntRec(answer.tlv, RESULT_PATH) != Some(0) then GiveUp
    else if env.sigma1.None? then Crash
    else GoOn
  }

  function NocFields(noc: seq<byte>, ipk: seq<byte>, controllerId: uint64): seq<Tree> {
    [Octets(0, noc), Octets(2, ipk), UInt(3, 7, controllerId), UInt(4, 5, 101)]
  }

  function CsrFields(env: Env): seq<byte> {
    EncodeAll([Octets(0, env.random(1))])
  }

  function RootFields(env: Env): seq<byte> {
    match env.caCertificate case None => [] case Some(cert) => EncodeAll([Octets(0, cert)])
  }

  function NocPayload(env: Env, controllerId: uint64, deviceId: uint64, csrAnswer: DecodedGeneric): seq<byte> {
    match NocOf(env, deviceId, csrAnswer)
    case Made(noc) => EncodeAll(NocFields(noc, env.ipk, controllerId))
    case _ => []
  }

  // ----- CASE

  function JudgeSigma2(env: Env, sigma2: DecodedGeneric): Move {
    if IsStatusReport(sigma2.protocolHeader) then GiveUp
    else if sigma2.protocolHeader.opcode != OPCODE_SIGMA2 then GiveUp
    else MoveOf(env.sigma3(sigma2))
  }

  function JudgeResult(result: DecodedGeneric): Move {
    if result.protocolHeader.opcode != OPCODE_STATUS_REPORT then GiveUp
    else if !IsOk(result.statusReport) then GiveUp
    else GoOn
  }

  function JudgeComplete(answer: DecodedGeneric): Move {
    if GetIntRec(answer.tlv, RESULT_PATH).None? then GiveUp else GoOn
  }

  function Sigma1Payload(env: Env): seq<byte> {
    match env.sigma1 case None => [] case Some(payload) => payload
  }

  function Sigma3Payload(env: Env, sigma2: DecodedGeneric): seq<byte> {
    match env.sigma3(sigma2) case Made(s) => s.payload case _ => []
  }

  function CaseChannel(env: Env, controllerId: uint64, deviceId: uint64, sigma2: DecodedGeneric): Channel {
    match env.sigma3(sigma2)
    case Made(s) => CaseKeyed(s, controllerId, deviceId)
    case _ => NO_CHANNEL
  }

  function CaseKeyed(s: Sigma3, controllerId: uint64, deviceId: uint64): Channel {
    Channel(s.i2r, s.r2i, LittleEndian(deviceId, 8), LittleEndian(controllerId, 8), 0, ToInt64(s.session))
  }

  /** The PASE channel without its keys. */
  function Cleared(c: Channel): Channel {
    c.(encryptKey := [], decryptKey := [], session := 0)
  }

  // ----- the whole conversation

  const QUESTIONS: seq<Kind> := [PBKDF_REQUEST, PAKE1, PAKE3, CSR_REQUEST, ADD_ROOT, ADD_NOC, SIGMA1, SIGMA3, COMPLETE]

  /** On which channel question |a| is put, after the answers a. */
  function ChannelAt(env: Env, controllerId: uint64, deviceId: uint64, a: seq<DecodedGeneric>): Channel {
    if |a| < 3 then NO_CHANNEL
    else if |a| < 6 then PaseChannel(env, a[0], a[1])
    else if |a| < 8 then Cleared(PaseChannel(env, a[0], a[1]))
    else CaseChannel(env, controllerId, deviceId, a[6])
  }

  datatype Request =
    | Secure(opcode: byte, exchange: uint16, payload: seq<byte>)
    | Invoke(cluster: uint32, command: uint32, fields: seq<byte>, exchange: uint16)

  /** Commands are on endpoint 0. */
  function RequestBytes(r: Request): seq<byte> {
    match r
    case Secure(opcode, exchange, payload) => SecureRequest(opcode, exchange, payload)
    case Invoke(cluster, command, fields, exchange) => InvokeRequest(0, cluster, command, fields, false, exchange)
  }

  /** Question |a|, after the answers a. */
  function RequestAt(env: Env, controllerId: uint64, deviceId: uint64, a: seq<DecodedGeneric>): Request {
    if |a| == 0 then Secure(OPCODE_PBKDF_REQUEST, env.exchanges(0), PbkdfPayload(env))
    else if |a| == 1 then Secure(OPCODE_PAKE1, env.exchanges(0), Pake1Payload(env, a[0]))
    else if |a| == 2 then Secure(OPCODE_PAKE3, env.exchanges(0), Pake3Payload(env, a[0], a[1]))
    else if |a| == 3 then Invoke(CLUSTER_CREDENTIALS, 4, CsrFields(env), env.exchanges(1))
    else if |a| == 4 then Invoke(CLUSTER_CREDENTIALS, 0xb, RootFields(env), env.exchanges(2))
    else if |a| == 5 then
      Invoke(CLUSTER_CREDENTIALS, 6, NocPayload(env, controllerId, deviceId, a[3]), env.exchanges(3))
    else if |a| == 6 then Secure(OPCODE_SIGMA1, env.exchanges(5), Sigma1Payload(env))
    else if |a| == 7 then Secure(OPCODE_SIGMA3, env.exchanges(5), Sigma3Payload(env, a[6]))
    else Invoke(CLUSTER_COMMISSIONING, 4, [], env.exchanges(6))
  }

  /** What the answer to question |a| - 1 leads to. */
  function JudgeAt(env: Env, deviceId: uint64, a: seq<DecodedGeneric>): Move {
    if |a| == 0 then GoOn
    else if |a| == 1 then JudgeParameters(a[0])
    else if |a| == 2 then JudgeShare(env, a[0], a[1])
    else if |a| == 3 then JudgeStatus(a[2])
    else if |a| == 4 then JudgeCsr(env, a[3])
    else if |a| == 5 then JudgeRoot(env, deviceId, a[3], a[4])
    else if |a| == 6 then JudgeNoc(env, a[5])
    else if |a| == 7 then JudgeSigma2(env, a[6])
    else if |a| == 8 then JudgeResult(a[7])
    else JudgeComplete(a[8])
  }

  lemma FourthJudge(env: Env, deviceId: uint64, a: seq<DecodedGeneric>)
    requires |a| == 4
    ensures JudgeAt(env, deviceId, a) == JudgeCsr(env, a[3])
  {
  }

  lemma FifthJudge(env: Env, deviceId: uint64, a: seq<DecodedGeneric>)
    requires |a| == 5
    ensures JudgeAt(env, deviceId, a) == JudgeRoot(env, deviceId, a[3], a[4])
  {
  }

  lemma SixthJudge(env: Env, deviceId: uint64, a: seq<DecodedGeneric>)
    requires |a| == 6
    ensures JudgeAt(env, deviceId, a) == JudgeNoc(env, a[5])
  {
  }

  lemma SeventhJudge(env: Env, deviceId: uint64, a: seq<DecodedGeneric>)
    requires |a| == 7
    ensures JudgeAt(env, deviceId, a) == JudgeSigma2(env, a[6])
  {
  }

  lemma EighthJudge(env: Env, deviceId: uint64, a: seq<DecodedGeneric>)
    requires |a| == 8
    ensures JudgeAt(env, deviceId, a) == JudgeResult(a[7])
  {
  }

  lemma LastJudge(env: Env, deviceId: uint64, a: seq<DecodedGeneric>)
    requires |a| == 9
    ensures JudgeAt(env, deviceId, a) == JudgeComplete(a[8])
  {
  }

  /** The counter starts over with the PASE keys, and is carried on through CASE. */
  function CommissionScript(env: Env, controllerId: uint64, deviceId: uint64): Script {
    ScriptWith(env, controllerId, deviceId, Asking(env.aes))
  }

  function ScriptWith(env: Env, controllerId: uint64, deviceId: uint64, ask: Asker): Script {
    Script(
      ask,
      9,
      a => ChannelAt(env, controllerId, deviceId, a),
      a => RequestBytes(RequestAt(env, controllerId, deviceId, a)),
      a => JudgeAt(env, deviceId, a),
      3, 6)
  }

  function Begin(env: Env, incoming: seq<seq<byte>>): State {
    State([], env.startCounter, 0, incoming)
  }

  /** The run for these arriving datagrams. */
  function Conversation(env: Env, controllerId: uint64, deviceId: uint64, incoming: seq<seq<byte>>): Run {
    Converse(CommissionScript(env, controllerId, deviceId), Begin(env, incoming))
  }

  /** What the caller's variable holds when the deferred Close runs; None is a channel without a socket. An error in
      one of the two exchanges leaves such a one. A panic leaves the variable as it was before the exchange: without
      a counter in PASE, with the one that CASE started from in CASE. */
  function ClosingChannel(s: Script, run: Run): Option<Channel> {
    var asked, a := |run.parts|, run.end.answers;
    if asked <= 3 then (if run.r.Error? then None else Some(NO_CHANNEL))
    else if asked <= 8 && |a| >= 6 && (asked > 6 || run.r.Panic?) then
      (if run.r.Error? then None else Some(s.channel(a[..6]).(counter := run.end.kept)))
    else Some(s.channel(a[..Min(asked - 1, |a|)]).(counter := run.end.counter))
  }

  function CloseMessage(env: Env): seq<byte> {
    EncodeStatusReport(StatusReport(0, 0, 3), env.exchanges(7))
  }

  function Bye(env: Env, s: Script, run: Run): seq<Event> {
    match ClosingChannel(s, run)
    case None => []
    case Some(c) => SentEvents(c, CloseMessage(env))
  }

  // ----- what is asked, under which key, and after which answers

  lemma SecureKind(opcode: byte, exchange: uint16, payload: seq<byte>)
    ensures KindOf(SecureRequest(opcode, exchange, payload)) == SecureMessage(opcode)
  {
    KindOfSecure(ProtocolHeader(5, opcode, exchange, PROTOCOL_SECURE_CHANNEL, 0), payload);
  }

  lemma AckKind(data: seq<byte>)
    requires IsAck(data)
    ensures KindOf(data) == ACK
  {
    var p: ProtocolHeader, counter: uint32 :| data == AckMessage(p, counter);
    KindOfSecure(AckHeader(p, counter), LittleEndian(counter, 4));
  }

  lemma CloseKind(env: Env)
    ensures KindOf(CloseMessage(env)) == CLOSE
  {
    KindOfSecure(StatusReportHeader(env.exchanges(7)), StatusPayload(StatusReport(0, 0, 3)));
  }

  /** The questions are of the kinds that the list says. */
  lemma RequestKind(env: Env, controllerId: uint64, deviceId: uint64, a: seq<DecodedGeneric>)
    requires |a| < 9
    ensures KindOf(RequestBytes(RequestAt(env, controllerId, deviceId, a))) == QUESTIONS[|a|]
  {
    KindOfRequest(RequestAt(env, controllerId, deviceId, a));
  }

  lemma KindOfRequest(r: Request)
    ensures KindOf(RequestBytes(r)) == match r case Secure(opcode, _, _) => SecureMessage(opcode)
                                               case Invoke(cluster, command, _, _) => Kind.Command(cluster, command)
  {
    match r {
      case Secure(opcode, exchange, payload) => SecureKind(opcode, exchange, payload);
      case Invoke(cluster, command, fields, exchange) => KindOfInvoke(0, cluster, command, fields, false, exchange);
    }
  }

  /** The answers before question k were such that it was put. */
  ghost predicate Allowed(env: Env, deviceId: uint64, a: seq<DecodedGeneric>, k: nat) {
    k <= |a| && forall j :: 0 < j <= k ==> JudgeAt(env, deviceId, a[..j]).GoOn?
  }

  /** The key of a question: none in the two exchanges; for the commands the one that the first and the second answer
      lead to; for the completion the one that the answer to Sigma1 leads to. */
  ghost predicate KeyAt(env: Env, a: seq<DecodedGeneric>, k: nat, key: seq<byte>)
    requires k <= |a|
  {
    if 3 <= k < 6 then
      PaseKeys(env, a[0], a[1]).Some? && key == PaseKeys(env, a[0], a[1]).value.encryptKey && |key| == 16
    else if k == 8 then env.sigma3(a[6]).Made? && key == env.sigma3(a[6]).value.i2r && |key| == 16
    else key == []
  }

  lemma ChannelKey(env: Env, controllerId: uint64, deviceId: uint64, a: seq<DecodedGeneric>, k: nat)
    requires Allowed(env, deviceId, a, k) && k < 9
    ensures KeyAt(env, a, k, ChannelAt(env, controllerId, deviceId, a[..k]).encryptKey)
  {
    if 3 <= k < 6 {
      assert JudgeAt(env, deviceId, a[..1]).GoOn? && JudgeAt(env, deviceId, a[..2]).GoOn?;
      PaseChannelKey(env, a[0], a[1]);
    } else if k == 8 {
      SeventhJudge(env, deviceId, a[..7]);
    }
  }

  lemma PaseChannelKey(env: Env, response: DecodedGeneric, pake2: DecodedGeneric)
    requires JudgeParameters(response).GoOn? && JudgeShare(env, response, pake2).GoOn?
    ensures PaseKeys(env, response, pake2).Some?
    ensures PaseChannel(env, response, pake2).encryptKey == PaseKeys(env, response, pake2).value.encryptKey
  {
  }

  /** What every run keeps: its parts are the questions in order, and its counters are consecutive after PASE. */
  ghost predicate CommissionRun(env: Env, controllerId: uint64, deviceId: uint64, run: Run) {
    var s := CommissionScript(env, controllerId, deviceId);
    InOrder(s, 0, run) && Restarted(s, 0, run)
  }

  lemma ConversationIsRun(env: Env, controllerId: uint64, deviceId: uint64, incoming: seq<seq<byte>>)
    ensures CommissionRun(env, controllerId, deviceId, Conversation(env, controllerId, deviceId, incoming))
  {
    var s := CommissionScript(env, controllerId, deviceId);
    AskingIsRegular(env.aes);
    RunInOrder(s, Begin(env, incoming));
    RunRestarts(s, Begin(env, incoming));
  }

  /** Part k of a run: its question is the k-th, put after the answers that allow it; besides it there are at most an
      acknowledgement and an answer; all of it is on the channel of that question. */
  lemma PartOfRun(env: Env, controllerId: uint64, deviceId: uint64, run: Run, k: nat, i: nat)
    requires CommissionRun(env, controllerId, deviceId, run)
    requires k < |run.parts| && i < |run.parts[k]| && run.parts[k][i].SentEvent?
    ensures var e := run.parts[k][i];
            && k < 9 && Allowed(env, deviceId, run.end.answers, k)
            && SameButCounter(ChannelAt(env, controllerId, deviceId, run.end.answers[..k]), e.chan)
            && KeyAt(env, run.end.answers, k, e.Key())
            && KindOf(e.data) == (if i == 0 then QUESTIONS[k] else ACK)
            && (i == 0 ==> e.data == RequestBytes(RequestAt(env, controllerId, deviceId, run.end.answers[..k])))
  {
    var s, a := CommissionScript(env, controllerId, deviceId), run.end.answers;
    InOrderAllowed(env, controllerId, deviceId, run, k);
    assert IsPart(s, a[..k], run.parts[k]);
    ChannelKey(env, controllerId, deviceId, a, k);
    RequestKind(env, controllerId, deviceId, a[..k]);
    if i > 0 {
      AckKind(run.parts[k][i].data);
    }
  }

  lemma InOrderAllowed(env: Env, controllerId: uint64, deviceId: uint64, run: Run, k: nat)
    requires InOrder(CommissionScript(env, controllerId, deviceId), 0, run) && k < |run.parts|
    ensures k < 9 && Allowed(env, deviceId, run.end.answers, k)
  {
    var s, a := CommissionScript(env, controllerId, deviceId), run.end.answers;
    forall j | 0 < j <= k ensures JudgeAt(env, deviceId, a[..j]).GoOn? {
      assert s.judge(a[..j]).GoOn?;
    }
  }

  /** An event of a run: a call of Send in one of its parts. */
  ghost predicate SentIn(run: Run, k: nat, e: Event) {
    k < |run.parts| && e in run.parts[k] && e.SentEvent?
  }

  lemma SentOfRun(env: Env, controllerId: uint64, deviceId: uint64, run: Run, k: nat, e: Event)
    requires CommissionRun(env, controllerId, deviceId, run) && SentIn(run, k, e)
    ensures && k < 9 && Allowed(env, deviceId, run.end.answers, k) && KeyAt(env, run.end.answers, k, e.Key())
            && KindOf(e.data) in {QUESTIONS[k], ACK}
  {
    var part := run.parts[k];
    var i :| 0 <= i < |part| && part[i] == e;
    PartOfRun(env, controllerId, deviceId, run, k, i);
  }

  /** Certificate request, AddTrustedRoot and AddNOC are sent under the key that the first two answers lead to. */
  lemma CertificateMessages(env: Env, controllerId: uint64, deviceId: uint64, run: Run, k: nat, e: Event)
    requires CommissionRun(env, controllerId, deviceId, run) && SentIn(run, k, e)
    requires KindOf(e.data) in {CSR_REQUEST, ADD_ROOT, ADD_NOC}
    ensures var a := run.end.answers;
            && 3 <= k < 6 && |a| >= 3 && PaseKeys(env, a[0], a[1]).Some?
            && e.Key() == PaseKeys(env, a[0], a[1]).value.encryptKey && |e.Key()| == 16
  {
    SentOfRun(env, controllerId, deviceId, run, k, e);
  }

  /** The questions of the two exchanges are in the clear, and no others. */
  lemma ClearIff(env: Env, controllerId: uint64, deviceId: uint64, run: Run, k: nat, e: Event)
    requires CommissionRun(env, controllerId, deviceId, run) && SentIn(run, k, e)
    ensures k < 9 && KindOf(e.data) in {QUESTIONS[k], ACK}
    ensures e.Key() == [] <==> k < 3 || 6 <= k < 8
  {
    SentOfRun(env, controllerId, deviceId, run, k, e);
  }

  /** The PASE messages are sent in the clear, in front of everything sealed. */
  lemma PaseMessages(env: Env, controllerId: uint64, deviceId: uint64, run: Run,
                     k: nat, e: Event, k': nat, e': Event)
    requires CommissionRun(env, controllerId, deviceId, run) && SentIn(run, k, e)
    requires SentIn(run, k', e')
    requires KindOf(e.data) in {PBKDF_REQUEST, PAKE1, PAKE3} && e'.Key() != []
    ensures e.Key() == [] && k < k'
  {
    ClearIff(env, controllerId, deviceId, run, k, e);
    ClearIff(env, controllerId, deviceId, run, k', e');
  }

  /** Both Sigma messages are sent in the clear, after an answer to AddTrustedRoot and one to AddNOC that the code takes
      for successes. */
  lemma SigmaMessages(env: Env, controllerId: uint64, deviceId: uint64, run: Run, k: nat, e: Event)
    requires CommissionRun(env, controllerId, deviceId, run) && SentIn(run, k, e)
    requires KindOf(e.data) in {SIGMA1, SIGMA3}
    ensures var a := run.end.answers;
            && 6 <= k < 8 && e.Key() == [] && |a| >= 6
            && ParseImInvokeResponse(a[4].tlv) == 0 && GetIntRec(a[5].tlv, RESULT_PATH) == Some(0)
  {
    SentOfRun(env, controllerId, deviceId, run, k, e);
    CertificatesIn(env, deviceId, run.end.answers, k);
  }

  lemma CertificatesIn(env: Env, deviceId: uint64, a: seq<DecodedGeneric>, k: nat)
    requires Allowed(env, deviceId, a, k) && k >= 6
    ensures ParseImInvokeResponse(a[4].tlv) == 0 && GetIntRec(a[5].tlv, RESULT_PATH) == Some(0)
  {
    FifthJudge(env, deviceId, a[..5]);
    SixthJudge(env, deviceId, a[..6]);
  }

  /** CommissioningComplete is sent under the key that the answer to Sigma1 leads to, after an answer to Sigma3 with the
      opcode of a status report and no failure code. */
  lemma CompletionMessage(env: Env, controllerId: uint64, deviceId: uint64, run: Run, k: nat, e: Event)
    requires CommissionRun(env, controllerId, deviceId, run) && SentIn(run, k, e)
    requires KindOf(e.data) == COMPLETE
    ensures var a := run.end.answers;
            && k == 8 && |a| >= 8 && env.sigma3(a[6]).Made? && e.Key() == env.sigma3(a[6]).value.i2r && |e.Key()| == 16
            && a[7].protocolHeader.opcode == OPCODE_STATUS_REPORT && IsOk(a[7].statusReport)
  {
    SentOfRun(env, controllerId, deviceId, run, k, e);
    ResultIn(env, deviceId, run.end.answers, k);
  }

  lemma ResultIn(env: Env, deviceId: uint64, a: seq<DecodedGeneric>, k: nat)
    requires Allowed(env, deviceId, a, k) && k >= 8
    ensures a[7].protocolHeader.opcode == OPCODE_STATUS_REPORT && IsOk(a[7].statusReport)
  {
    EighthJudge(env, deviceId, a[..8]);
  }

  // ----- counters

  /** From the certificate request on, over both keys and the messages in the clear in between, every call of Send uses
      the counter of the one before plus one, beginning with 1. */
  lemma CountersAfterPase(env: Env, controllerId: uint64, deviceId: uint64, run: Run)
    requires CommissionRun(env, controllerId, deviceId, run) && |run.parts| > 3
    ensures var counters := Counters(Flat(run.parts[3..]));
            && counters == seq(|counters|, i => i + 1) && |counters| <= 12 && run.end.counter == |counters|
  {
    SmallCounters(Counters(Flat(run.parts[3..])));
  }

  lemma SmallCounters(counters: seq<uint32>)
    requires Consecutive(counters, 0) && |counters| < TWO_TO_THE_32
    ensures counters == seq(|counters|, i => i + 1) && Advanced(0, |counters|) == |counters|
  {
    AdvancedSmall(|counters|);
    forall i | 0 <= i < |counters| ensures counters[i] == i + 1 {
      AdvancedSmall(i + 1);
    }
  }

  /** In PASE they are consecutive too, from the random start on. */
  lemma CountersOfPase(env: Env, controllerId: uint64, deviceId: uint64, incoming: seq<seq<byte>>)
    ensures Started(3, env.startCounter, Conversation(env, controllerId, deviceId, incoming).parts)
  {
    AskingIsRegular(env.aes);
    FirstThree(CommissionScript(env, controllerId, deviceId), Begin(env, incoming));
  }

  lemma FirstThree(s: Script, st: State)
    requires Regular(s.ask) && s.restart == 3 && s.length == 9 && |st.answers| == 0
    ensures Started(3, st.counter, Converse(s, st).parts)
  {
    RunStarts(s, st);
  }

  /** So no two calls of Send after PASE have the same nonce counter. */
  lemma CountersRise(env: Env, controllerId: uint64, deviceId: uint64, run: Run, i: nat, j: nat)
    requires CommissionRun(env, controllerId, deviceId, run) && |run.parts| > 3
    requires i < j < |Counters(Flat(run.parts[3..]))|
    ensures Counters(Flat(run.parts[3..]))[i] < Counters(Flat(run.parts[3..]))[j]
  {
    CountersAfterPase(env, controllerId, deviceId, run);
  }

  /** Everything that is sent after PASE, the closing message included. */
  function SentAfterPase(env: Env, controllerId: uint64, deviceId: uint64, run: Run): seq<Event>
    requires |run.parts| > 3
  {
    Flat(run.parts[3..]) + Bye(env, CommissionScript(env, controllerId, deviceId), run)
  }

  /** The deferred Close goes on with these counters, except after a panic in the CASE exchange: then it runs on the
      channel from before the exchange, and uses the counter of Sigma1 again. */
  lemma ClosingCounter(env: Env, controllerId: uint64, deviceId: uint64, run: Run)
    requires CommissionRun(env, controllerId, deviceId, run) && |run.parts| > 3
    requires Bye(env, CommissionScript(env, controllerId, deviceId), run) != []
    ensures var bye := Bye(env, CommissionScript(env, controllerId, deviceId), run);
            && (Numbered(SentAfterPase(env, controllerId, deviceId, run), 0) <==> !InCasePanic(run))
            && (InCasePanic(run) ==>
                  && run.parts[6] != [] && run.parts[6][0].SentEvent?
                  && bye[0].Counter() == run.parts[6][0].Counter())
  {
    var c := ClosingChannel(CommissionScript(env, controllerId, deviceId), run).value;
    ClosingChannelCounter(env, controllerId, deviceId, run, c);
    OneMore(Flat(run.parts[3..]), c, CloseMessage(env), 0);
  }

  /** The counter of the channel that is closed. */
  lemma ClosingChannelCounter(env: Env, controllerId: uint64, deviceId: uint64, run: Run, c: Channel)
    requires CommissionRun(env, controllerId, deviceId, run) && |run.parts| > 3
    requires ClosingChannel(CommissionScript(env, controllerId, deviceId), run) == Some(c)
    ensures var n := |Counters(Flat(run.parts[3..]))|;
            && (c.counter == Advanced(0, n) <==> !InCasePanic(run))
            && (InCasePanic(run) ==>
                  && run.parts[6] != [] && run.parts[6][0].SentEvent?
                  && Next(c.counter) == run.parts[6][0].Counter())
  {
    CountersAfterPase(env, controllerId, deviceId, run);
    if InCasePanic(run) {
      SigmaCounter(env, controllerId, deviceId, run);
    } else if |run.parts| == 6 {
      assert run.parts[3..6] == run.parts[3..];
    }
  }

  /** Sigma1 follows on the counter that was kept. */
  lemma SigmaCounter(env: Env, controllerId: uint64, deviceId: uint64, run: Run)
    requires CommissionRun(env, controllerId, deviceId, run) && |run.parts| > 6
    ensures run.parts[6] != [] && run.parts[6][0].SentEvent?
    ensures run.parts[6][0].Counter() == Next(run.end.kept)
    ensures run.end.kept < |Counters(Flat(run.parts[3..]))|
  {
    var s, later := CommissionScript(env, controllerId, deviceId), run.parts[3..];
    assert IsPart(s, run.end.answers[..6], run.parts[6]);
    assert later[..3] == run.parts[3..6] && later[3] == run.parts[6];
    CounterOfPart(later, 3, 0);
    CountersAfterPase(env, controllerId, deviceId, run);
    AdvancedSmall(|Counters(Flat(later[..3]))|);
  }

  /** The question put last is one of CASE, and the exchange panicked. */
  predicate InCasePanic(run: Run) {
    7 <= |run.parts| <= 8 && run.r.Panic?
  }

  /** An event that is a call of Send under a key. */
  predicate Sealed(e: Event) {
    e.SentEvent? && e.Key() != []
  }

  /** A closing message under a key always goes on with the counters: what is closed after a panic in CASE is in the
      clear. */
  lemma SealedClose(env: Env, controllerId: uint64, deviceId: uint64, run: Run)
    requires CommissionRun(env, controllerId, deviceId, run) && |run.parts| > 3
    ensures var bye := Bye(env, CommissionScript(env, controllerId, deviceId), run);
            bye != [] && bye[0].Key() != [] ==> Numbered(SentAfterPase(env, controllerId, deviceId, run), 0)
  {
    if InCasePanic(run) {
      ClearAfterPanic(env, controllerId, deviceId, run);
    } else if Bye(env, CommissionScript(env, controllerId, deviceId), run) != [] {
      ClosingCounter(env, controllerId, deviceId, run);
    }
  }

  /** No nonce is used twice by what is sent under keys after PASE, the closing message included. */
  lemma SealedNonces(env: Env, controllerId: uint64, deviceId: uint64, run: Run, i: nat, j: nat)
    requires CommissionRun(env, controllerId, deviceId, run) && |run.parts| > 3
    requires var sent := SentAfterPase(env, controllerId, deviceId, run);
             i < j < |sent| && Sealed(sent[i]) && Sealed(sent[j])
    ensures var sent := SentAfterPase(env, controllerId, deviceId, run);
            && sent[i].Counter() < sent[j].Counter()
            && MakeNonce(sent[i].Counter(), sent[i].chan.localNode)
               != MakeNonce(sent[j].Counter(), sent[j].chan.localNode)
  {
    var ev, bye := Flat(run.parts[3..]), Bye(env, CommissionScript(env, controllerId, deviceId), run);
    CountersAfterPase(env, controllerId, deviceId, run);
    if j < |ev| {
      CountersOrdered(ev, i, j);
    } else {
      SealedClose(env, controllerId, deviceId, run);
      FlatMapConcat(CounterOf, ev, bye);
      ByeCounters(env, CommissionScript(env, controllerId, deviceId), run);
      CountersOrdered(ev + bye, i, j);
    }
    var sent := SentAfterPase(env, controllerId, deviceId, run);
    NonceCounters(sent[i].Counter(), sent[i].chan.localNode, sent[j].Counter(), sent[j].chan.localNode);
  }

  lemma ByeCounters(env: Env, s: Script, run: Run)
    ensures |Bye(env, s, run)| <= 1 && |Counters(Bye(env, s, run))| <= 1
  {
    match ClosingChannel(s, run) {
      case None => FlatMapNone(CounterOf);
      case Some(c) => SentNumbered(c, CloseMessage(env));
    }
  }

  lemma ClearAfterPanic(env: Env, controllerId: uint64, deviceId: uint64, run: Run)
    requires CommissionRun(env, controllerId, deviceId, run) && InCasePanic(run)
    ensures var bye := Bye(env, CommissionScript(env, controllerId, deviceId), run); bye != [] && bye[0].Key() == []
  {
  }

  // ----- which datagrams make CASE panic

  /** The answer to Sigma1 cannot be decoded, or it is an acceptable Sigma2 and the Sigma context panics over it. */
  predicate Sigma1Panics(env: Env, answer: Outcome) {
    match answer
    case ReceiveFailed => false
    case ReceivePanicked => true
    case Returned(sigma2) =>
      && !IsStatusReport(sigma2.protocolHeader) && sigma2.protocolHeader.opcode == OPCODE_SIGMA2
      && env.sigma3(sigma2).Panics?
  }

  /** The answer that is taken for the one to the question at hand. */
  function AnswerTo(env: Env, s: Script, a: Arrival): Outcome {
    AnswerIn(env.aes, s.channel(a.answers), a.rest).outcome
  }

  /** The first six answers arrive, and then one to Sigma1 that panics; or the first seven, and then one to Sigma3 that
      cannot be decoded. */
  predicate PanicsInCase(env: Env, controllerId: uint64, deviceId: uint64, incoming: seq<seq<byte>>) {
    var s := CommissionScript(env, controllerId, deviceId);
    || (match Arrive(Listening(env.aes, s), s, [], incoming, 6)
        case None => false
        case Some(a) => Sigma1Panics(env, AnswerTo(env, s, a)))
    || (match Arrive(Listening(env.aes, s), s, [], incoming, 7)
        case None => false
        case Some(a) => AnswerTo(env, s, a).ReceivePanicked?)
  }

  /** What a panic over the answer to Sigma1 is. */
  lemma PanicsOverSigma1(env: Env, controllerId: uint64, deviceId: uint64, a: Arrival)
    requires |a.answers| == 6
    ensures var s := CommissionScript(env, controllerId, deviceId);
            PanicsOver(Listening(env.aes, s), s, a) <==> Sigma1Panics(env, AnswerTo(env, s, a))
  {
    var s := CommissionScript(env, controllerId, deviceId);
    ClearHeard(env.aes, s.channel(a.answers), s.request(a.answers), a.rest);
    var outcome := AnswerTo(env, s, a);
    if outcome.Returned? {
      SeventhJudge(env, deviceId, a.answers + [outcome.out]);
    }
  }

  lemma PanicsOverSigma3(env: Env, controllerId: uint64, deviceId: uint64, a: Arrival)
    requires |a.answers| == 7
    ensures var s := CommissionScript(env, controllerId, deviceId);
            PanicsOver(Listening(env.aes, s), s, a) <==> AnswerTo(env, s, a).ReceivePanicked?
  {
    var s := CommissionScript(env, controllerId, deviceId);
    ClearHeard(env.aes, s.channel(a.answers), s.request(a.answers), a.rest);
    var outcome := AnswerTo(env, s, a);
    if outcome.Returned? {
      EighthJudge(env, deviceId, a.answers + [outcome.out]);
    }
  }

  /** A run panics in CASE if and only if the datagrams that arrive make it so. */
  lemma CasePanicIff(env: Env, controllerId: uint64, deviceId: uint64, incoming: seq<seq<byte>>)
    ensures InCasePanic(Conversation(env, controllerId, deviceId, incoming)) <==>
            PanicsInCase(env, controllerId, deviceId, incoming)
  {
    var s := CommissionScript(env, controllerId, deviceId);
    PanicsAtQuestion(env.aes, s, Begin(env, incoming), 6);
    PanicsAtQuestion(env.aes, s, Begin(env, incoming), 7);
    var six := Arrive(Listening(env.aes, s), s, [], incoming, 6);
    var seven := Arrive(Listening(env.aes, s), s, [], incoming, 7);
    if six.Some? {
      PanicsOverSigma1(env, controllerId, deviceId, six.value);
    }
    if seven.Some? {
      PanicsOverSigma3(env, controllerId, deviceId, seven.value);
    }
  }

  /** For any datagrams that arrive: past PASE all calls of Send, the closing one included, have consecutive counters if
      and only if these datagrams do not make CASE panic; if they do, the counter of Sigma1 is used again. */
  lemma ConsecutiveIff(env: Env, controllerId: uint64, deviceId: uint64, incoming: seq<seq<byte>>)
    ensures var run := Conversation(env, controllerId, deviceId, incoming);
            var bye := Bye(env, CommissionScript(env, controllerId, deviceId), run);
            && (|run.parts| > 3 ==>
                  (Numbered(SentAfterPase(env, controllerId, deviceId, run), 0) <==>
                   !PanicsInCase(env, controllerId, deviceId, incoming)))
            && (PanicsInCase(env, controllerId, deviceId, incoming) ==>
                  && |run.parts| > 6 && run.parts[6] != [] && run.parts[6][0].SentEvent?
                  && bye != [] && bye[0].SentEvent? && bye[0].Counter() == run.parts[6][0].Counter())
  {
    var run := Conversation(env, controllerId, deviceId, incoming);
    ConversationIsRun(env, controllerId, deviceId, incoming);
    CasePanicIff(env, controllerId, deviceId, incoming);
    ConsecutiveRun(env, controllerId, deviceId, run);
  }

  lemma ConsecutiveRun(env: Env, controllerId: uint64, deviceId: uint64, run: Run)
    requires CommissionRun(env, controllerId, deviceId, run)
    ensures var bye := Bye(env, CommissionScript(env, controllerId, deviceId), run);
            && (|run.parts| > 3 ==>
                  (Numbered(SentAfterPase(env, controllerId, deviceId, run), 0) <==> !InCasePanic(run)))
            && (InCasePanic(run) ==>
                  && |run.parts| > 6 && run.parts[6] != [] && run.parts[6][0].SentEvent?
                  && bye != [] && bye[0].SentEvent? && bye[0].Counter() == run.parts[6][0].Counter())
  {
    if InCasePanic(run) {
      ClearAfterPanic(env, controllerId, deviceId, run);
    }
    if |run.parts| > 3 {
      if Bye(env, CommissionScript(env, controllerId, deviceId), run) == [] {
        assert Flat(run.parts[3..]) + [] == Flat(run.parts[3..]);
      } else {
        ClosingCounter(env, controllerId, deviceId, run);
      }
    }
  }

  // ----- what counts as a success

  /** A run is done if and only if what arrives is, for question after question, taken in, decoded, and expected. */
  lemma DoneIff(env: Env, controllerId: uint64, deviceId: uint64, incoming: seq<seq<byte>>)
    ensures Conversation(env, controllerId, deviceId, incoming).r.Done? <==>
            Succeeds(env.aes, CommissionScript(env, controllerId, deviceId), [], incoming)
  {
    DoneIffSucceeds(env.aes, CommissionScript(env, controllerId, deviceId), Begin(env, incoming));
  }

  /** An answer to Sigma3 is a success exactly when it has the opcode of a status report and either belongs to another
      protocol or has no non-zero field among those that its payload is long enough for. */
  lemma SuccessIffMessage(h: Header, p: ProtocolHeader, payload: seq<byte>)
    requires Finish(h, p, payload).Returned?
    ensures JudgeResult(Finish(h, p, payload).out).GoOn? <==>
            p.opcode == OPCODE_STATUS_REPORT &&
            (p.protocolId == PROTOCOL_SECURE_CHANNEL ==>
              && (|payload| >= 2 ==> payload[..2] == Zeros(2))
              && (|payload| >= 6 ==> payload[2..6] == Zeros(4))
              && (|payload| >= 8 ==> payload[6..8] == Zeros(2)))
  {
    SuccessIff(payload);
  }

  /** So a message of the interaction model with that opcode, and a failure code for payload, is one. */
  lemma SuccessWithoutReport(h: Header)
    ensures var p := ProtocolHeader(0, OPCODE_STATUS_REPORT, 0, PROTOCOL_INTERACTION, 0);
            var r := Finish(h, p, EncodeBool(1, true));
            r.Returned? && JudgeResult(r.out).GoOn? && !IsStatusReport(p)
  {
    MessageRoundTrip(Bool(1, true));
  }

  /** An answer to Pake3 is a success exactly when it is no status report, whatever else it is, or one whose protocol
      code, if it is there, is zero, whatever its general code. */
  lemma PaseSuccessIff(h: Header, p: ProtocolHeader, payload: seq<byte>)
    requires Finish(h, p, payload).Returned?
    ensures JudgeStatus(Finish(h, p, payload).out).GoOn? <==>
            IsStatusReport(p) ==> |payload| >= 8 ==> payload[6..8] == Zeros(2)
  {
    ProtocolCodeIff(payload);
  }

  /** So the device's Pake2 once more is one. */
  lemma PaseSuccessWithoutReport(h: Header, p: ProtocolHeader, t: Tree)
    requires p.opcode == OPCODE_PAKE2 && Representable(t)
    ensures var r := Finish(h, p, Encode(t));
            r.Returned? && JudgeStatus(r.out).GoOn? && !IsStatusReport(p)
  {
    MessageRoundTrip(t);
  }

  /** The answer to CommissioningComplete ends the run well exactly when it is no status report and has an item in the
      place of the result, whatever stands there. */
  lemma CompleteSuccessIff(h: Header, p: ProtocolHeader, payload: seq<byte>)
    requires Finish(h, p, payload).Returned?
    ensures JudgeComplete(Finish(h, p, payload).out).GoOn? <==>
            !IsStatusReport(p) && payload != [] && GetItemRec(DecodeFirst(payload).value, RESULT_PATH).Some?
  {
    assert GetItemRec(EMPTY, RESULT_PATH).None?;
  }

  /** The answer to a command with a number for result. */
  function ResultAnswer(n: uint64): Tree {
    AnswerTree(DATA, false, [], [UInt(0, 7, n)])
  }

  /** So with every number for result, also those that report a failure. */
  lemma CompleteDespiteFailure(h: Header, p: ProtocolHeader, n: uint64)
    requires !IsStatusReport(p)
    ensures var r := Finish(h, p, Encode(ResultAnswer(n)));
            r.Returned? && GetIntRec(r.out.tlv, RESULT_PATH) == Some(n) && JudgeComplete(r.out).GoOn?
  {
    CommonNumber(n);
    AnswerRepresentable(DATA, false, [], [UInt(0, 7, n)]);
    FieldLookup(DATA, false, [], [UInt(0, 7, n)], 0);
    MessageRoundTrip(ResultAnswer(n));
  }
}
