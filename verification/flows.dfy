/** Commissioning as it runs: PASE, the commands under its keys, CASE, and the completion. */
module Flows {
  import opened Bytes
  import opened Options
  import opened Sequences
  import opened Tlv
  import opened TlvCodec
  import TlvIO
  import opened Messages
  import opened Invoke
  import opened ChannelSpec
  import opened SecureChannels
  import opened Conversations
  import opened FlowSpec

  const NOTHING_DECODED: DecodedGeneric := DecodedGeneric(NO_HEADER, NO_PROTOCOL_HEADER, EMPTY, [], NO_STATUS)

  /** Questions are put as the code puts them. */
  ghost predicate IsAsker(ask: Asker, aes: Aes) {
    forall c: Channel, incoming: seq<seq<byte>>, request: seq<byte> {:trigger Ask(aes, c, incoming, request)} ::
      ask(c, incoming, request) == Ask(aes, c, incoming, request)
  }

  /** The channel is the one that the script says for this state. */
  ghost predicate At(s: Script, sc: SecureChannel, st: State)
    reads sc, sc.udp
  {
    && sc.udp != null && IsAsker(s.ask, sc.aes) && s.length == 9 && s.restart == 3 && s.mark == 6
    && sc.udp.incoming == st.incoming && sc.State() == ChannelOf(s, st)
  }

  // ----- the questions of the script, one by one

  /** After these answers this is asked, and the answer is judged so; the next question is put on the same channel. */
  ghost predicate Stays(s: Script, a: seq<DecodedGeneric>) {
    forall out: DecodedGeneric :: s.channel(a + [out]) == s.channel(a)
  }

  ghost predicate AsksParameters(env: Env, s: Script, a: seq<DecodedGeneric>) {
    && s.request(a) == RequestBytes(Secure(OPCODE_PBKDF_REQUEST, env.exchanges(0), PbkdfPayload(env))) && Stays(s, a)
    && forall out: DecodedGeneric :: s.judge(a + [out]) == JudgeParameters(out)
  }

  ghost predicate AsksShare(env: Env, s: Script, a: seq<DecodedGeneric>, response: DecodedGeneric) {
    && s.request(a) == RequestBytes(Secure(OPCODE_PAKE1, env.exchanges(0), Pake1Payload(env, response))) && Stays(s, a)
    && forall out: DecodedGeneric :: s.judge(a + [out]) == JudgeShare(env, response, out)
  }

  ghost predicate AsksStatus(env: Env, s: Script, a: seq<DecodedGeneric>, keys: SpakeKeys) {
    && s.request(a) == RequestBytes(Secure(OPCODE_PAKE3, env.exchanges(0), Encode(PakeTree(keys.confirmation))))
    && forall out: DecodedGeneric :: s.judge(a + [out]) == JudgeStatus(out)
  }

  ghost predicate AsksCsr(env: Env, s: Script, a: seq<DecodedGeneric>) {
    && s.request(a) == RequestBytes(Invoke(CLUSTER_CREDENTIALS, 4, CsrFields(env), env.exchanges(1))) && Stays(s, a)
    && forall out: DecodedGeneric :: s.judge(a + [out]) == JudgeCsr(env, out)
  }

  ghost predicate AsksRoot(env: Env, deviceId: uint64, s: Script, a: seq<DecodedGeneric>, csrAnswer: DecodedGeneric) {
    && s.request(a) == RequestBytes(Invoke(CLUSTER_CREDENTIALS, 0xb, RootFields(env), env.exchanges(2))) && Stays(s, a)
    && forall out: DecodedGeneric :: s.judge(a + [out]) == JudgeRoot(env, deviceId, csrAnswer, out)
  }

  ghost predicate AsksNoc(env: Env, controllerId: uint64, s: Script, a: seq<DecodedGeneric>, noc: seq<byte>) {
    && s.request(a)
       == RequestBytes(Invoke(CLUSTER_CREDENTIALS, 6, EncodeAll(NocFields(noc, env.ipk, controllerId)),
                              env.exchanges(3)))
    && forall out: DecodedGeneric :: s.judge(a + [out]) == JudgeNoc(env, out)
  }

  ghost predicate AsksSigma2(env: Env, s: Script, a: seq<DecodedGeneric>, sigma1: seq<byte>) {
    && s.request(a) == RequestBytes(Secure(OPCODE_SIGMA1, env.exchanges(5), sigma1)) && Stays(s, a)
    && forall out: DecodedGeneric :: s.judge(a + [out]) == JudgeSigma2(env, out)
  }

  ghost predicate AsksResult(env: Env, s: Script, a: seq<DecodedGeneric>, sigma3: seq<byte>) {
    && s.request(a) == RequestBytes(Secure(OPCODE_SIGMA3, env.exchanges(5), sigma3))
    && forall out: DecodedGeneric :: s.judge(a + [out]) == JudgeResult(out)
  }

  ghost predicate AsksCompletion(env: Env, s: Script, a: seq<DecodedGeneric>) {
    && s.request(a) == RequestBytes(Invoke(CLUSTER_COMMISSIONING, 4, [], env.exchanges(6)))
    && forall out: DecodedGeneric :: s.judge(a + [out]) == JudgeComplete(out)
  }

  lemma SameChannel(env: Env, controllerId: uint64, deviceId: uint64, ask: Asker, a: seq<DecodedGeneric>)
    requires |a| == 3 || |a| == 4
    ensures Stays(ScriptWith(env, controllerId, deviceId, ask), a)
  {
  }

  lemma FirstQuestion(env: Env, controllerId: uint64, deviceId: uint64, ask: Asker, a: seq<DecodedGeneric>)
    requires |a| == 0
    ensures AsksParameters(env, ScriptWith(env, controllerId, deviceId, ask), a)
  {
  }

  lemma SecondQuestion(env: Env, controllerId: uint64, deviceId: uint64, ask: Asker, a: seq<DecodedGeneric>)
    requires |a| == 1
    ensures AsksShare(env, ScriptWith(env, controllerId, deviceId, ask), a, a[0])
  {
  }

  lemma ThirdQuestion(env: Env, controllerId: uint64, deviceId: uint64, ask: Asker, a: seq<DecodedGeneric>)
    requires |a| == 2 && PaseKeys(env, a[0], a[1]).Some?
    ensures AsksStatus(env, ScriptWith(env, controllerId, deviceId, ask), a, PaseKeys(env, a[0], a[1]).value)
  {
  }

  lemma FourthRequest(env: Env, controllerId: uint64, deviceId: uint64, a: seq<DecodedGeneric>)
    requires |a| == 3
    ensures RequestAt(env, controllerId, deviceId, a)
            == Invoke(CLUSTER_CREDENTIALS, 4, CsrFields(env), env.exchanges(1))
  {
  }

  lemma FourthQuestion(env: Env, controllerId: uint64, deviceId: uint64, ask: Asker, a: seq<DecodedGeneric>)
    requires |a| == 3
    ensures AsksCsr(env, ScriptWith(env, controllerId, deviceId, ask), a)
  {
    FourthRequest(env, controllerId, deviceId, a);
    SameChannel(env, controllerId, deviceId, ask, a);
    forall out: DecodedGeneric {
      FourthJudge(env, deviceId, a + [out]);
    }
  }

  lemma FifthRequest(env: Env, controllerId: uint64, deviceId: uint64, a: seq<DecodedGeneric>)
    requires |a| == 4
    ensures RequestAt(env, controllerId, deviceId, a)
            == Invoke(CLUSTER_CREDENTIALS, 0xb, RootFields(env), env.exchanges(2))
  {
  }

  lemma FifthQuestion(env: Env, controllerId: uint64, deviceId: uint64, ask: Asker, a: seq<DecodedGeneric>)
    requires |a| == 4
    ensures AsksRoot(env, deviceId, ScriptWith(env, controllerId, deviceId, ask), a, a[3])
  {
    FifthRequest(env, controllerId, deviceId, a);
    SameChannel(env, controllerId, deviceId, ask, a);
    forall out: DecodedGeneric {
      FifthJudge(env, deviceId, a + [out]);
    }
  }

  lemma SixthRequest(env: Env, controllerId: uint64, deviceId: uint64, a: seq<DecodedGeneric>)
    requires |a| == 5
    ensures RequestAt(env, controllerId, deviceId, a)
            == Invoke(CLUSTER_CREDENTIALS, 6, NocPayload(env, controllerId, deviceId, a[3]), env.exchanges(3))
  {
  }

  lemma SixthQuestion(env: Env, controllerId: uint64, deviceId: uint64, ask: Asker, a: seq<DecodedGeneric>)
    requires |a| == 5 && NocOf(env, deviceId, a[3]).Made?
    ensures AsksNoc(env, controllerId, ScriptWith(env, controllerId, deviceId, ask), a,
                    NocOf(env, deviceId, a[3]).value)
  {
    SixthRequest(env, controllerId, deviceId, a);
    forall out: DecodedGeneric {
      SixthJudge(env, deviceId, a + [out]);
    }
  }

  lemma SeventhQuestion(env: Env, controllerId: uint64, deviceId: uint64, ask: Asker, a: seq<DecodedGeneric>)
    requires |a| == 6 && env.sigma1.Some?
    ensures AsksSigma2(env, ScriptWith(env, controllerId, deviceId, ask), a, env.sigma1.value)
  {
    forall out: DecodedGeneric {
      SeventhJudge(env, deviceId, a + [out]);
    }
  }

  lemma EighthQuestion(env: Env, controllerId: uint64, deviceId: uint64, ask: Asker, a: seq<DecodedGeneric>)
    requires |a| == 7 && env.sigma3(a[6]).Made?
    ensures AsksResult(env, ScriptWith(env, controllerId, deviceId, ask), a, env.sigma3(a[6]).value.payload)
  {
    forall out: DecodedGeneric {
      EighthJudge(env, deviceId, a + [out]);
    }
  }

  lemma LastRequest(env: Env, controllerId: uint64, deviceId: uint64, a: seq<DecodedGeneric>)
    requires |a| == 8
    ensures RequestAt(env, controllerId, deviceId, a) == Invoke(CLUSTER_COMMISSIONING, 4, [], env.exchanges(6))
  {
  }

  lemma LastQuestion(env: Env, controllerId: uint64, deviceId: uint64, ask: Asker, a: seq<DecodedGeneric>)
    requires |a| == 8
    ensures AsksCompletion(env, ScriptWith(env, controllerId, deviceId, ask), a)
  {
    LastRequest(env, controllerId, deviceId, a);
    forall out: DecodedGeneric {
      LastJudge(env, deviceId, a + [out]);
    }
  }

  // ----- one question

  method Question(ghost s: Script, sc: SecureChannel, request: seq<byte>, ghost st: State)
    returns (r: Outcome, ghost part: seq<Event>, ghost st': State)
    requires At(s, sc, st) && |st.answers| < 9 && request == s.request(st.answers)
    modifies sc`counter, sc.udp
    ensures sc.udp.trace == old(sc.udp.trace) + part && sc.udp.incoming == st'.incoming
    ensures old(sc.udp.Recorded(sc.aes)) ==> sc.udp.Recorded(sc.aes)
    ensures sc.State() == old(sc.State()).(counter := sc.counter)
    ensures var v := Verdict(s, st, r); Reaches(s, st, [part], st', v.Done? && |st.answers| < 8, v)
    ensures st'.answers == if r.Returned? then st.answers + [r.out] else st.answers
    ensures st'.counter == if r.Returned? && |st.answers| == 2 then 0 else sc.counter
    ensures st'.kept == if r.Returned? && |st.answers| == 5 then sc.counter else st.kept
  {
    ghost var x := s.ask(ChannelOf(s, st), st.incoming, s.request(st.answers));
    AskReaches(s, st, x);
    part, st' := x.ev, AfterAsking(s, st, x);
    ghost var trace, sent := sc.udp.trace, sc.udp.sent;
    r := AskQuestion(sc, request);
    if sent == Wire(sc.aes, trace) {
      WireMore(sc.aes, trace, sent, x.ev);
    }
  }

  // ----- PASE

  /** The parameter request, and an answer with iterations and session. */
  method AskParameters(env: Env, ghost s: Script, sc: SecureChannel, ghost st: State)
    returns (r: Flow, response: DecodedGeneric, ghost part: seq<Event>, ghost st': State)
    requires At(s, sc, st) && |st.answers| == 0
    requires AsksParameters(env, s, st.answers)
    modifies sc`counter, sc.udp
    ensures sc.udp.trace == old(sc.udp.trace) + part && sc.udp.incoming == st'.incoming
    ensures old(sc.udp.Recorded(sc.aes)) ==> sc.udp.Recorded(sc.aes)
    ensures Reaches(s, st, [part], st', r.Done?, r)
    ensures r.Done? ==> At(s, sc, st') && st'.answers == [response]
    ensures r.Done? ==> Iterations(response).Some? && SessionOf(response).Some?
  {
    response := NOTHING_DECODED;
    var answer;
    var request := SecureRequest(OPCODE_PBKDF_REQUEST, env.exchanges(0), PbkdfPayload(env));
    answer, part, st' := Question(s, sc, request, st);
    if answer.ReceivePanicked? { r := Panic; return; }
    if answer.ReceiveFailed? || answer.out.protocolHeader.opcode != OPCODE_PBKDF_RESPONSE { r := Error; return; }
    response := answer.out;
    var iterations := GetIntRec(response.tlv, [4, 1]);
    var session := GetIntRec(response.tlv, [3]);
    r := if iterations.None? || session.None? then Error else Done;
  }

  /** The commissioner's share, the device's, and the keys. */
  method AskShare(env: Env, ghost s: Script, sc: SecureChannel, response: DecodedGeneric, ghost st: State)
    returns (r: Flow, keys: Option<SpakeKeys>, ghost part: seq<Event>, ghost st': State)
    requires At(s, sc, st) && st.answers == [response]
    requires Iterations(response).Some?
    requires AsksShare(env, s, st.answers, response)
    modifies sc`counter, sc.udp
    ensures sc.udp.trace == old(sc.udp.trace) + part && sc.udp.incoming == st'.incoming
    ensures old(sc.udp.Recorded(sc.aes)) ==> sc.udp.Recorded(sc.aes)
    ensures Reaches(s, st, [part], st', r.Done?, r)
    ensures r.Done? ==> At(s, sc, st') && |st'.answers| == 2 && st'.answers[0] == response
    ensures r.Done? ==> keys.Some? && keys == PaseKeys(env, response, st'.answers[1])
  {
    keys := None;
    var salt := GetOctetStringRec(response.tlv, [4, 2]);
    var iterations := GetIntRec(response.tlv, [4, 1]).value;
    var pake1 := Encode(PakeTree(env.share(salt, iterations)));
    var answer;
    answer, part, st' := Question(s, sc, SecureRequest(OPCODE_PAKE1, env.exchanges(0), pake1), st);
    if answer.ReceivePanicked? { r := Panic; return; }
    if answer.ReceiveFailed? || answer.out.protocolHeader.opcode != OPCODE_PAKE2 { r := Error; return; }
    keys := env.spake(salt, iterations, GetOctetStringRec(answer.out.tlv, [1]), PbkdfPayload(env), response.payload);
    r := if keys.None? then Panic else Done;
  }

  /** The commissioner's confirmation, and a status without failure. */
  method AskStatus(env: Env, ghost s: Script, sc: SecureChannel, keys: SpakeKeys, ghost st: State)
    returns (r: Flow, ghost part: seq<Event>, ghost st': State)
    requires At(s, sc, st) && |st.answers| == 2
    requires AsksStatus(env, s, st.answers, keys)
    modifies sc`counter, sc.udp
    ensures sc.udp.trace == old(sc.udp.trace) + part && sc.udp.incoming == st'.incoming
    ensures old(sc.udp.Recorded(sc.aes)) ==> sc.udp.Recorded(sc.aes)
    ensures Reaches(s, st, [part], st', r.Done?, r)
    ensures r.Done? ==> |st'.answers| == 3 && st'.answers[..2] == st.answers && st'.counter == 0
  {
    var pake3 := Encode(PakeTree(keys.confirmation));
    var answer;
    answer, part, st' := Question(s, sc, SecureRequest(OPCODE_PAKE3, env.exchanges(0), pake3), st);
    if answer.ReceivePanicked? { r := Panic; return; }
    r := if answer.ReceiveFailed? || answer.out.statusReport.protocolCode != 0 then Error else Done;
  }

  /** The messages of the exchange, and the channel that they lead to. */
  method PaseDialogue(env: Env, controllerId: uint64, deviceId: uint64, ghost ask: Asker, sc: SecureChannel,
                      ghost st: State)
    returns (r: Flow, keyed: Channel, ghost parts: seq<seq<Event>>, ghost st': State)
    requires At(ScriptWith(env, controllerId, deviceId, ask), sc, st) && |st.answers| == 0
    modifies sc`counter, sc.udp
    ensures sc.udp.trace == old(sc.udp.trace) + Flat(parts) && sc.udp.incoming == st'.incoming
    ensures old(sc.udp.Recorded(sc.aes)) ==> sc.udp.Recorded(sc.aes)
    ensures Reaches(ScriptWith(env, controllerId, deviceId, ask), st, parts, st', r.Done?, r) && 0 < |parts| <= 3
    ensures r.Done? ==> |parts| == 3 && |st'.answers| == 3 && st'.counter == 0
    ensures r.Done? ==> keyed == PaseChannel(env, st'.answers[0], st'.answers[1])
  {
    ghost var s, base := ScriptWith(env, controllerId, deviceId, ask), sc.udp.trace;
    ghost var part, st1, st2;
    var response, keys;
    keyed := NO_CHANNEL;
    FirstQuestion(env, controllerId, deviceId, ask, st.answers);
    r, response, part, st1 := AskParameters(env, s, sc, st);
    parts, st' := [part], st1;
    FlatOne(part);
    if !r.Done? { return; }
    SecondQuestion(env, controllerId, deviceId, ask, st1.answers);
    r, keys, part, st2 := AskShare(env, s, sc, response, st1);
    ReachesThrough(s, st, parts, st1, [part], st2, r.Done?, r);
    FlatMore(base, parts, part);
    parts, st' := parts + [part], st2;
    if !r.Done? { return; }
    ThirdQuestion(env, controllerId, deviceId, ask, st2.answers);
    r, part, st' := AskStatus(env, s, sc, keys.value, st2);
    ReachesThrough(s, st, parts, st2, [part], st', r.Done?, r);
    FlatMore(base, parts, part);
    parts := parts + [part];
    var session := GetIntRec(response.tlv, [3]).value;
    keyed := Channel(keys.value.encryptKey, keys.value.decryptKey, NO_NODE, NO_NODE, 0, ToInt64(session));
  }

  lemma FlatMore(base: seq<Event>, parts: seq<seq<Event>>, part: seq<Event>)
    ensures base + Flat(parts + [part]) == base + Flat(parts) + part
  {
    FlatConcat(parts, [part]);
    FlatOne(part);
    assert base + (Flat(parts) + part) == base + Flat(parts) + part;
  }

  /** The exchange over a fresh channel in the clear; the first result is what the caller's variable then holds. */
  method Spake2pExchange(env: Env, controllerId: uint64, deviceId: uint64, ghost ask: Asker, udp: Udp)
    returns (sc: SecureChannel, r: Flow, ghost parts: seq<seq<Event>>, ghost st: State)
    requires IsAsker(ask, env.aes)
    modifies udp
    ensures udp.trace == old(udp.trace) + Flat(parts) && udp.incoming == st.incoming
    ensures old(udp.Recorded(env.aes)) ==> udp.Recorded(env.aes)
    ensures Reaches(ScriptWith(env, controllerId, deviceId, ask), Begin(env, old(udp.incoming)), parts, st, r.Done?, r)
            && 0 < |parts| <= 3
    ensures fresh(sc) && sc.aes == env.aes
    ensures r.Error? ==> sc.udp == null
    ensures r.Panic? ==> sc.udp == udp && sc.State() == NO_CHANNEL
    ensures r.Done? ==> sc.udp == udp && |parts| == 3 && |st.answers| == 3 && st.counter == 0
    ensures r.Done? ==> sc.State() == PaseChannel(env, st.answers[0], st.answers[1])
  {
    var plain := new SecureChannel(env.aes, udp, NO_CHANNEL.(counter := env.startCounter));
    var keyed;
    r, keyed, parts, st := PaseDialogue(env, controllerId, deviceId, ask, plain, Begin(env, udp.incoming));
    match r {
      case Panic => sc := new SecureChannel(env.aes, udp, NO_CHANNEL);
      case Error => sc := new SecureChannel(env.aes, null, NO_CHANNEL);
      case Done => sc := new SecureChannel(env.aes, udp, keyed);
    }
  }

  // ----- the commands under PASE keys

  /** A command on endpoint 0. */
  method CommandQuestion(ghost s: Script, sc: SecureChannel, cluster: uint32, command: uint32, fields: seq<byte>,
                         exchange: uint16, ghost st: State)
    returns (r: Outcome, ghost part: seq<Event>, ghost st': State)
    requires At(s, sc, st) && |st.answers| < 9
    requires RequestBytes(Invoke(cluster, command, fields, exchange)) == s.request(st.answers)
    modifies sc`counter, sc.udp
    ensures sc.udp.trace == old(sc.udp.trace) + part && sc.udp.incoming == st'.incoming
    ensures old(sc.udp.Recorded(sc.aes)) ==> sc.udp.Recorded(sc.aes)
    ensures sc.State() == old(sc.State()).(counter := sc.counter)
    ensures var v := Verdict(s, st, r); Reaches(s, st, [part], st', v.Done? && |st.answers| < 8, v)
    ensures st'.answers == if r.Returned? then st.answers + [r.out] else st.answers
    ensures st'.counter == if r.Returned? && |st.answers| == 2 then 0 else sc.counter
    ensures st'.kept == if r.Returned? && |st.answers| == 5 then sc.counter else st.kept
  {
    var request := EncodeIMInvokeRequest(0, cluster, command, fields, false, exchange);
    r, part, st' := Question(s, sc, request, st);
  }

  /** The certificate request, and the device's answer to it. */
  method RequestCsr(env: Env, ghost s: Script, sc: SecureChannel, ghost st: State)
    returns (r: Flow, csr: Csr, ghost part: seq<Event>, ghost st': State)
    requires At(s, sc, st) && |st.answers| == 3
    requires AsksCsr(env, s, st.answers)
    modifies sc`counter, sc.udp
    ensures sc.udp.trace == old(sc.udp.trace) + part && sc.udp.incoming == st'.incoming
    ensures old(sc.udp.Recorded(sc.aes)) ==> sc.udp.Recorded(sc.aes)
    ensures sc.State() == old(sc.State()).(counter := st'.counter) && st.answers <= st'.answers && |st'.answers| <= 4
    ensures if r.Done? then Reaches(s, st, [part], st', env.caCertificate.Some?, Panic)
            else Reaches(s, st, [part], st', false, r)
    ensures r.Done? ==> |st'.answers| == 4 && CsrOf(env, st'.answers[3]) == Some(csr) && !csr.CsrError?
  {
    csr := CsrError;
    var answer;
    answer, part, st' := CommandQuestion(s, sc, CLUSTER_CREDENTIALS, 4, CsrFields(env), env.exchanges(1), st);
    if answer.ReceivePanicked? { r := Panic; return; }
    if answer.ReceiveFailed? { r := Error; return; }
    var nocsr := GetOctetStringRec(answer.out.tlv, RESULT_PATH);
    if |nocsr| == 0 { r := Error; return; }
    var elements := TlvIO.Decode(nocsr);
    if elements.None? { r := Panic; return; }
    csr := env.parseCsr(GetOctetStringRec(elements.value, [1]));
    r := if csr.CsrError? then Error else Done;
  }

  /** The root certificate, and then the operational certificate for the key that was asked for. */
  method AddRoot(env: Env, deviceId: uint64, ghost s: Script, sc: SecureChannel, csr: Csr, ghost st: State)
    returns (r: Flow, noc: seq<byte>, ghost part: seq<Event>, ghost st': State)
    requires At(s, sc, st) && |st.answers| == 4 && env.caCertificate.Some?
    requires CsrOf(env, st.answers[3]) == Some(csr) && !csr.CsrError?
    requires AsksRoot(env, deviceId, s, st.answers, st.answers[3])
    modifies sc`counter, sc.udp
    ensures sc.udp.trace == old(sc.udp.trace) + part && sc.udp.incoming == st'.incoming
    ensures old(sc.udp.Recorded(sc.aes)) ==> sc.udp.Recorded(sc.aes)
    ensures sc.State() == old(sc.State()).(counter := st'.counter) && st.answers <= st'.answers && |st'.answers| <= 5
    ensures Reaches(s, st, [part], st', r.Done?, r)
    ensures r.Done? ==> |st'.answers| == 5 && NocOf(env, deviceId, st'.answers[3]) == Made(noc)
  {
    noc := [];
    var answer;
    answer, part, st' := CommandQuestion(s, sc, CLUSTER_CREDENTIALS, 0xb, RootFields(env), env.exchanges(2), st);
    if answer.ReceivePanicked? { r := Panic; return; }
    if answer.ReceiveFailed? { r := Error; return; }
    if ParseImInvokeResponse(answer.out.tlv) != 0 { r := Error; return; }
    if !csr.EcdsaKey? { r := Panic; return; }
    match env.signCertificate(csr.key, deviceId) {
      case Made(cert) => r, noc := Done, cert;
      case Fails => r := Error;
      case Panics => r := Panic;
    }
  }

  method AddNoc(env: Env, controllerId: uint64, ghost s: Script, sc: SecureChannel, noc: seq<byte>, ghost st: State)
    returns (r: Flow, ghost part: seq<Event>, ghost st': State)
    requires At(s, sc, st) && |st.answers| == 5
    requires AsksNoc(env, controllerId, s, st.answers, noc)
    modifies sc`counter, sc.udp
    ensures sc.udp.trace == old(sc.udp.trace) + part && sc.udp.incoming == st'.incoming
    ensures old(sc.udp.Recorded(sc.aes)) ==> sc.udp.Recorded(sc.aes)
    ensures sc.State() == old(sc.State()).(counter := st'.counter) && st.answers <= st'.answers && |st'.answers| <= 6
    ensures if r.Done? then Reaches(s, st, [part], st', env.sigma1.Some?, Panic)
            else Reaches(s, st, [part], st', false, r)
    ensures r.Done? ==> |st'.answers| == 6 && st'.kept == st'.counter
    ensures |st'.answers| == 6 ==> !r.Panic?
  {
    var answer;
    var fields := EncodeAll(NocFields(noc, env.ipk, controllerId));
    answer, part, st' := CommandQuestion(s, sc, CLUSTER_CREDENTIALS, 6, fields, env.exchanges(3), st);
    if answer.ReceivePanicked? { r := Panic; return; }
    if answer.ReceiveFailed? { r := Error; return; }
    r := if GetIntRec(answer.out.tlv, RESULT_PATH) == Some(0) then Done else Error;
  }

  /** The certificate request and the root certificate. */
  method FirstCommands(env: Env, controllerId: uint64, deviceId: uint64, ghost ask: Asker, sc: SecureChannel,
                       ghost st: State)
    returns (r: Flow, noc: seq<byte>, ghost parts: seq<seq<Event>>, ghost st': State)
    requires At(ScriptWith(env, controllerId, deviceId, ask), sc, st) && |st.answers| == 3
    modifies sc`counter, sc.udp
    ensures sc.udp.trace == old(sc.udp.trace) + Flat(parts) && sc.udp.incoming == st'.incoming
    ensures old(sc.udp.Recorded(sc.aes)) ==> sc.udp.Recorded(sc.aes)
    ensures sc.State() == old(sc.State()).(counter := st'.counter) && st.answers <= st'.answers
    ensures 0 < |parts| <= 2 && |st'.answers| <= 3 + |parts| <= |st'.answers| + 1
    ensures Reaches(ScriptWith(env, controllerId, deviceId, ask), st, parts, st', r.Done?, r)
    ensures r.Done? ==> At(ScriptWith(env, controllerId, deviceId, ask), sc, st')
    ensures r.Done? ==> |parts| == 2 && |st'.answers| == 5 && NocOf(env, deviceId, st'.answers[3]) == Made(noc)
  {
    ghost var s, base := ScriptWith(env, controllerId, deviceId, ask), sc.udp.trace;
    ghost var part, st1;
    var csr;
    noc := [];
    FourthQuestion(env, controllerId, deviceId, ask, st.answers);
    r, csr, part, st1 := RequestCsr(env, s, sc, st);
    parts, st' := [part], st1;
    FlatOne(part);
    if !r.Done? { return; }
    if env.caCertificate.None? { r := Panic; return; }
    FifthQuestion(env, controllerId, deviceId, ask, st1.answers);
    r, noc, part, st' := AddRoot(env, deviceId, s, sc, csr, st1);
    ReachesThrough(s, st, parts, st1, [part], st', r.Done?, r);
    FlatMore(base, parts, part);
    parts := parts + [part];
  }

  /** Certificate request, root certificate, operational certificate; any unexpected answer ends it. */
  method PaseCommands(env: Env, controllerId: uint64, deviceId: uint64, ghost ask: Asker, sc: SecureChannel,
                      ghost st: State)
    returns (r: Flow, ghost parts: seq<seq<Event>>, ghost st': State)
    requires At(ScriptWith(env, controllerId, deviceId, ask), sc, st) && |st.answers| == 3
    modifies sc`counter, sc.udp
    ensures sc.udp.trace == old(sc.udp.trace) + Flat(parts) && sc.udp.incoming == st'.incoming
    ensures old(sc.udp.Recorded(sc.aes)) ==> sc.udp.Recorded(sc.aes)
    ensures sc.State() == old(sc.State()).(counter := st'.counter) && st.answers <= st'.answers
    ensures 0 < |parts| <= 3 && |st'.answers| <= 3 + |parts| <= |st'.answers| + 1
    ensures if r.Done? then
              Reaches(ScriptWith(env, controllerId, deviceId, ask), st, parts, st', env.sigma1.Some?, Panic)
            else Reaches(ScriptWith(env, controllerId, deviceId, ask), st, parts, st', false, r)
    ensures r.Done? ==> |parts| == 3 && |st'.answers| == 6 && st'.kept == st'.counter
    ensures |st'.answers| == 6 ==> !r.Panic?
  {
    ghost var s, base := ScriptWith(env, controllerId, deviceId, ask), sc.udp.trace;
    ghost var part, st1;
    var noc;
    r, noc, parts, st1 := FirstCommands(env, controllerId, deviceId, ask, sc, st);
    st' := st1;
    if !r.Done? { return; }
    SixthQuestion(env, controllerId, deviceId, ask, st1.answers);
    r, part, st' := AddNoc(env, controllerId, s, sc, noc, st1);
    ReachesThrough(s, st, parts, st1, [part], st', r.Done? && env.sigma1.Some?, if r.Done? then Panic else r);
    FlatMore(base, parts, part);
    parts := parts + [part];
  }

  // ----- CASE

  /** Sigma1, an acceptable Sigma2, and what the Sigma context makes of it. */
  method AskSigma2(env: Env, ghost s: Script, sc: SecureChannel, sigma1: seq<byte>, ghost st: State)
    returns (r: Flow, sigma3: Made<Sigma3>, ghost part: seq<Event>, ghost st': State)
    requires At(s, sc, st) && |st.answers| == 6 && env.sigma1 == Some(sigma1)
    requires AsksSigma2(env, s, st.answers, sigma1)
    modifies sc`counter, sc.udp
    ensures sc.udp.trace == old(sc.udp.trace) + part && sc.udp.incoming == st'.incoming
    ensures old(sc.udp.Recorded(sc.aes)) ==> sc.udp.Recorded(sc.aes)
    ensures Reaches(s, st, [part], st', r.Done?, r)
    ensures st'.kept == st.kept && st.answers <= st'.answers && |st'.answers| <= 7
    ensures r.Done? ==> At(s, sc, st') && |st'.answers| == 7
    ensures r.Done? ==> sigma3.Made? && sigma3 == env.sigma3(st'.answers[6])
  {
    sigma3 := Fails;
    var sigma2;
    sigma2, part, st' := Question(s, sc, SecureRequest(OPCODE_SIGMA1, env.exchanges(5), sigma1), st);
    if sigma2.ReceivePanicked? { r := Panic; return; }
    if sigma2.ReceiveFailed? { r := Error; return; }
    if IsStatusReport(sigma2.out.protocolHeader) { r := Error; return; }
    if sigma2.out.protocolHeader.opcode != OPCODE_SIGMA2 { r := Error; return; }
    sigma3 := env.sigma3(sigma2.out);
    r := match sigma3 case Made(_) => Done case Fails => Error case Panics => Panic;
  }

  /** Sigma3, and an answer that counts as success. */
  method AskResult(env: Env, ghost s: Script, sc: SecureChannel, sigma3: Sigma3, ghost st: State)
    returns (r: Flow, ghost part: seq<Event>, ghost st': State)
    requires At(s, sc, st) && |st.answers| == 7
    requires AsksResult(env, s, st.answers, sigma3.payload)
    modifies sc`counter, sc.udp
    ensures sc.udp.trace == old(sc.udp.trace) + part && sc.udp.incoming == st'.incoming
    ensures old(sc.udp.Recorded(sc.aes)) ==> sc.udp.Recorded(sc.aes)
    ensures sc.State() == old(sc.State()).(counter := st'.counter)
    ensures Reaches(s, st, [part], st', r.Done?, r)
    ensures st'.kept == st.kept && st.answers <= st'.answers && |st'.answers| <= 8 && (r.Done? ==> |st'.answers| == 8)
  {
    var result;
    result, part, st' := Question(s, sc, SecureRequest(OPCODE_SIGMA3, env.exchanges(5), sigma3.payload), st);
    if result.ReceivePanicked? { r := Panic; return; }
    if result.ReceiveFailed? { r := Error; return; }
    if result.out.protocolHeader.opcode != OPCODE_STATUS_REPORT { r := Error; return; }
    r := if IsOk(result.out.statusReport) then Done else Error;
  }

  /** The messages of the exchange, up to the answer to Sigma3. */
  method SigmaDialogue(env: Env, controllerId: uint64, deviceId: uint64, ghost ask: Asker, sc: SecureChannel,
                       sigma1: seq<byte>, ghost st: State)
    returns (r: Flow, sigma3: Made<Sigma3>, ghost parts: seq<seq<Event>>, ghost st': State)
    requires At(ScriptWith(env, controllerId, deviceId, ask), sc, st) && |st.answers| == 6 && env.sigma1 == Some(sigma1)
    modifies sc`counter, sc.udp
    ensures sc.udp.trace == old(sc.udp.trace) + Flat(parts) && sc.udp.incoming == st'.incoming
    ensures old(sc.udp.Recorded(sc.aes)) ==> sc.udp.Recorded(sc.aes)
    ensures Reaches(ScriptWith(env, controllerId, deviceId, ask), st, parts, st', r.Done?, r) && 0 < |parts| <= 2
    ensures st'.kept == st.kept && st.answers <= st'.answers && |st'.answers| <= 8
    ensures r.Done? ==> |parts| == 2 && |st'.answers| == 8 && sigma3.Made? && sigma3 == env.sigma3(st'.answers[6])
    ensures r.Done? ==> sc.counter == st'.counter
  {
    ghost var s, base := ScriptWith(env, controllerId, deviceId, ask), sc.udp.trace;
    ghost var part, st1;
    SeventhQuestion(env, controllerId, deviceId, ask, st.answers);
    r, sigma3, part, st1 := AskSigma2(env, s, sc, sigma1, st);
    parts, st' := [part], st1;
    FlatOne(part);
    if !r.Done? { return; }
    EighthQuestion(env, controllerId, deviceId, ask, st1.answers);
    r, part, st' := AskResult(env, s, sc, sigma3.value, st1);
    ReachesThrough(s, st, parts, st1, [part], st', r.Done?, r);
    FlatMore(base, parts, part);
    parts := parts + [part];
  }

  /** The exchange in the clear on a copy of the channel, which is keyed when the answer to Sigma3 is a success; the
      first result is what the caller's variable holds afterwards. */
  method SigmaExchange(env: Env, controllerId: uint64, deviceId: uint64, ghost ask: Asker, caller: SecureChannel,
                       ghost st: State)
    returns (sc: SecureChannel, r: Flow, ghost parts: seq<seq<Event>>, ghost st': State)
    requires At(ScriptWith(env, controllerId, deviceId, ask), caller, st) && |st.answers| == 6
    modifies caller.udp
    ensures caller.udp.trace == old(caller.udp.trace) + Flat(parts) && caller.udp.incoming == st'.incoming
    ensures old(caller.udp.Recorded(caller.aes)) ==> caller.udp.Recorded(caller.aes)
    ensures env.sigma1.None? ==> r.Panic? && parts == [] && st' == st
    ensures env.sigma1.Some? ==> Reaches(ScriptWith(env, controllerId, deviceId, ask), st, parts, st', r.Done?, r)
    ensures env.sigma1.Some? ==> 0 < |parts| <= 2
    ensures st'.kept == st.kept && st.answers <= st'.answers && |st'.answers| <= 8
    ensures sc.aes == caller.aes
    ensures r.Error? ==> fresh(sc) && sc.udp == null
    ensures r.Panic? ==> sc == caller
    ensures r.Done? ==> fresh(sc) && sc.udp == caller.udp && At(ScriptWith(env, controllerId, deviceId, ask), sc, st')
    ensures r.Done? ==> |parts| == 2 && |st'.answers| == 8
  {
    var copy := new SecureChannel(caller.aes, caller.udp, caller.State());
    var sigma3;
    if env.sigma1.None? {
      FlatNone();
      return caller, Panic, [], st;
    }
    r, sigma3, parts, st' := SigmaDialogue(env, controllerId, deviceId, ask, copy, env.sigma1.value, st);
    if r.Panic? { return caller, r, parts, st'; }
    if r.Error? {
      sc := new SecureChannel(caller.aes, null, NO_CHANNEL);
      return;
    }
    Key(copy, sigma3.value, controllerId, deviceId);
    CaseChannelAt(env, controllerId, deviceId, ask, st', sigma3.value);
    return copy, Done, parts, st';
  }

  /** The keys, the nodes and the session. */
  method Key(sc: SecureChannel, sigma3: Sigma3, controllerId: uint64, deviceId: uint64)
    modifies sc`encryptKey, sc`decryptKey, sc`remoteNode, sc`localNode, sc`session
    ensures sc.State() == CaseKeyed(sigma3, controllerId, deviceId).(counter := sc.counter)
  {
    sc.decryptKey := sigma3.r2i;
    sc.encryptKey := sigma3.i2r;
    sc.remoteNode := LittleEndian(deviceId, 8);
    sc.localNode := LittleEndian(controllerId, 8);
    sc.session := ToInt64(sigma3.session);
  }

  lemma CaseChannelAt(env: Env, controllerId: uint64, deviceId: uint64, ask: Asker, st: State, sigma3: Sigma3)
    requires |st.answers| == 8 && env.sigma3(st.answers[6]) == Made(sigma3)
    ensures ChannelOf(ScriptWith(env, controllerId, deviceId, ask), st) ==
            CaseKeyed(sigma3, controllerId, deviceId).(counter := st.counter)
  {
  }

  lemma FlatNone()
    ensures Flat([]) == []
  {
  }

  // ----- the whole run

  /** CommissioningComplete, whose answer is only logged. */
  method Complete(env: Env, ghost s: Script, sc: SecureChannel, ghost st: State)
    returns (r: Flow, ghost part: seq<Event>, ghost st': State)
    requires At(s, sc, st) && |st.answers| == 8
    requires AsksCompletion(env, s, st.answers)
    modifies sc`counter, sc.udp
    ensures sc.udp.trace == old(sc.udp.trace) + part && sc.udp.incoming == st'.incoming
    ensures old(sc.udp.Recorded(sc.aes)) ==> sc.udp.Recorded(sc.aes)
    ensures sc.State() == old(sc.State()).(counter := st'.counter) && st.answers <= st'.answers && |st'.answers| <= 9
    ensures Reaches(s, st, [part], st', false, r)
  {
    var answer;
    answer, part, st' := CommandQuestion(s, sc, CLUSTER_COMMISSIONING, 4, [], env.exchanges(6), st);
    if answer.ReceivePanicked? { r := Panic; return; }
    if answer.ReceiveFailed? { r := Error; return; }
    r := if GetIntRec(answer.out.tlv, RESULT_PATH).None? then Error else Done;
  }

  /** The channel is what the deferred Close runs on. */
  ghost predicate Closes(s: Script, udp: Udp, sc: SecureChannel, run: Run)
    reads sc
  {
    match ClosingChannel(s, run)
    case None => sc.udp == null
    case Some(c) => sc.udp == udp && sc.State() == c
  }

  /** Everything up to the deferred Close; the channel is what the variable holds then. */
  method CommissionBody(env: Env, controllerId: uint64, deviceId: uint64, ghost ask: Asker, udp: Udp)
    returns (sc: SecureChannel, r: Flow, ghost run: Run)
    requires IsAsker(ask, env.aes)
    modifies udp
    ensures fresh(sc) && sc.aes == env.aes && Closes(ScriptWith(env, controllerId, deviceId, ask), udp, sc, run)
    ensures run == Converse(ScriptWith(env, controllerId, deviceId, ask), Begin(env, old(udp.incoming))) && r == run.r
    ensures udp.trace == old(udp.trace) + Flat(run.parts) && udp.incoming == run.end.incoming
    ensures old(udp.Recorded(env.aes)) ==> udp.Recorded(env.aes)
  {
    ghost var base, begin := udp.trace, Begin(env, udp.incoming);
    ghost var parts, st;
    sc, r, parts, st := Spake2pExchange(env, controllerId, deviceId, ask, udp);
    if !r.Done? {
      run := Run(parts, r, st);
      SetupCloses(ScriptWith(env, controllerId, deviceId, ask), udp, sc, run);
      return;
    }
    PaseAt(env, controllerId, deviceId, ask, st);
    sc, r, run := KeyedRun(env, controllerId, deviceId, ask, sc, begin, base, parts, st);
  }

  lemma PaseAt(env: Env, controllerId: uint64, deviceId: uint64, ask: Asker, st: State)
    requires |st.answers| == 3 && st.counter == 0
    ensures ChannelOf(ScriptWith(env, controllerId, deviceId, ask), st)
            == PaseChannel(env, st.answers[0], st.answers[1])
  {
  }

  /** The part under PASE keys, and what comes after it: the keys are cleared, and the counter goes on. */
  method KeyedRun(env: Env, controllerId: uint64, deviceId: uint64, ghost ask: Asker, pase: SecureChannel,
                  ghost begin: State, ghost base: seq<Event>, ghost before: seq<seq<Event>>, ghost st: State)
    returns (sc: SecureChannel, r: Flow, ghost run: Run)
    requires At(ScriptWith(env, controllerId, deviceId, ask), pase, st) && |st.answers| == 3 && |before| == 3
    requires Reaches(ScriptWith(env, controllerId, deviceId, ask), begin, before, st, true, Done)
    requires pase.udp.trace == base + Flat(before)
    modifies pase, pase.udp
    ensures sc.aes == pase.aes && (sc == pase || fresh(sc))
    ensures pase.udp == old(pase.udp) && Closes(ScriptWith(env, controllerId, deviceId, ask), pase.udp, sc, run)
    ensures run == Converse(ScriptWith(env, controllerId, deviceId, ask), begin) && r == run.r
    ensures pase.udp.trace == base + Flat(run.parts) && pase.udp.incoming == run.end.incoming
    ensures old(pase.udp.Recorded(pase.aes)) ==> pase.udp.Recorded(pase.aes)
  {
    ghost var s := ScriptWith(env, controllerId, deviceId, ask);
    ghost var more, st';
    r, more, st' := PaseCommands(env, controllerId, deviceId, ask, pase, st);
    ReachesThrough(s, begin, before, st, more, st', r.Done? && env.sigma1.Some?, if r.Done? then Panic else r);
    FlatAll(base, before, more);
    if !r.Done? {
      run := Run(before + more, r, st');
      ghost var a := st'.answers[..2 + |more|];
      SamePaseChannel(env, controllerId, deviceId, ask, st.answers, a);
      KeyedCloses(s, pase.udp, pase, run, a);
      return pase, r, run;
    }
    ClearKeys(pase);
    ClearedChannel(env, controllerId, deviceId, ask, st.answers, st'.answers);
    sc, r, run := CaseAndComplete(env, controllerId, deviceId, ask, pase, begin, base, before + more, st');
  }

  method ClearKeys(sc: SecureChannel)
    modifies sc`decryptKey, sc`encryptKey, sc`session
    ensures sc.State() == Cleared(old(sc.State()))
  {
    sc.decryptKey := [];
    sc.encryptKey := [];
    sc.session := 0;
  }

  lemma FlatAll(base: seq<Event>, parts: seq<seq<Event>>, more: seq<seq<Event>>)
    ensures base + Flat(parts + more) == base + Flat(parts) + Flat(more)
  {
    FlatConcat(parts, more);
    assert base + (Flat(parts) + Flat(more)) == base + Flat(parts) + Flat(more);
  }

  /** An exchange that ends the run leaves no socket, or the channel from before. */
  lemma SetupCloses(s: Script, udp: Udp, sc: SecureChannel, run: Run)
    requires |run.parts| <= 3 && !run.r.Done?
    requires if run.r.Error? then sc.udp == null else sc.udp == udp && sc.State() == NO_CHANNEL
    ensures Closes(s, udp, sc, run)
  {
  }

  lemma CaseCloses(s: Script, udp: Udp, sc: SecureChannel, run: Run, a: seq<DecodedGeneric>)
    requires |a| == 6 && a <= run.end.answers && 6 <= |run.parts| <= 8 && !run.r.Done?
    requires |run.parts| == 6 ==> run.r.Panic?
    requires if run.r.Error? then sc.udp == null
             else sc.udp == udp && sc.State() == s.channel(a).(counter := run.end.kept)
    ensures Closes(s, udp, sc, run)
  {
    assert run.end.answers[..6] == a;
  }

  /** Anything else that ends it leaves the channel of the last question. */
  lemma KeyedCloses(s: Script, udp: Udp, sc: SecureChannel, run: Run, a: seq<DecodedGeneric>)
    requires |run.parts| == |a| + 1 && a <= run.end.answers && (3 <= |a| < 6 || |a| == 8)
    requires |run.parts| == |run.end.answers| == 6 ==> !run.r.Panic?
    requires |run.parts| <= 6 ==> |run.end.answers| <= |run.parts|
    requires sc.udp == udp && sc.State() == s.channel(a).(counter := run.end.counter)
    ensures Closes(s, udp, sc, run)
  {
    assert run.end.answers[..|a|] == a;
  }

  lemma SamePaseChannel(env: Env, controllerId: uint64, deviceId: uint64, ask: Asker, a: seq<DecodedGeneric>,
                        b: seq<DecodedGeneric>)
    requires 3 <= |a| <= |b| < 6 && a <= b
    ensures var s := ScriptWith(env, controllerId, deviceId, ask); s.channel(a) == s.channel(b)
  {
  }

  lemma ClearedChannel(env: Env, controllerId: uint64, deviceId: uint64, ask: Asker, a: seq<DecodedGeneric>,
                       b: seq<DecodedGeneric>)
    requires |a| == 3 && |b| == 6 && a <= b
    ensures var s := ScriptWith(env, controllerId, deviceId, ask); s.channel(b) == Cleared(s.channel(a))
  {
  }

  /** The part after the PASE commands, with the keys cleared: the counter goes on. */
  method CaseAndComplete(env: Env, controllerId: uint64, deviceId: uint64, ghost ask: Asker, pase: SecureChannel,
                         ghost begin: State, ghost base: seq<Event>, ghost before: seq<seq<Event>>, ghost st: State)
    returns (sc: SecureChannel, r: Flow, ghost run: Run)
    requires |st.answers| == 6 && |before| == 6 && st.kept == st.counter
    requires At(ScriptWith(env, controllerId, deviceId, ask), pase, st)
    requires Reaches(ScriptWith(env, controllerId, deviceId, ask), begin, before, st, env.sigma1.Some?, Panic)
    requires pase.udp.trace == base + Flat(before)
    modifies pase.udp
    ensures sc.aes == pase.aes && (sc == pase || fresh(sc))
    ensures Closes(ScriptWith(env, controllerId, deviceId, ask), pase.udp, sc, run)
    ensures run == Converse(ScriptWith(env, controllerId, deviceId, ask), begin) && r == run.r
    ensures pase.udp.trace == base + Flat(run.parts) && pase.udp.incoming == run.end.incoming
    ensures old(pase.udp.Recorded(pase.aes)) ==> pase.udp.Recorded(pase.aes)
  {
    ghost var s := ScriptWith(env, controllerId, deviceId, ask);
    ghost var more, st1;
    sc, r, more, st1 := SigmaExchange(env, controllerId, deviceId, ask, pase, st);
    FlatAll(base, before, more);
    run := Run(before + more, r, st1);
    if env.sigma1.None? {
      assert before + [] == before;
      CaseCloses(s, pase.udp, sc, run, st.answers);
      return;
    }
    ReachesThrough(s, begin, before, st, more, st1, r.Done?, r);
    if !r.Done? {
      CaseCloses(s, pase.udp, sc, run, st.answers);
      return;
    }
    r, run := CompleteRun(env, controllerId, deviceId, ask, sc, begin, base, before + more, st1);
  }

  method CompleteRun(env: Env, controllerId: uint64, deviceId: uint64, ghost ask: Asker, sc: SecureChannel,
                     ghost begin: State, ghost base: seq<Event>, ghost before: seq<seq<Event>>, ghost st: State)
    returns (r: Flow, ghost run: Run)
    requires At(ScriptWith(env, controllerId, deviceId, ask), sc, st) && |st.answers| == 8 && |before| == 8
    requires Reaches(ScriptWith(env, controllerId, deviceId, ask), begin, before, st, true, Done)
    requires sc.udp.trace == base + Flat(before)
    modifies sc`counter, sc.udp
    ensures Closes(ScriptWith(env, controllerId, deviceId, ask), sc.udp, sc, run)
    ensures run == Converse(ScriptWith(env, controllerId, deviceId, ask), begin) && r == run.r
    ensures sc.udp.trace == base + Flat(run.parts) && sc.udp.incoming == run.end.incoming
    ensures old(sc.udp.Recorded(sc.aes)) ==> sc.udp.Recorded(sc.aes)
  {
    ghost var s := ScriptWith(env, controllerId, deviceId, ask);
    ghost var part, st';
    LastQuestion(env, controllerId, deviceId, ask, st.answers);
    r, part, st' := Complete(env, s, sc, st);
    ReachesThrough(s, begin, before, st, [part], st', false, r);
    FlatMore(base, before, part);
    run := Run(before + [part], r, st');
    KeyedCloses(s, sc.udp, sc, run, st.answers);
  }

  /** The deferred Close. */
  method CloseAfter(env: Env, ghost s: Script, ghost run: Run, sc: SecureChannel, ghost udp: Udp)
    requires sc.aes == env.aes && Closes(s, udp, sc, run)
    modifies sc`counter, udp
    ensures udp.trace == old(udp.trace) + Bye(env, s, run) && udp.incoming == old(udp.incoming)
    ensures old(udp.Recorded(env.aes)) ==> udp.Recorded(env.aes)
  {
    ghost var c, trace, sent := sc.State(), udp.trace, udp.sent;
    sc.Close(env.exchanges(7));
    WireOfSend(env.aes, c, CloseMessage(env));
    if sent == Wire(env.aes, trace) {
      WireMore(env.aes, trace, sent, SentEvents(c, CloseMessage(env)));
    }
  }

  /** Commissioning, with the deferred Close: for any datagrams that arrive the events are those of the conversation and
      of the closing message, what goes out on the wire is what these calls of Send make of their data, and the result
      is that of the conversation. */
  method Commission(env: Env, controllerId: uint64, deviceId: uint64, incoming: seq<seq<byte>>)
    returns (r: Flow, udp: Udp)
    ensures var run := Conversation(env, controllerId, deviceId, incoming);
            && r == run.r && udp.incoming == run.end.incoming
            && udp.trace == Flat(run.parts) + Bye(env, CommissionScript(env, controllerId, deviceId), run)
            && udp.sent == Wire(env.aes, udp.trace)
    ensures fresh(udp)
  {
    udp := new Udp(incoming);
    FlatMapNone(DatagramsOf(env.aes));
    var sc;
    ghost var run;
    sc, r, run := CommissionBody(env, controllerId, deviceId, Asking(env.aes), udp);
    CloseAfter(env, CommissionScript(env, controllerId, deviceId), run, sc, udp);
  }
}
