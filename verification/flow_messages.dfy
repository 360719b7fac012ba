/** Commissioning as the device sees it: what every question says, which answers are taken, and on which channel. */
module FlowMessages {
  import opened Bytes
  import opened Options
  import opened Tlv
  import opened TlvCodec
  import opened Messages
  import opened Invoke
  import opened ChannelSpec
  import opened SecureChannels
  import opened Conversations
  import opened FlowSpec

  // ----- the channel of every question

  /** No keys for PASE; for the commands the keys that the salt, the iterations and the share lead to, and the session
      that was announced; the same channel without keys and session for Sigma; for the completion the keys and the
      session of the Sigma context, and both node ids. */
  lemma ChannelStages(env: Env, controllerId: uint64, deviceId: uint64, a: seq<DecodedGeneric>, k: nat)
    requires Allowed(env, deviceId, a, k) && k < 9
    ensures var c := ChannelAt(env, controllerId, deviceId, a[..k]);
            if k < 3 then c == Channel([], [], [], [], 0, 0)
            else if k < 8 then
              var n, session := GetIntRec(a[0].tlv, [4, 1]), GetIntRec(a[0].tlv, [3]);
              && n.Some? && session.Some?
              && var keys := env.spake(GetOctetStringRec(a[0].tlv, [4, 2]), n.value, GetOctetStringRec(a[1].tlv, [1]),
                                       PbkdfPayload(env), a[0].payload);
                 && keys.Some?
                 && c == if k < 6 then
                           Channel(keys.value.encryptKey, keys.value.decryptKey, Zeros(8), Zeros(8), 0,
                                   ToInt64(session.value))
                         else Channel([], [], Zeros(8), Zeros(8), 0, 0)
            else
              match env.sigma3(a[6])
              case Made(s) =>
                c == Channel(s.i2r, s.r2i, LittleEndian(deviceId, 8), LittleEndian(controllerId, 8), 0,
                             ToInt64(s.session))
              case _ => false
  {
    if 3 <= k < 8 {
      assert JudgeAt(env, deviceId, a[..1]).GoOn? && JudgeAt(env, deviceId, a[..2]).GoOn?;
      assert a[..1] == [a[0]] && a[..2] == [a[0], a[1]];
    } else if k == 8 {
      SeventhJudge(env, deviceId, a[..7]);
    }
  }

  /** A device that holds the same keys the other way round, and the same node ids, can read the channel of CASE, and
      the channel can read the device. */
  lemma CaseMirrors(env: Env, controllerId: uint64, deviceId: uint64, sigma2: DecodedGeneric, s: Sigma3,
                    counter: uint32, session: int)
    requires env.sigma3(sigma2) == Made(s)
    ensures var c := CaseChannel(env, controllerId, deviceId, sigma2);
            var controllerNode, deviceNode := LittleEndian(controllerId, 8), LittleEndian(deviceId, 8);
            var device := Channel(s.r2i, s.i2r, controllerNode, deviceNode, counter, session);
            Mirrored(c, device) && Mirrored(device, c)
  {
  }

  lemma StageSession(env: Env, controllerId: uint64, deviceId: uint64, a: seq<DecodedGeneric>, k: nat)
    requires Allowed(env, deviceId, a, k) && k < 9
    ensures var session := ChannelAt(env, controllerId, deviceId, a[..k]).session % 0x1_0000;
            if 3 <= k < 6 then
              var announced := GetIntRec(a[0].tlv, [3]); announced.Some? && session == announced.value % 0x1_0000
            else if k == 8 then env.sigma3(a[6]).Made? && session == env.sigma3(a[6]).value.session % 0x1_0000
            else session == 0
  {
    ChannelStages(env, controllerId, deviceId, a, k);
    if 3 <= k < 6 {
      SessionBits(GetIntRec(a[0].tlv, [3]).value);
    } else if k == 8 {
      SessionBits(env.sigma3(a[6]).value.session);
    }
  }

  /** The session that stands in the header of every datagram: none in the two exchanges, the announced one with the
      commands, that of the Sigma context with the completion. */
  lemma SessionOnWire(env: Env, controllerId: uint64, deviceId: uint64, run: Run, k: nat, e: Event)
    requires CommissionRun(env, controllerId, deviceId, run) && SentIn(run, k, e)
    requires Send(env.aes, e.chan, e.data).Sent?
    ensures var d, a := Send(env.aes, e.chan, e.data).datagram, run.end.answers;
            && k < 9 && Allowed(env, deviceId, a, k) && |d| >= 16
            && var session := FromLittleEndian(d[1..3]);
               if 3 <= k < 6 then
                 var announced := GetIntRec(a[0].tlv, [3]); announced.Some? && session == announced.value % 0x1_0000
               else if k == 8 then env.sigma3(a[6]).Made? && session == env.sigma3(a[6]).value.session % 0x1_0000
               else session == 0
  {
    ChannelOfEvent(env, controllerId, deviceId, run, k, e);
    StageSession(env, controllerId, deviceId, run.end.answers, k);
    SentBytes(env.aes, e.chan, e.data);
  }

  lemma ChannelOfEvent(env: Env, controllerId: uint64, deviceId: uint64, run: Run, k: nat, e: Event)
    requires CommissionRun(env, controllerId, deviceId, run) && SentIn(run, k, e)
    ensures && k < 9 && Allowed(env, deviceId, run.end.answers, k)
            && e.chan.session == ChannelAt(env, controllerId, deviceId, run.end.answers[..k]).session
  {
    var part := run.parts[k];
    var i :| 0 <= i < |part| && part[i] == e;
    PartOfRun(env, controllerId, deviceId, run, k, i);
  }

  lemma SessionBits(session: uint64)
    ensures ToInt64(session) % 0x1_0000 == session % 0x1_0000
  {
  }

  // ----- what the questions say

  /** The header of every question: from the initiator, with the opcode and the protocol of its kind, and with one
      exchange id for PASE, one for each command, and one for Sigma. */
  lemma QuestionHeader(env: Env, controllerId: uint64, deviceId: uint64, a: seq<DecodedGeneric>)
    requires |a| < 9
    ensures var s, k := RequestBytes(RequestAt(env, controllerId, deviceId, a)), |a|;
            && |s| >= 6 && s[0] == 5
            && s[1] == [0x20, 0x22, 0x24, 8, 8, 8, 0x30, 0x32, 8][k]
            && FromLittleEndian(s[2..4]) == env.exchanges([0, 0, 0, 1, 2, 3, 5, 5, 6][k])
            && s[4..6] == if 3 <= k < 6 || k == 8 then [1, 0] else [0, 0]
  {
    RequestHeader(RequestAt(env, controllerId, deviceId, a));
  }

  lemma RequestHeader(r: Request)
    ensures var s := RequestBytes(r);
            && |s| >= 6 && s[0] == 5 && FromLittleEndian(s[2..4]) == r.exchange
            && s[1] == (if r.Secure? then r.opcode else 8) && s[4..6] == (if r.Secure? then [0, 0] else [1, 0])
            && (r.Secure? ==> s[6..] == r.payload)
  {
    match r {
      case Secure(opcode, exchange, payload) => SecureHeader(opcode, exchange, payload);
      case Invoke(cluster, command, fields, exchange) =>
        InvokeHeaderBytes(0, cluster, command, fields, false, exchange);
    }
  }

  lemma SecureHeader(opcode: byte, exchange: uint16, payload: seq<byte>)
    ensures var s := SecureRequest(opcode, exchange, payload);
            && |s| >= 6 && s[0] == 5 && s[1] == opcode && FromLittleEndian(s[2..4]) == exchange && s[4..6] == [0, 0]
            && s[6..] == payload
  {
    var p := ProtocolHeader(5, opcode, exchange, PROTOCOL_SECURE_CHANNEL, 0);
    var s := SecureRequest(opcode, exchange, payload);
    ProtocolHeaderBytes(p);
    assert s[..6] == EncodeProtocolHeader(p) && s[2..4] == EncodeProtocolHeader(p)[2..4];
    assert s[4..6] == EncodeProtocolHeader(p)[4..6];
    ZeroIff(s[4..6]);
  }

  /** Octets under a tag, among some written fields. */
  lemma OctetsField(head: Head, ts: seq<Tree>, i: nat, tag: byte, data: seq<byte>)
    requires i < |ts| && ts[i] == Octets(tag, data)
    requires forall k: nat :: k < i ==> ItemOf(ts[k]).tag != tag
    ensures GetOctetStringRec(ItemOf(Container(head, ts)), [tag]) == data
  {
    Field(head, ts, i, tag);
  }

  /** A number under a tag. */
  lemma NumberField(head: Head, ts: seq<Tree>, i: nat, tag: byte, typ: UIntType, n: nat)
    requires i < |ts| && ts[i] == UInt(tag, typ, n) && n < Pow256(UIntSize(typ))
    requires forall k: nat :: k < i ==> ItemOf(ts[k]).tag != tag
    ensures GetIntRec(ItemOf(Container(head, ts)), [tag]) == Some(n)
  {
    Field(head, ts, i, tag);
    Pow256Values();
  }

  lemma Field(head: Head, ts: seq<Tree>, i: nat, tag: byte)
    requires i < |ts| && ItemOf(ts[i]).tag == tag
    requires forall k: nat :: k < i ==> ItemOf(ts[k]).tag != tag
    ensures GetItemRec(ItemOf(Container(head, ts)), [tag]) == Some(ItemOf(ts[i]))
  {
    forall k: nat | k <= i ensures ItemsOf(ts)[k] == ItemOf(ts[k]) {
      ItemAt(ts, k);
    }
    Down(ItemOf(Container(head, ts)), i, tag, [], Some(ItemOf(ts[i])));
    assert [tag] + [] == [tag];
  }

  lemma {:induction false} ItemAt(ts: seq<Tree>, i: nat)
    requires i < |ts|
    ensures ItemsOf(ts)[i] == ItemOf(ts[i])
  {
    if i > 0 {
      ItemAt(ts[1..], i - 1);
    }
  }

  lemma {:induction false} RepresentableAll(ts: seq<Tree>)
    requires forall i :: 0 <= i < |ts| ==> Representable(ts[i])
    ensures AllRepresentable(ts)
  {
    if |ts| > 0 {
      assert forall i :: 0 <= i < |ts[1..]| ==> ts[1..][i] == ts[i + 1];
      RepresentableAll(ts[1..]);
    }
  }

  /** The parameter request announces the commissioner's random number, session 1, passcode 0 and no parameters. */
  lemma ParameterRequest(env: Env, controllerId: uint64, deviceId: uint64)
    requires |env.random(0)| <= 0xffff
    ensures var s := RequestBytes(RequestAt(env, controllerId, deviceId, []));
            && |s| >= 6
            && var d := DecodeFirst(s[6..]);
               && d.Got?
               && GetOctetStringRec(d.value, [1]) == env.random(0)
               && GetIntRec(d.value, [2]) == Some(1) && GetIntRec(d.value, [3]) == Some(0)
               && GetItemRec(d.value, [4]) == Some(Item(4, TypeBool, 8, false, 0, [], [], []))
               && s[6..] == PbkdfPayload(env)
  {
    var ts := [Octets(1, env.random(0)), UInt(2, 5, 1), UInt(3, 4, 0), Bool(4, false)];
    SecureHeader(0x20, env.exchanges(0), PbkdfPayload(env));
    RepresentableAll(ts);
    MessageRoundTrip(Container(AnonStruct, ts));
    Pow256Values();
    OctetsField(AnonStruct, ts, 0, 1, env.random(0));
    NumberField(AnonStruct, ts, 1, 2, 5, 1);
    NumberField(AnonStruct, ts, 2, 3, 4, 0);
    Field(AnonStruct, ts, 3, 4);
  }

  lemma KeyField(opcode: byte, exchange: uint16, key: seq<byte>)
    requires |key| <= 0xffff
    ensures var s := SecureRequest(opcode, exchange, Encode(PakeTree(key)));
            && |s| >= 6
            && var d := DecodeFirst(s[6..]); d.Got? && GetOctetStringRec(d.value, [1]) == key
  {
    SecureHeader(opcode, exchange, Encode(PakeTree(key)));
    RepresentableAll([Octets(1, key)]);
    MessageRoundTrip(PakeTree(key));
    OctetsField(AnonStruct, [Octets(1, key)], 0, 1, key);
  }

  /** The share is the one for the salt and the iterations that the device sent. */
  lemma ShareMessage(env: Env, controllerId: uint64, deviceId: uint64, response: DecodedGeneric, n: uint64)
    requires GetIntRec(response.tlv, [4, 1]) == Some(n)
    requires |env.share(GetOctetStringRec(response.tlv, [4, 2]), n)| <= 0xffff
    ensures var s := RequestBytes(RequestAt(env, controllerId, deviceId, [response]));
            && |s| >= 6
            && var d := DecodeFirst(s[6..]);
               && d.Got?
               && GetOctetStringRec(d.value, [1]) == env.share(GetOctetStringRec(response.tlv, [4, 2]), n)
  {
    KeyField(0x22, env.exchanges(0), env.share(GetOctetStringRec(response.tlv, [4, 2]), n));
  }

  /** The confirmation comes from these, the device's share, and both payloads. */
  lemma ConfirmationMessage(env: Env, controllerId: uint64, deviceId: uint64, response: DecodedGeneric,
                            pake2: DecodedGeneric, n: uint64, keys: SpakeKeys)
    requires GetIntRec(response.tlv, [4, 1]) == Some(n)
    requires env.spake(GetOctetStringRec(response.tlv, [4, 2]), n, GetOctetStringRec(pake2.tlv, [1]), PbkdfPayload(env),
                       response.payload) == Some(keys)
    requires |keys.confirmation| <= 0xffff
    ensures var s := RequestBytes(RequestAt(env, controllerId, deviceId, [response, pake2]));
            && |s| >= 6
            && var d := DecodeFirst(s[6..]); d.Got? && GetOctetStringRec(d.value, [1]) == keys.confirmation
  {
    KeyField(0x24, env.exchanges(0), keys.confirmation);
  }

  /** A command on endpoint 0, not timed, with written fields. */
  lemma CommandRead(cluster: uint32, command: uint32, ts: seq<Tree>, exchange: uint16)
    requires AllRepresentable(ts)
    ensures var s := RequestBytes(Invoke(cluster, command, EncodeAll(ts), exchange));
            && |s| >= 6
            && var d := DecodeFirst(s[6..]);
               && d.Got?
               && GetIntRec(d.value, [2, 0, 0, 0]) == Some(0) && GetIntRec(d.value, [2, 0, 0, 1]) == Some(cluster)
               && GetIntRec(d.value, [2, 0, 0, 2]) == Some(command)
               && GetItemRec(d.value, [2, 0, 1]) == Some(ItemOf(Container(Struct(1), ts)))
               && GetItemRec(d.value, [1]) == Some(Item(1, TypeBool, 8, false, 0, [], [], []))
  {
    WrittenIsBalanced(ts);
    InvokeHeaderBytes(0, cluster, command, EncodeAll(ts), false, exchange);
    RequestLookups(0, cluster, command, EncodeAll(ts), false, ItemsOf(ts));
    RequestFlags(0, cluster, command, EncodeAll(ts), false, ItemsOf(ts));
    RequestDecodes(0, cluster, command, EncodeAll(ts), false, ItemsOf(ts));
    FieldsLookup(0, cluster, command, ItemsOf(ts), false);
  }

  /** A lookup among the fields of a command. */
  lemma FieldOfRequest(request: Item, fields: Item, tag: int)
    requires GetItemRec(request, [2, 0, 1]) == Some(fields)
    ensures GetItemRec(request, [2, 0, 1, tag]) == GetItemRec(fields, [tag])
  {
    GetItemRecConcat(request, [2, 0, 1], [tag]);
    assert [2, 0, 1] + [tag] == [2, 0, 1, tag];
  }

  /** The certificate request carries the commissioner's second random number. */
  lemma CsrMessage(env: Env, controllerId: uint64, deviceId: uint64, a: seq<DecodedGeneric>)
    requires |a| == 3 && |env.random(1)| <= 0xffff
    ensures var s := RequestBytes(RequestAt(env, controllerId, deviceId, a));
            && |s| >= 6
            && var d := DecodeFirst(s[6..]);
               && d.Got?
               && GetIntRec(d.value, [2, 0, 0, 1]) == Some(0x3e) && GetIntRec(d.value, [2, 0, 0, 2]) == Some(4)
               && GetOctetStringRec(d.value, [2, 0, 1, 0]) == env.random(1)
  {
    var ts := [Octets(0, env.random(1))];
    RepresentableAll(ts);
    CommandRead(0x3e, 4, ts, env.exchanges(1));
    OctetsField(Struct(1), ts, 0, 0, env.random(1));
    FieldOfRequest(DecodeFirst(RequestBytes(Invoke(0x3e, 4, EncodeAll(ts), env.exchanges(1)))[6..]).value,
                   ItemOf(Container(Struct(1), ts)), 0);
  }

  lemma RootMessage(env: Env, controllerId: uint64, deviceId: uint64, a: seq<DecodedGeneric>, root: seq<byte>)
    requires |a| == 4 && env.caCertificate == Some(root) && |root| <= 0xffff
    ensures var s := RequestBytes(RequestAt(env, controllerId, deviceId, a));
            && |s| >= 6
            && var d := DecodeFirst(s[6..]);
               && d.Got?
               && GetIntRec(d.value, [2, 0, 0, 1]) == Some(0x3e) && GetIntRec(d.value, [2, 0, 0, 2]) == Some(0xb)
               && GetOctetStringRec(d.value, [2, 0, 1, 0]) == root
  {
    var ts := [Octets(0, root)];
    RepresentableAll(ts);
    CommandRead(0x3e, 0xb, ts, env.exchanges(2));
    OctetsField(Struct(1), ts, 0, 0, root);
    FieldOfRequest(DecodeFirst(RequestBytes(Invoke(0x3e, 0xb, EncodeAll(ts), env.exchanges(2)))[6..]).value,
                   ItemOf(Container(Struct(1), ts)), 0);
  }

  /** The operational certificate is the one for the key in the device's request; with it go the key of the fabric, the
      controller as administrator, and the vendor. */
  lemma NocMessage(env: Env, controllerId: uint64, deviceId: uint64, a: seq<DecodedGeneric>, noc: seq<byte>)
    requires |a| == 5 && NocOf(env, deviceId, a[3]) == Made(noc) && |noc| <= 0xffff && |env.ipk| <= 0xffff
    ensures var s := RequestBytes(RequestAt(env, controllerId, deviceId, a));
            && |s| >= 6
            && var d := DecodeFirst(s[6..]);
               && d.Got?
               && GetIntRec(d.value, [2, 0, 0, 1]) == Some(0x3e) && GetIntRec(d.value, [2, 0, 0, 2]) == Some(6)
               && GetOctetStringRec(d.value, [2, 0, 1, 0]) == noc && GetOctetStringRec(d.value, [2, 0, 1, 2]) == env.ipk
               && GetIntRec(d.value, [2, 0, 1, 3]) == Some(controllerId)
               && GetIntRec(d.value, [2, 0, 1, 4]) == Some(101)
  {
    NocRequest(env, controllerId, deviceId, a, noc);
    NocRequestRead(NocFields(noc, env.ipk, controllerId), noc, env.ipk, controllerId, env.exchanges(3));
  }

  lemma NocRequest(env: Env, controllerId: uint64, deviceId: uint64, a: seq<DecodedGeneric>, noc: seq<byte>)
    requires |a| == 5 && NocOf(env, deviceId, a[3]) == Made(noc)
    ensures RequestAt(env, controllerId, deviceId, a) ==
            Invoke(0x3e, 6, EncodeAll(NocFields(noc, env.ipk, controllerId)), env.exchanges(3))
  {
  }

  lemma NocRequestRead(ts: seq<Tree>, noc: seq<byte>, ipk: seq<byte>, controllerId: uint64, exchange: uint16)
    requires ts == [Octets(0, noc), Octets(2, ipk), UInt(3, 7, controllerId), UInt(4, 5, 101)]
    requires |noc| <= 0xffff && |ipk| <= 0xffff
    ensures var s := RequestBytes(Invoke(0x3e, 6, EncodeAll(ts), exchange));
            && |s| >= 6
            && var d := DecodeFirst(s[6..]);
               && d.Got?
               && GetIntRec(d.value, [2, 0, 0, 1]) == Some(0x3e) && GetIntRec(d.value, [2, 0, 0, 2]) == Some(6)
               && GetOctetStringRec(d.value, [2, 0, 1, 0]) == noc && GetOctetStringRec(d.value, [2, 0, 1, 2]) == ipk
               && GetIntRec(d.value, [2, 0, 1, 3]) == Some(controllerId)
               && GetIntRec(d.value, [2, 0, 1, 4]) == Some(101)
  {
    RepresentableAll(ts);
    CommandRead(0x3e, 6, ts, exchange);
    NocRead(ts, noc, ipk, controllerId);
    FieldsOfRequest(DecodeFirst(RequestBytes(Invoke(0x3e, 6, EncodeAll(ts), exchange))[6..]).value,
                    ItemOf(Container(Struct(1), ts)));
  }

  lemma FieldsOfRequest(request: Item, fields: Item)
    requires GetItemRec(request, [2, 0, 1]) == Some(fields)
    ensures GetOctetStringRec(request, [2, 0, 1, 0]) == GetOctetStringRec(fields, [0])
    ensures GetOctetStringRec(request, [2, 0, 1, 2]) == GetOctetStringRec(fields, [2])
    ensures GetIntRec(request, [2, 0, 1, 3]) == GetIntRec(fields, [3])
    ensures GetIntRec(request, [2, 0, 1, 4]) == GetIntRec(fields, [4])
  {
    FieldOfRequest(request, fields, 0);
    FieldOfRequest(request, fields, 2);
    FieldOfRequest(request, fields, 3);
    FieldOfRequest(request, fields, 4);
  }

  lemma NocRead(ts: seq<Tree>, noc: seq<byte>, ipk: seq<byte>, controllerId: uint64)
    requires ts == [Octets(0, noc), Octets(2, ipk), UInt(3, 7, controllerId), UInt(4, 5, 101)]
    ensures var fields := ItemOf(Container(Struct(1), ts));
            && GetOctetStringRec(fields, [0]) == noc && GetOctetStringRec(fields, [2]) == ipk
            && GetIntRec(fields, [3]) == Some(controllerId) && GetIntRec(fields, [4]) == Some(101)
  {
    Pow256Values();
    OctetsField(Struct(1), ts, 0, 0, noc);
    OctetsField(Struct(1), ts, 1, 2, ipk);
    NumberField(Struct(1), ts, 2, 3, 7, controllerId);
    NumberField(Struct(1), ts, 3, 4, 5, 101);
  }

  /** Whose key it is: the one in the certificate request inside the octets at [1, 0, 0, 1, 0], at [1] there. */
  lemma NocForKey(env: Env, deviceId: uint64, csrAnswer: DecodedGeneric, elements: Item, key: seq<byte>)
    requires DecodeFirst(GetOctetStringRec(csrAnswer.tlv, [1, 0, 0, 1, 0])) == Got(elements, [])
    requires env.parseCsr(GetOctetStringRec(elements, [1])) == EcdsaKey(key)
    ensures NocOf(env, deviceId, csrAnswer) == env.signCertificate(key, deviceId)
  {
  }

  /** Both Sigma messages are what the Sigma context yields. */
  lemma SigmaPayloads(env: Env, controllerId: uint64, deviceId: uint64, a: seq<DecodedGeneric>)
    requires 6 <= |a| < 8
    ensures var s := RequestBytes(RequestAt(env, controllerId, deviceId, a));
            && |s| >= 6
            && (|a| == 6 && env.sigma1.Some? ==> s[6..] == env.sigma1.value)
            && (|a| == 7 && env.sigma3(a[6]).Made? ==> s[6..] == env.sigma3(a[6]).value.payload)
  {
    RequestHeader(RequestAt(env, controllerId, deviceId, a));
  }

  /** The completion has no fields. */
  lemma CompletionRequest(env: Env, controllerId: uint64, deviceId: uint64, a: seq<DecodedGeneric>)
    requires |a| == 8
    ensures var s := RequestBytes(RequestAt(env, controllerId, deviceId, a));
            && |s| >= 6
            && var d := DecodeFirst(s[6..]);
               && d.Got?
               && GetIntRec(d.value, [2, 0, 0, 1]) == Some(0x30) && GetIntRec(d.value, [2, 0, 0, 2]) == Some(4)
               && GetItemRec(d.value, [2, 0, 1]) == Some(Item(1, TypeList, 0x15, false, 0, [], [], []))
  {
    NoFields(0x30, 4, [], env.exchanges(6));
    assert RequestAt(env, controllerId, deviceId, a) == Invoke(0x30, 4, [], env.exchanges(6));
  }

  lemma NoFields(cluster: uint32, command: uint32, ts: seq<Tree>, exchange: uint16)
    requires |ts| == 0
    ensures var s := RequestBytes(Invoke(cluster, command, [], exchange));
            && |s| >= 6
            && var d := DecodeFirst(s[6..]);
               && d.Got?
               && GetIntRec(d.value, [2, 0, 0, 1]) == Some(cluster) && GetIntRec(d.value, [2, 0, 0, 2]) == Some(command)
               && GetItemRec(d.value, [2, 0, 1]) == Some(Item(1, TypeList, 0x15, false, 0, [], [], []))
  {
    CommandRead(cluster, command, ts, exchange);
    assert EncodeAll(ts) == [];
  }

  // ----- which answers are taken

  /** The certificate request in an answer can be read. */
  ghost predicate ReadableCsr(env: Env, answer: DecodedGeneric) {
    var octets := GetOctetStringRec(answer.tlv, [1, 0, 0, 1, 0]);
    && octets != [] && DecodeFirst(octets).Got?
    && !env.parseCsr(GetOctetStringRec(DecodeFirst(octets).value, [1])).CsrError?
  }

  ghost predicate Signs(env: Env, deviceId: uint64, answer: DecodedGeneric) {
    var elements := DecodeFirst(GetOctetStringRec(answer.tlv, [1, 0, 0, 1, 0]));
    && elements.Got?
    && match env.parseCsr(GetOctetStringRec(elements.value, [1]))
       case EcdsaKey(key) => env.signCertificate(key, deviceId).Made?
       case _ => false
  }

  /** Parameters with opcode 0x21, a number of iterations and a session; a share with opcode 0x23 that the SPAKE2+
      context takes; no failing protocol code. */
  ghost predicate PaseTaken(env: Env, a: seq<DecodedGeneric>)
    requires |a| == 9
  {
    && a[0].protocolHeader.opcode == 0x21
    && GetIntRec(a[0].tlv, [4, 1]).Some? && GetIntRec(a[0].tlv, [3]).Some?
    && a[1].protocolHeader.opcode == 0x23
    && env.spake(GetOctetStringRec(a[0].tlv, [4, 2]), GetIntRec(a[0].tlv, [4, 1]).value,
                 GetOctetStringRec(a[1].tlv, [1]), PbkdfPayload(env), a[0].payload).Some?
    && a[2].statusReport.protocolCode == 0
  }

  /** A readable certificate request for an ECDSA key that is signed; 0 for AddTrustedRoot and for AddNOC. */
  ghost predicate CertificatesTaken(env: Env, deviceId: uint64, a: seq<DecodedGeneric>)
    requires |a| == 9
  {
    && ReadableCsr(env, a[3]) && env.caCertificate.Some?
    && ParseImInvokeResponse(a[4].tlv) == 0 && Signs(env, deviceId, a[3])
    && GetIntRec(a[5].tlv, [1, 0, 0, 1, 0]) == Some(0) && env.sigma1.Some?
  }

  /** Opcode 0x31, from which the Sigma context makes Sigma3; opcode 0x40 without a failure; and a result. */
  ghost predicate CaseTaken(env: Env, a: seq<DecodedGeneric>)
    requires |a| == 9
  {
    && !(a[6].protocolHeader.protocolId == 0 && a[6].protocolHeader.opcode == 0x40)
    && a[6].protocolHeader.opcode == 0x31 && env.sigma3(a[6]).Made?
    && a[7].protocolHeader.opcode == 0x40 && a[7].statusReport == StatusReport(0, 0, 0)
    && GetIntRec(a[8].tlv, [1, 0, 0, 1, 0]).Some?
  }

  /** Exactly the answers after which every question has been put and the run is done. */
  lemma TakenIff(env: Env, deviceId: uint64, a: seq<DecodedGeneric>)
    requires |a| == 9
    ensures Allowed(env, deviceId, a, 9) <==>
            PaseTaken(env, a) && CertificatesTaken(env, deviceId, a) && CaseTaken(env, a)
  {
    var taken := Taken(env, deviceId, a);
    PaseTakenIff(env, deviceId, a, taken);
    CertificatesTakenIff(env, deviceId, a, taken);
    CaseTakenIff(env, deviceId, a, taken);
    AllowedIffTaken(env, deviceId, a, taken);
    AllNine(taken, 9);
  }

  function Taken(env: Env, deviceId: uint64, a: seq<DecodedGeneric>): nat -> bool {
    (j: nat) => j <= |a| && JudgeAt(env, deviceId, a[..j]).GoOn?
  }

  lemma AllowedIffTaken(env: Env, deviceId: uint64, a: seq<DecodedGeneric>, taken: nat -> bool)
    requires taken == Taken(env, deviceId, a)
    ensures Allowed(env, deviceId, a, |a|) <==> forall j: nat :: 0 < j <= |a| ==> taken(j)
  {
    if forall j: nat :: 0 < j <= |a| ==> taken(j) {
      forall j | 0 < j <= |a| ensures JudgeAt(env, deviceId, a[..j]).GoOn? {
        assert taken(j);
      }
    }
  }

  lemma AllNine(taken: nat -> bool, n: nat)
    requires n == 9
    ensures (forall j: nat :: 0 < j <= n ==> taken(j)) <==>
            && taken(1) && taken(2) && taken(3) && taken(4) && taken(5) && taken(6) && taken(7) && taken(8) && taken(9)
  {
  }

  lemma PaseTakenIff(env: Env, deviceId: uint64, a: seq<DecodedGeneric>, taken: nat -> bool)
    requires |a| == 9 && taken == Taken(env, deviceId, a)
    ensures taken(1) && taken(2) && taken(3) <==> PaseTaken(env, a)
  {
  }

  lemma CertificatesTakenIff(env: Env, deviceId: uint64, a: seq<DecodedGeneric>, taken: nat -> bool)
    requires |a| == 9 && taken == Taken(env, deviceId, a)
    ensures taken(4) && taken(5) && taken(6) <==> CertificatesTaken(env, deviceId, a)
  {
    FourthJudge(env, deviceId, a[..4]);
    FifthJudge(env, deviceId, a[..5]);
    SixthJudge(env, deviceId, a[..6]);
  }

  lemma CaseTakenIff(env: Env, deviceId: uint64, a: seq<DecodedGeneric>, taken: nat -> bool)
    requires |a| == 9 && taken == Taken(env, deviceId, a)
    ensures taken(7) && taken(8) && taken(9) <==> CaseTaken(env, a)
  {
    SeventhJudge(env, deviceId, a[..7]);
    EighthJudge(env, deviceId, a[..8]);
    LastJudge(env, deviceId, a[..9]);
  }

  /** Exactly the answers that make the code panic, each after answers that were taken: a share that the SPAKE2+
      context panics over; an unreadable container around the certificate request, or no root certificate; a key that
      is no ECDSA key, or a panic over signing; no Sigma1 to go on with; and a panic over Sigma2. */
  lemma PanicIff(env: Env, deviceId: uint64, a: seq<DecodedGeneric>)
    requires 0 < |a| <= 9 && Allowed(env, deviceId, a, |a| - 1)
    ensures JudgeAt(env, deviceId, a).Crash? <==>
            || (|a| == 2 && a[1].protocolHeader.opcode == 0x23 && PaseKeys(env, a[0], a[1]).None?)
            || (|a| == 4 && GetOctetStringRec(a[3].tlv, [1, 0, 0, 1, 0]) != []
                && (DecodeFirst(GetOctetStringRec(a[3].tlv, [1, 0, 0, 1, 0])).Panicked?
                    || (ReadableCsr(env, a[3]) && env.caCertificate.None?)))
            || (|a| == 5 && ParseImInvokeResponse(a[4].tlv) == 0 && NocOf(env, deviceId, a[3]).Panics?)
            || (|a| == 6 && GetIntRec(a[5].tlv, [1, 0, 0, 1, 0]) == Some(0) && env.sigma1.None?)
            || (|a| == 7 && a[6].protocolHeader.opcode == 0x31 && env.sigma3(a[6]).Panics?)
  {
  }

  // ----- the closing message

  /** When there is one: not after an error in one of the two exchanges. */
  lemma ClosesIff(env: Env, controllerId: uint64, deviceId: uint64, run: Run)
    requires CommissionRun(env, controllerId, deviceId, run)
    ensures var bye := Bye(env, CommissionScript(env, controllerId, deviceId), run);
            && (bye == [] <==> run.r.Error? && (|run.parts| <= 3 || 7 <= |run.parts| <= 8))
            && (bye != [] ==>
                  && |bye| == 1 && bye[0].SentEvent?
                  && bye[0].data == EncodeStatusReport(StatusReport(0, 0, 3), env.exchanges(7)))
  {
  }

  /** Under which key: that of the last question; but none after a panic in one of the exchanges, or in front of CASE.
      */
  lemma ClosingKey(env: Env, controllerId: uint64, deviceId: uint64, run: Run)
    requires CommissionRun(env, controllerId, deviceId, run)
    requires Bye(env, CommissionScript(env, controllerId, deviceId), run) != []
    ensures var c := ClosingChannel(CommissionScript(env, controllerId, deviceId), run);
            var n, a := |run.parts|, run.end.answers;
            && 0 < n <= 9 && c.Some?
            && (n <= 3 ==> c.value == Channel([], [], [], [], 0, 0))
            && (3 < n <= 6 && !(|a| == 6 && run.r.Panic?) ==>
                  n - 1 <= |a| && KeyAt(env, a, n - 1, c.value.encryptKey))
            && (3 < n <= 8 && |a| >= 6 && run.r.Panic? ==> c.value.encryptKey == [])
            && (n == 9 ==> 8 <= |a| && KeyAt(env, a, 8, c.value.encryptKey))
  {
    var s, n, a := CommissionScript(env, controllerId, deviceId), |run.parts|, run.end.answers;
    InOrderAllowed(env, controllerId, deviceId, run, n - 1);
    ChannelKey(env, controllerId, deviceId, a, n - 1);
  }
}
