/** PASE between this commissioner and a device that runs the other side of SPAKE2+: both end with channels that can
    read each other. */
module PaseAgreement {
  import opened Bytes
  import opened Options
  import opened Groups
  import opened Spake2p
  import opened ChannelSpec
  import opened FlowSpec

  const SEED: string := "CHIP PAKE V1 Commissioning"

  function Ascii(s: string): seq<byte> {
    seq(|s|, i requires 0 <= i < |s| => s[i] as int % 0x100)
  }

  /** The hash context: a fixed text and both payloads of the parameter exchange. */
  function Seed(pbkdf: seq<byte>, response: seq<byte>): seq<byte> {
    Ascii(SEED) + pbkdf + response
  }

  /** What a passcode is turned into with a salt and a number of iterations. */
  datatype Secrets = Secrets(w0: seq<byte>, w1: seq<byte>)

  /** The SPAKE2+ context of a commissioner: its random scalar, and how secrets are made and points are read. */
  datatype Commissioner<!P> = Commissioner(
    curve: Curve<P>,
    hashes: Hashes,
    secrets: (seq<byte>, uint64) -> Secrets,
    x: nat,
    unmarshal: seq<byte> -> Option<P>)

  function CommissionerShare<P>(c: Commissioner<P>, s: Secrets): P {
    ShareX(c.curve, c.x, FromBigEndian(s.w0))
  }

  /** The commissioner's keys for the share that it received. */
  function CommissionerKeys<P>(c: Commissioner<P>, s: Secrets, Y: P, seed: seq<byte>): Keys {
    var w0, w1 := FromBigEndian(s.w0), FromBigEndian(s.w1);
    var Z, V := Mul(c.curve.group, c.x, UnblindY(c.curve, w0, Y)), Mul(c.curve.group, w1, UnblindY(c.curve, w0, Y));
    DeriveKeys(c.hashes, TranscriptOf(c.curve, c.hashes, seed, CommissionerShare(c, s), Y, Z, V, s.w0))
  }

  /** The context object as the commissioner uses it: its share, then the device's, and the keys. */
  method CommissionerSide<P(!new)>(c: Commissioner<P>, s: Secrets, Y: P, seed: seq<byte>) returns (share: P, keys: Keys)
    ensures share == CommissionerShare(c, s) && keys == CommissionerKeys(c, s, Y, seed)
  {
    var sctx := new SpakeCtx<P>(c.curve, s.w0, s.w1, c.x, 0);
    sctx.CalcX();
    share := sctx.X;
    sctx.Y := Y;
    sctx.CalcZV();
    sctx.CalcHash(c.hashes, seed);
    keys := sctx.keys;
  }

  /** The device's keys for the commissioner's share. */
  function DeviceKeys<P>(c: Commissioner<P>, s: Secrets, y: nat, X: P, seed: seq<byte>): Keys {
    var w0, w1 := FromBigEndian(s.w0), FromBigEndian(s.w1);
    var Z := Mul(c.curve.group, y, UnblindX(c.curve, w0, X));
    var V := Mul(c.curve.group, y, Mul(c.curve.group, w1, c.curve.base));
    DeriveKeys(c.hashes, TranscriptOf(c.curve, c.hashes, seed, X, ShareY(c.curve, y, w0), Z, V, s.w0))
  }

  function SpakeKeysOf(k: Keys): Option<SpakeKeys> {
    if |k.encrypt| == |k.decrypt| == 16 then Some(SpakeKeys(k.cA, k.encrypt, k.decrypt)) else None
  }

  /** A share that is no point makes the library panic. */
  function SpakeWith<P>(c: Commissioner<P>, salt: seq<byte>, iterations: uint64, share: seq<byte>, pbkdf: seq<byte>,
                        response: seq<byte>): Option<SpakeKeys> {
    match c.unmarshal(share)
    case None => None
    case Some(Y) => SpakeKeysOf(CommissionerKeys(c, c.secrets(salt, iterations), Y, Seed(pbkdf, response)))
  }

  /** The environment's SPAKE2+ is this context. */
  ghost predicate Runs<P>(env: Env, c: Commissioner<P>) {
    && (forall salt: seq<byte>, n: uint64 ::
          env.share(salt, n) == c.curve.marshal(CommissionerShare(c, c.secrets(salt, n))))
    && (forall salt: seq<byte>, n: uint64, share: seq<byte>, pbkdf: seq<byte>, response: seq<byte> ::
          env.spake(salt, n, share, pbkdf, response) == SpakeWith(c, salt, n, share, pbkdf, response))
  }

  lemma KeysAgree<P(!new)>(c: Commissioner<P>, s: Secrets, y: nat, seed: seq<byte>)
    requires IsAbelianGroup(c.curve.group)
    ensures CommissionerKeys(c, s, ShareY(c.curve, y, FromBigEndian(s.w0)), seed) ==
            DeviceKeys(c, s, y, CommissionerShare(c, s), seed)
  {
    SameKeys(c.curve, c.hashes, seed, c.x, y, s.w0, s.w1);
  }

  /** What the device hashes when it got the commissioner's share, with the points that it computes itself. */
  function DeviceTranscript<P>(c: Commissioner<P>, s: Secrets, y: nat, X: P, seed: seq<byte>): seq<byte> {
    var w0, w1 := FromBigEndian(s.w0), FromBigEndian(s.w1);
    var Y := c.curve.group.add(Mul(c.curve.group, y, c.curve.base), Mul(c.curve.group, w0, c.curve.seedN));
    var Z := Mul(c.curve.group, y, c.curve.group.add(X, c.curve.group.neg(Mul(c.curve.group, w0, c.curve.seedM))));
    var V := Mul(c.curve.group, y, Mul(c.curve.group, w1, c.curve.base));
    CreateTT(Transcript(c.hashes.sha256(seed), [], [], c.curve.marshal(c.curve.seedM), c.curve.marshal(c.curve.seedN),
                        c.curve.marshal(X), c.curve.marshal(Y), c.curve.marshal(Z), c.curve.marshal(V), s.w0))
  }

  /** The device's channel: it encrypts with the second part of the session keys, and decrypts with the first. */
  function DeviceChannel(h: Hashes, tt: seq<byte>, counter: uint32, session: int): Channel {
    var keys := h.sessionKeys(h.sha256(tt)[16..32]);
    Channel(keys[16..32], keys[..16], Zeros(8), Zeros(8), counter, session)
  }

  /** The confirmation that it expects: of its own share, with the first part of the confirmation keys. */
  function ExpectedConfirmation(h: Hashes, tt: seq<byte>, share: seq<byte>): seq<byte> {
    h.hmac(share, h.confirmationKeys(h.sha256(tt)[..16])[..16])
  }

  lemma DeviceKeyParts<P>(c: Commissioner<P>, s: Secrets, y: nat, X: P, seed: seq<byte>)
    ensures var k, tt := DeviceKeys(c, s, y, X, seed), DeviceTranscript(c, s, y, X, seed);
            && k.encrypt == c.hashes.sessionKeys(c.hashes.sha256(tt)[16..32])[..16]
            && k.decrypt == c.hashes.sessionKeys(c.hashes.sha256(tt)[16..32])[16..32]
            && k.cA == ExpectedConfirmation(c.hashes, tt, c.curve.marshal(ShareY(c.curve, y, FromBigEndian(s.w0))))
  {
  }

  /** When the device answered with its share for the same secrets, its channel, cut from its own hash of the
      transcript, and the commissioner's can read each other, and it expects the confirmation that the commissioner
      sends. */
  lemma PaseMirrors<P(!new)>(env: Env, c: Commissioner<P>, response: DecodedGeneric, pake2: DecodedGeneric, y: nat,
                             counter: uint32, session: int)
    requires Runs(env, c) && IsAbelianGroup(c.curve.group)
    requires Iterations(response).Some? && SessionOf(response).Some?
    requires var Y := ShareY(c.curve, y, FromBigEndian(c.secrets(Salt(response), Iterations(response).value).w0));
             ShareOf(pake2) == c.curve.marshal(Y) && c.unmarshal(ShareOf(pake2)) == Some(Y)
    ensures var s := c.secrets(Salt(response), Iterations(response).value);
            var seed := Ascii("CHIP PAKE V1 Commissioning") + PbkdfPayload(env) + response.payload;
            var tt := DeviceTranscript(c, s, y, CommissionerShare(c, s), seed);
            var a, b := PaseChannel(env, response, pake2), DeviceChannel(c.hashes, tt, counter, session);
            && Mirrored(a, b) && Mirrored(b, a)
            && PaseKeys(env, response, pake2).Some?
            && PaseKeys(env, response, pake2).value.confirmation == ExpectedConfirmation(c.hashes, tt, ShareOf(pake2))
  {
    var n := Iterations(response).value;
    var s, seed := c.secrets(Salt(response), n), Seed(PbkdfPayload(env), response.payload);
    KeysAgree(c, s, y, seed);
    DeviceKeyParts(c, s, y, CommissionerShare(c, s), seed);
    assert PaseKeys(env, response, pake2)
           == SpakeWith(c, Salt(response), n, ShareOf(pake2), PbkdfPayload(env), response.payload);
  }
}
