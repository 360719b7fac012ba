/** Scalar multiplication over any abelian group. */
module Groups {

  datatype Group<!P> = Group(zero: P, add: (P, P) -> P, neg: P -> P)

  // The laws are named so that a proof says where it uses which.

  ghost predicate AssociativeAt<P>(g: Group<P>, a: P, b: P, c: P) {
    g.add(g.add(a, b), c) == g.add(a, g.add(b, c))
  }

  ghost predicate CommutativeAt<P>(g: Group<P>, a: P, b: P) {
    g.add(a, b) == g.add(b, a)
  }

  ghost predicate UnitAt<P>(g: Group<P>, a: P) {
    g.add(a, g.zero) == a
  }

  ghost predicate InverseAt<P>(g: Group<P>, a: P) {
    g.add(a, g.neg(a)) == g.zero
  }

  ghost predicate IsAbelianGroup<P(!new)>(g: Group<P>) {
    && (forall a, b, c :: AssociativeAt(g, a, b, c))
    && (forall a, b :: CommutativeAt(g, a, b))
    && (forall a :: UnitAt(g, a))
    && (forall a :: InverseAt(g, a))
  }

  function Mul<P>(g: Group<P>, k: nat, p: P): P {
    if k == 0 then g.zero else g.add(p, Mul(g, k - 1, p))
  }

  /** Multiplying by a sum of scalars. */
  lemma {:induction false} MulPlus<P(!new)>(g: Group<P>, j: nat, k: nat, p: P)
    requires IsAbelianGroup(g)
    ensures Mul(g, j + k, p) == g.add(Mul(g, j, p), Mul(g, k, p))
  {
    var q := Mul(g, k, p);
    if j == 0 {
      assert CommutativeAt(g, g.zero, q) && UnitAt(g, q);
    } else {
      MulPlus(g, j - 1, k, p);
      assert AssociativeAt(g, p, Mul(g, j - 1, p), q);
    }
  }

  /** Multiplying counts: nothing, the element itself, and one more each time. */
  lemma MulCounts<P(!new)>(g: Group<P>, k: nat, p: P)
    requires IsAbelianGroup(g)
    ensures Mul(g, 0, p) == g.zero && Mul(g, 1, p) == p && Mul(g, k + 1, p) == g.add(Mul(g, k, p), p)
  {
    assert UnitAt(g, p);
    assert Mul(g, 1, p) == g.add(p, Mul(g, 0, p));
    MulPlus(g, k, 1, p);
  }

  /** Multiplying twice is multiplying by the product. */
  lemma {:induction false} MulMul<P(!new)>(g: Group<P>, j: nat, k: nat, p: P)
    requires IsAbelianGroup(g)
    ensures Mul(g, j, Mul(g, k, p)) == Mul(g, j * k, p)
  {
    if j > 0 {
      MulMul(g, j - 1, k, p);
      MulPlus(g, k, (j - 1) * k, p);
      assert k + (j - 1) * k == j * k;
    }
  }

  lemma MulCommutes<P(!new)>(g: Group<P>, j: nat, k: nat, p: P)
    requires IsAbelianGroup(g)
    ensures Mul(g, j, Mul(g, k, p)) == Mul(g, k, Mul(g, j, p))
  {
    MulMul(g, j, k, p);
    MulMul(g, k, j, p);
    assert j * k == k * j;
  }

  /** Taking away again what was added. */
  lemma Unblind<P(!new)>(g: Group<P>, a: P, b: P)
    requires IsAbelianGroup(g)
    ensures g.add(g.add(a, b), g.neg(b)) == a
  {
    assert AssociativeAt(g, a, b, g.neg(b)) && InverseAt(g, b) && UnitAt(g, a);
  }

  /** Putting back what was taken away. */
  lemma Reblind<P(!new)>(g: Group<P>, a: P, b: P)
    requires IsAbelianGroup(g)
    ensures g.add(g.add(a, g.neg(b)), b) == a
  {
    assert AssociativeAt(g, a, g.neg(b), b) && CommutativeAt(g, g.neg(b), b) && InverseAt(g, b) && UnitAt(g, a);
  }

  /** Two blindings of the same element agree exactly when the blinds do. */
  lemma BlindInjective<P(!new)>(g: Group<P>, a: P, b: P, c: P)
    requires IsAbelianGroup(g)
    ensures g.add(a, b) == g.add(a, c) <==> b == c
  {
    Unblind(g, b, a);
    Unblind(g, c, a);
    assert CommutativeAt(g, a, b) && CommutativeAt(g, a, c);
  }
}

/** SPAKE2+: the two sides of the key agreement, and the transcript that their keys are derived from. */
module Spake2p {
  import opened Bytes
  import opened Buffers
  import opened Groups

  /** The curve as the code uses it: a group, its base point, the two seed points, and how points are written. */
  datatype Curve<!P> = Curve(group: Group<P>, base: P, seedM: P, seedN: P, marshal: P -> seq<byte>)

  type Bytes32 = s: seq<byte> | |s| == 32 witness Zeros(32)
  type Bytes48 = s: seq<byte> | |s| == 48 witness Zeros(48)

  /** The hash functions of the library. */
  datatype Hashes = Hashes(
    sha256: seq<byte> -> Bytes32,
    confirmationKeys: seq<byte> -> Bytes32,
    sessionKeys: seq<byte> -> Bytes48,
    hmac: (seq<byte>, seq<byte>) -> seq<byte>)

  // ----- the points of the two sides

  function ShareX<P>(c: Curve<P>, x: nat, w0: nat): P {
    c.group.add(Mul(c.group, x, c.base), Mul(c.group, w0, c.seedM))
  }

  function ShareY<P>(c: Curve<P>, y: nat, w0: nat): P {
    c.group.add(Mul(c.group, y, c.base), Mul(c.group, w0, c.seedN))
  }

  /** The commissioner's unblinding of what it received. */
  function UnblindY<P>(c: Curve<P>, w0: nat, Y: P): P {
    c.group.add(Y, c.group.neg(Mul(c.group, w0, c.seedN)))
  }

  function UnblindX<P>(c: Curve<P>, w0: nat, X: P): P {
    c.group.add(X, c.group.neg(Mul(c.group, w0, c.seedM)))
  }

  /** Section 3.3 of RFC 9383: both sides compute the same Z and the same V. */
  lemma Agreement<P(!new)>(c: Curve<P>, x: nat, y: nat, w0: nat, w1: nat)
    requires IsAbelianGroup(c.group)
    ensures Mul(c.group, x, UnblindY(c, w0, ShareY(c, y, w0))) == Mul(c.group, y, UnblindX(c, w0, ShareX(c, x, w0)))
    ensures Mul(c.group, w1, UnblindY(c, w0, ShareY(c, y, w0))) == Mul(c.group, y, Mul(c.group, w1, c.base))
  {
    Unblind(c.group, Mul(c.group, y, c.base), Mul(c.group, w0, c.seedN));
    Unblind(c.group, Mul(c.group, x, c.base), Mul(c.group, w0, c.seedM));
    MulCommutes(c.group, x, y, c.base);
    MulCommutes(c.group, w1, y, c.base);
  }

  /** What the shares hide, and with which of the two seeds: taking w0 times M from the commissioner's leaves x times
      the base point, taking w0 times N from the device's leaves y times it. */
  lemma SharesBlinded<P(!new)>(c: Curve<P>, x: nat, y: nat, w0: nat)
    requires IsAbelianGroup(c.group)
    ensures c.group.add(ShareX(c, x, w0), c.group.neg(Mul(c.group, w0, c.seedM))) == Mul(c.group, x, c.base)
    ensures c.group.add(ShareY(c, y, w0), c.group.neg(Mul(c.group, w0, c.seedN))) == Mul(c.group, y, c.base)
  {
    Unblind(c.group, Mul(c.group, x, c.base), Mul(c.group, w0, c.seedM));
    Unblind(c.group, Mul(c.group, y, c.base), Mul(c.group, w0, c.seedN));
  }

  /** Unblinding takes away what the other side's share hides, whatever was received. */
  lemma UnblindsReceived<P(!new)>(c: Curve<P>, w0: nat, p: P)
    requires IsAbelianGroup(c.group)
    ensures c.group.add(UnblindY(c, w0, p), Mul(c.group, w0, c.seedN)) == p
    ensures c.group.add(UnblindX(c, w0, p), Mul(c.group, w0, c.seedM)) == p
  {
    Reblind(c.group, p, Mul(c.group, w0, c.seedN));
    Reblind(c.group, p, Mul(c.group, w0, c.seedM));
  }

  /** The common points are multiples of the base point: Z by x y, and V by w1 y. */
  lemma CommonPoints<P(!new)>(c: Curve<P>, x: nat, y: nat, w0: nat, w1: nat)
    requires IsAbelianGroup(c.group)
    ensures Mul(c.group, x, UnblindY(c, w0, ShareY(c, y, w0))) == Mul(c.group, x * y, c.base)
    ensures Mul(c.group, w1, UnblindY(c, w0, ShareY(c, y, w0))) == Mul(c.group, w1 * y, c.base)
  {
    SharesBlinded(c, x, y, w0);
    MulMul(c.group, x, y, c.base);
    MulMul(c.group, w1, y, c.base);
  }

  /** Each side unblinds to the other's plain share exactly when both hold the same multiple of the seed. */
  lemma UnblindingIff<P(!new)>(c: Curve<P>, x: nat, w0: nat, w0': nat)
    requires IsAbelianGroup(c.group)
    ensures UnblindX(c, w0', ShareX(c, x, w0)) == Mul(c.group, x, c.base)
       <==> Mul(c.group, w0, c.seedM) == Mul(c.group, w0', c.seedM)
  {
    var g, p := c.group, Mul(c.group, x, c.base);
    var b, b' := Mul(g, w0, c.seedM), Mul(g, w0', c.seedM);
    Unblind(g, p, b');
    Reblind(g, g.add(p, b), b');
    BlindInjective(g, p, b, b');
  }

  // ----- the transcript

  function SerializeBytes(p: seq<byte>): seq<byte> {
    LittleEndian(|p|, 8) + p
  }

  function SerializeAll(fields: seq<seq<byte>>): seq<byte> {
    if |fields| == 0 then [] else SerializeBytes(fields[0]) + SerializeAll(fields[1..])
  }

  datatype Transcript = Transcript(
    context: seq<byte>, a: seq<byte>, b: seq<byte>,
    m: seq<byte>, n: seq<byte>, x: seq<byte>, y: seq<byte>, z: seq<byte>, v: seq<byte>, w0: seq<byte>)
  {
    function Fields(): seq<seq<byte>> {
      [context, a, b, m, n, x, y, z, v, w0]
    }
  }

  function CreateTT(t: Transcript): seq<byte> {
    SerializeAll(t.Fields())
  }

  /** Lengths that a uint64 can hold. */
  ghost predicate LengthsFit(fields: seq<seq<byte>>) {
    forall i :: 0 <= i < |fields| ==> |fields[i]| < TWO_TO_THE_64
  }

  /** A length-prefixed field can be split off the front of whatever follows it. */
  lemma SerializeBytesPrefix(p: seq<byte>, rest: seq<byte>, q: seq<byte>, rest': seq<byte>)
    requires |p| < TWO_TO_THE_64 && |q| < TWO_TO_THE_64
    requires SerializeBytes(p) + rest == SerializeBytes(q) + rest'
    ensures p == q && rest == rest'
  {
    var s, s' := SerializeBytes(p) + rest, SerializeBytes(q) + rest';
    Pow256Values();
    LittleEndianRoundTrip(|p|, 8);
    LittleEndianRoundTrip(|q|, 8);
    assert s[..8] == LittleEndian(|p|, 8) && s'[..8] == LittleEndian(|q|, 8);
    assert s[8..8 + |p|] == p && s'[8..8 + |q|] == q;
    assert s[8 + |p|..] == rest && s'[8 + |q|..] == rest';
  }

  lemma {:induction false} SerializeAllPrefix(fs: seq<seq<byte>>, rest: seq<byte>, gs: seq<seq<byte>>, rest': seq<byte>)
    requires |fs| == |gs| && LengthsFit(fs) && LengthsFit(gs)
    requires SerializeAll(fs) + rest == SerializeAll(gs) + rest'
    ensures fs == gs && rest == rest'
  {
    if |fs| == 0 {
      assert SerializeAll(fs) + rest == rest && SerializeAll(gs) + rest' == rest';
    } else {
      var tail, tail' := SerializeAll(fs[1..]) + rest, SerializeAll(gs[1..]) + rest';
      assert SerializeAll(fs) + rest == SerializeBytes(fs[0]) + tail;
      assert SerializeAll(gs) + rest' == SerializeBytes(gs[0]) + tail';
      SerializeBytesPrefix(fs[0], tail, gs[0], tail');
      SerializeAllPrefix(fs[1..], rest, gs[1..], rest');
      assert fs == [fs[0]] + fs[1..] && gs == [gs[0]] + gs[1..];
    }
  }

  /** Transcripts are equal exactly when their bytes are. */
  lemma CreateTTInjective(t: Transcript, t': Transcript)
    requires LengthsFit(t.Fields()) && LengthsFit(t'.Fields())
    ensures CreateTT(t) == CreateTT(t') <==> t == t'
  {
    if CreateTT(t) == CreateTT(t') {
      SerializeAllPrefix(t.Fields(), [], t'.Fields(), []);
      var f, f' := t.Fields(), t'.Fields();
      assert f[0] == f'[0] && f[1] == f'[1] && f[2] == f'[2] && f[3] == f'[3] && f[4] == f'[4];
      assert f[5] == f'[5] && f[6] == f'[6] && f[7] == f'[7] && f[8] == f'[8] && f[9] == f'[9];
    }
  }

  /** These bytes are some fields, one after the other, each behind its length in eight bytes, least significant first.
      */
  ghost predicate IsFieldList(tt: seq<byte>, fields: seq<seq<byte>>)
    decreases |fields|
  {
    if |fields| == 0 then tt == []
    else
      var n := |fields[0]|;
      && |tt| >= 8 + n && FromLittleEndian(tt[..8]) == n && tt[8..8 + n] == fields[0]
      && IsFieldList(tt[8 + n..], fields[1..])
  }

  lemma OnePart(size: seq<byte>, field: seq<byte>, rest: seq<byte>)
    ensures var s, k, n := size + field + rest, |size|, |size| + |field|;
            s[..k] == size && s[k..n] == field && s[n..] == rest
  {
  }

  lemma {:induction false} SerializedIsList(fields: seq<seq<byte>>)
    requires LengthsFit(fields)
    ensures IsFieldList(SerializeAll(fields), fields)
    decreases |fields|
  {
    if |fields| > 0 {
      Pow256Values();
      LittleEndianRoundTrip(|fields[0]|, 8);
      OnePart(LittleEndian(|fields[0]|, 8), fields[0], SerializeAll(fields[1..]));
      SerializedIsList(fields[1..]);
    }
  }

  lemma {:induction false} ListIsSerialized(tt: seq<byte>, fields: seq<seq<byte>>)
    requires IsFieldList(tt, fields)
    ensures tt == SerializeAll(fields)
    decreases |fields|
  {
    if |fields| > 0 {
      var rest := tt[8 + |fields[0]|..];
      ListIsSerialized(rest, fields[1..]);
      FirstField(tt, fields[0], rest);
    }
  }

  lemma FirstField(tt: seq<byte>, field: seq<byte>, rest: seq<byte>)
    requires |tt| >= 8 + |field| && FromLittleEndian(tt[..8]) == |field|
    requires tt[8..8 + |field|] == field && tt[8 + |field|..] == rest
    ensures tt == SerializeBytes(field) + rest
  {
    LittleEndianBytes(tt[..8]);
    assert tt == tt[..8] + tt[8..8 + |field|] + tt[8 + |field|..];
  }

  /** The transcript, for fields of any lengths: context, both identities, both seeds, X, Y, Z, V and w0, in this
      order. */
  lemma TranscriptIff(tt: seq<byte>, t: Transcript)
    requires LengthsFit([t.context, t.a, t.b, t.m, t.n, t.x, t.y, t.z, t.v, t.w0])
    ensures tt == CreateTT(t) <==> IsFieldList(tt, [t.context, t.a, t.b, t.m, t.n, t.x, t.y, t.z, t.v, t.w0])
  {
    SerializedIsList([t.context, t.a, t.b, t.m, t.n, t.x, t.y, t.z, t.v, t.w0]);
    if IsFieldList(tt, [t.context, t.a, t.b, t.m, t.n, t.x, t.y, t.z, t.v, t.w0]) {
      ListIsSerialized(tt, [t.context, t.a, t.b, t.m, t.n, t.x, t.y, t.z, t.v, t.w0]);
    }
  }

  method SerializeInto(buf: Buffer, p: seq<byte>)
    modifies buf
    ensures buf.unread == old(buf.unread) + SerializeBytes(p)
  {
    buf.Write(LittleEndian(|p|, 8));
    buf.Write(p);
  }

  method SerializeFive(buf: Buffer, f0: seq<byte>, f1: seq<byte>, f2: seq<byte>, f3: seq<byte>, f4: seq<byte>)
    modifies buf
    ensures buf.unread == old(buf.unread) + SerializeAll([f0, f1, f2, f3, f4])
  {
    ghost var start := buf.unread;
    SerializeInto(buf, f0);
    SerializeInto(buf, f1);
    SerializeInto(buf, f2);
    SerializeInto(buf, f3);
    SerializeInto(buf, f4);
    FiveFields([f0, f1, f2, f3, f4]);
    FiveAppended(start, SerializeBytes(f0), SerializeBytes(f1), SerializeBytes(f2), SerializeBytes(f3),
                 SerializeBytes(f4));
  }

  lemma FiveAppended(start: seq<byte>, a: seq<byte>, b: seq<byte>, c: seq<byte>, d: seq<byte>, e: seq<byte>)
    ensures start + a + b + c + d + e == start + (a + b + c + d + e)
  {
  }

  method WriteTT(t: Transcript) returns (tt: seq<byte>)
    ensures tt == CreateTT(t)
  {
    var buf := new Buffer([]);
    SerializeFive(buf, t.context, t.a, t.b, t.m, t.n);
    SerializeFive(buf, t.x, t.y, t.z, t.v, t.w0);
    ghost var front, back := [t.context, t.a, t.b, t.m, t.n], [t.x, t.y, t.z, t.v, t.w0];
    SerializeAllConcat(front, back);
    assert front + back == t.Fields();
    assert buf.unread == SerializeAll(front) + SerializeAll(back);
    tt := buf.unread;
  }

  lemma FiveFields(f: seq<seq<byte>>)
    requires |f| == 5
    ensures SerializeAll(f) == SerializeBytes(f[0]) + SerializeBytes(f[1]) + SerializeBytes(f[2]) + SerializeBytes(f[3])
                               + SerializeBytes(f[4])
  {
    assert f == [f[0]] + ([f[1]] + ([f[2]] + ([f[3]] + [f[4]])));
    OneField(f[0]);
    OneField(f[1]);
    OneField(f[2]);
    OneField(f[3]);
    OneField(f[4]);
    SerializeAllConcat([f[0]], [f[1]] + ([f[2]] + ([f[3]] + [f[4]])));
    SerializeAllConcat([f[1]], [f[2]] + ([f[3]] + [f[4]]));
    SerializeAllConcat([f[2]], [f[3]] + [f[4]]);
    SerializeAllConcat([f[3]], [f[4]]);
    FiveParts(SerializeBytes(f[0]), SerializeBytes(f[1]), SerializeBytes(f[2]), SerializeBytes(f[3]),
              SerializeBytes(f[4]));
  }

  lemma FiveParts(a: seq<byte>, b: seq<byte>, c: seq<byte>, d: seq<byte>, e: seq<byte>)
    ensures a + (b + (c + (d + e))) == a + b + c + d + e
  {
  }

  lemma OneField(f: seq<byte>)
    ensures SerializeAll([f]) == SerializeBytes(f)
  {
    assert SerializeAll([f]) == SerializeBytes(f) + SerializeAll([f][1..]);
  }

  lemma {:induction false} SerializeAllConcat(fs: seq<seq<byte>>, gs: seq<seq<byte>>)
    ensures SerializeAll(fs + gs) == SerializeAll(fs) + SerializeAll(gs)
  {
    if |fs| == 0 {
      assert fs + gs == gs;
    } else {
      assert (fs + gs)[1..] == fs[1..] + gs;
      SerializeAllConcat(fs[1..], gs);
    }
  }

  // ----- the keys

  datatype Keys = Keys(ka: seq<byte>, ke: seq<byte>, cA: seq<byte>, cB: seq<byte>, encrypt: seq<byte>,
                       decrypt: seq<byte>)

  function TranscriptOf<P>(c: Curve<P>, h: Hashes, seed: seq<byte>, X: P, Y: P, Z: P, V: P, w0: seq<byte>): Transcript {
    Transcript(h.sha256(seed), [], [], c.marshal(c.seedM), c.marshal(c.seedN),
               c.marshal(X), c.marshal(Y), c.marshal(Z), c.marshal(V), w0)
  }

  function DeriveKeys(h: Hashes, t: Transcript): (k: Keys)
    ensures |k.encrypt| == |k.decrypt| == 16
  {
    var digest := h.sha256(CreateTT(t));
    var confirmation, session := h.confirmationKeys(digest[..16]), h.sessionKeys(digest[16..32]);
    Keys(digest[..16], digest[16..32], h.hmac(t.y, confirmation[..16]), h.hmac(t.x, confirmation[16..]),
         session[..16], session[16..32])
  }

  /** Which value stands where in the transcript of an exchange; the identities are empty. */
  lemma TranscriptHolds<P>(c: Curve<P>, h: Hashes, seed: seq<byte>, X: P, Y: P, Z: P, V: P, w0: seq<byte>)
    ensures var t := TranscriptOf(c, h, seed, X, Y, Z, V, w0);
            && t.context == h.sha256(seed) && t.a == t.b == [] && t.m == c.marshal(c.seedM) && t.n == c.marshal(c.seedN)
            && t.x == c.marshal(X) && t.y == c.marshal(Y) && t.z == c.marshal(Z) && t.v == c.marshal(V) && t.w0 == w0
  {
  }

  /** Which part of which hash every key is: the session keys come from the second half of the digest, the first of them
      encrypts for the commissioner and the second decrypts; the confirmations are made with keys from the first half,
      the commissioner's of the device's share and the device's of the commissioner's. */
  lemma KeyParts(h: Hashes, t: Transcript)
    ensures var k, digest := DeriveKeys(h, t), h.sha256(CreateTT(t));
            && k.ka == digest[..16] && k.ke == digest[16..32]
            && k.encrypt == h.sessionKeys(digest[16..32])[..16] && k.decrypt == h.sessionKeys(digest[16..32])[16..32]
            && k.cA == h.hmac(t.y, h.confirmationKeys(digest[..16])[..16])
            && k.cB == h.hmac(t.x, h.confirmationKeys(digest[..16])[16..])
  {
  }

  /** With the same context seed both sides derive the same keys and the same confirmations. */
  lemma SameKeys<P(!new)>(c: Curve<P>, h: Hashes, seed: seq<byte>, x: nat, y: nat, w0: seq<byte>, w1: seq<byte>)
    requires IsAbelianGroup(c.group)
    ensures var k0, k1 := FromBigEndian(w0), FromBigEndian(w1);
            var X, Y := ShareX(c, x, k0), ShareY(c, y, k0);
            var ZA, VA := Mul(c.group, x, UnblindY(c, k0, Y)), Mul(c.group, k1, UnblindY(c, k0, Y));
            var ZB, VB := Mul(c.group, y, UnblindX(c, k0, X)), Mul(c.group, y, Mul(c.group, k1, c.base));
            DeriveKeys(h, TranscriptOf(c, h, seed, X, Y, ZA, VA, w0))
                == DeriveKeys(h, TranscriptOf(c, h, seed, X, Y, ZB, VB, w0))
  {
    Agreement(c, x, y, FromBigEndian(w0), FromBigEndian(w1));
  }

  // ----- the context object

  class SpakeCtx<P(!new)> {
    const curve: Curve<P>
    var W0: seq<byte>
    var W1: seq<byte>
    var xRandom: nat
    var yRandom: nat
    var X: P
    var Y: P
    var Z: P
    var V: P
    var L: P
    var keys: Keys

    constructor (curve: Curve<P>, w0: seq<byte>, w1: seq<byte>, xRandom: nat, yRandom: nat)
      ensures this.curve == curve && W0 == w0 && W1 == w1 && this.xRandom == xRandom && this.yRandom == yRandom
    {
      this.curve, W0, W1, this.xRandom, this.yRandom := curve, w0, w1, xRandom, yRandom;
      X, Y, Z, V, L := curve.group.zero, curve.group.zero, curve.group.zero, curve.group.zero, curve.group.zero;
      keys := Keys([], [], [], [], [], []);
    }

    /** The curve library takes scalars as big-endian bytes. */
    function ScalarMult(p: P, k: seq<byte>): P {
      Mul(curve.group, FromBigEndian(k), p)
    }

    method CalcX()
      modifies this`X
      ensures X == ShareX(curve, xRandom, FromBigEndian(W0))
    {
      var t := Mul(curve.group, xRandom, curve.base);
      var p := ScalarMult(curve.seedM, W0);
      X := curve.group.add(t, p);
    }

    method CalcY()
      modifies this`Y
      ensures Y == ShareY(curve, yRandom, FromBigEndian(W0))
    {
      var yp := ScalarMult(curve.seedN, W0);
      var yt := Mul(curve.group, yRandom, curve.base);
      Y := curve.group.add(yt, yp);
    }

    /** The commissioner's side, from the Y that it received. */
    method CalcZV()
      modifies this`Z, this`V
      ensures Z == Mul(curve.group, xRandom, UnblindY(curve, FromBigEndian(W0), Y))
      ensures V == Mul(curve.group, FromBigEndian(W1), UnblindY(curve, FromBigEndian(W0), Y))
    {
      var wn := curve.group.neg(ScalarMult(curve.seedN, W0));
      var zn := curve.group.add(Y, wn);
      Z := Mul(curve.group, xRandom, zn);
      V := ScalarMult(zn, W1);
    }

    /** The device's side, from the X that it received. */
    method CalcZVb()
      modifies this`Z, this`V, this`L
      ensures Z == Mul(curve.group, yRandom, UnblindX(curve, FromBigEndian(W0), X))
      ensures L == Mul(curve.group, FromBigEndian(W1), curve.base)
      ensures V == Mul(curve.group, yRandom, L)
    {
      var un := curve.group.neg(ScalarMult(curve.seedM, W0));
      var zzn := curve.group.add(X, un);
      Z := Mul(curve.group, yRandom, zzn);
      L := ScalarMult(curve.base, W1);
      V := Mul(curve.group, yRandom, L);
    }

    method CalcHash(h: Hashes, seed: seq<byte>)
      modifies this`keys
      ensures keys == DeriveKeys(h, TranscriptOf(curve, h, seed, X, Y, Z, V, W0))
      ensures var digest := h.sha256(CreateTT(TranscriptOf(curve, h, seed, X, Y, Z, V, W0)));
              && keys.encrypt == h.sessionKeys(digest[16..32])[..16]
              && keys.decrypt == h.sessionKeys(digest[16..32])[16..32]
    {
      var t := TranscriptOf(curve, h, seed, X, Y, Z, V, W0);
      var tt := WriteTT(t);
      var digest := h.sha256(tt);
      var ka, ke := digest[..16], digest[16..32];
      var confirmation := h.confirmationKeys(ka);
      var cA, cB := h.hmac(curve.marshal(Y), confirmation[..16]), h.hmac(curve.marshal(X), confirmation[16..]);
      var session := h.sessionKeys(ke);
      keys := Keys(ka, ke, cA, cB, session[..16], session[16..32]);
    }
  }

  /** A whole exchange between two objects that hold the same secrets and seed ends with the same keys. */
  method Exchange<P(!new)>(a: SpakeCtx<P>, b: SpakeCtx<P>, h: Hashes, seed: seq<byte>)
    requires a != b && a.curve == b.curve && IsAbelianGroup(a.curve.group)
    requires a.W0 == b.W0 && a.W1 == b.W1
    modifies a, b
    ensures a.Z == b.Z && a.V == b.V && a.keys == b.keys
  {
    a.CalcX();
    b.X := a.X;
    b.CalcY();
    a.Y := b.Y;
    b.CalcZVb();
    a.CalcZV();
    Agreement(a.curve, a.xRandom, b.yRandom, FromBigEndian(a.W0), FromBigEndian(a.W1));
    a.CalcHash(h, seed);
    b.CalcHash(h, seed);
  }
}
