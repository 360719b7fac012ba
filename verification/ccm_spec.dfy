/** CBC-MAC, counter mode, sealing and opening as functions of byte strings. */
module CcmSpec {
  import opened Bytes
  import opened Options
  import opened CcmLength
  import opened CcmFormat

  // ----- CBC-MAC

  /** Folds whole blocks into a running MAC, in the order in which the code consumes them. */
  function CbcMac(E: BlockCipher, mac: Block, blocks: seq<byte>): Block
    requires |blocks| % 16 == 0
    decreases |blocks|
  {
    if |blocks| == 0 then mac
    else CbcMac(E, E(XorSeq(mac, blocks[..16])), blocks[16..])
  }

  lemma {:induction false} CbcMacConcat(E: BlockCipher, mac: Block, a: seq<byte>, b: seq<byte>)
    requires |a| % 16 == 0 && |b| % 16 == 0
    ensures |a + b| % 16 == 0
    ensures CbcMac(E, mac, a + b) == CbcMac(E, CbcMac(E, mac, a), b)
    decreases |a|
  {
    if |a| == 0 {
      assert a + b == b;
    } else {
      CbcMacConcat(E, E(XorSeq(mac, a[..16])), a[16..], b);
      FirstBlock(a, b);
    }
  }

  lemma FirstBlock(a: seq<byte>, b: seq<byte>)
    requires |a| >= 16
    ensures (a + b)[..16] == a[..16] && (a + b)[16..] == a[16..] + b
  {
  }

  lemma CbcMacOneBlock(E: BlockCipher, mac: Block, b: Block)
    ensures CbcMac(E, mac, b) == E(XorSeq(mac, b))
  {
    assert b[..16] == b;
    assert CbcMac(E, E(XorSeq(mac, b)), b[16..]) == E(XorSeq(mac, b));
  }

  function BlockAt(blocks: seq<byte>, i: nat): Block
    requires 16 * i + 16 <= |blocks|
  {
    blocks[16 * i..16 * i + 16]
  }

  /** RFC 3610, section 2.2: X_1 := E(K, B_0), and X_i+1 := E(K, X_i XOR B_i). */
  function RfcX(E: BlockCipher, blocks: seq<byte>, i: nat): Block
    requires 1 <= i && 16 * i <= |blocks|
  {
    if i == 1 then E(BlockAt(blocks, 0))
    else E(XorSeq(RfcX(E, blocks, i - 1), BlockAt(blocks, i - 1)))
  }

  /** T := first-M-bytes(X_n+1). */
  function RfcTag(E: BlockCipher, blocks: seq<byte>, M: nat): seq<byte>
    requires |blocks| % 16 == 0 && |blocks| >= 16 && M <= 16
  {
    RfcX(E, blocks, |blocks| / 16)[..M]
  }

  function Tag(E: BlockCipher, m: Message): (t: seq<byte>)
    requires m.WellFormed()
    ensures |t| == m.M
  {
    CbcMac(E, E(B0(m)), BodyBlocks(m))[..m.M]
  }

  /** The fold over the blocks after B_0 and the RFC's chain indexed by block number agree. */
  lemma {:induction false} FoldIsChain(E: BlockCipher, blocks: seq<byte>, i: nat)
    requires 1 <= i && 16 * i <= |blocks|
    ensures CbcMac(E, E(BlockAt(blocks, 0)), blocks[16..16 * i]) == RfcX(E, blocks, i)
  {
    if i == 1 {
      assert blocks[16..16] == [];
    } else {
      FoldIsChain(E, blocks, i - 1);
      var x, b := RfcX(E, blocks, i - 1), BlockAt(blocks, i - 1);
      assert blocks[16..16 * i] == blocks[16..16 * (i - 1)] + b;
      CbcMacConcat(E, E(BlockAt(blocks, 0)), blocks[16..16 * (i - 1)], b);
      CbcMacOneBlock(E, x, b);
    }
  }

  /** The tag is the RFC's CBC-MAC of the blocks the code formats... */
  lemma TagIsCbcMacOfBlocks(E: BlockCipher, m: Message)
    requires m.WellFormed()
    ensures Tag(E, m) == RfcTag(E, Blocks(m), m.M)
  {
    var blocks := Blocks(m);
    var n := |blocks| / 16;
    FoldIsChain(E, blocks, n);
    assert BlockAt(blocks, 0) == B0(m);
    assert blocks[16..16 * n] == BodyBlocks(m);
  }

  /** ... and so the whole tag of RFC 3610 for associated data of at most 0xfeff bytes. */
  lemma TagIsRfcTag(E: BlockCipher, m: Message)
    requires m.WellFormed() && |m.adata| <= MAX_SHORT_ADATA
    ensures Tag(E, m) == RfcTag(E, RfcBlocks(m), m.M)
  {
    TagIsCbcMacOfBlocks(E, m);
    RfcFormatIff(m);
  }

  // ----- counter mode

  /** The big-endian increment of a counter block, carrying leftwards and dropping the last carry. */
  function Increment(s: seq<byte>): (r: seq<byte>)
    ensures |r| == |s|
  {
    if |s| == 0 then []
    else
      var n := |s| - 1;
      if s[n] == 0xff then Increment(s[..n]) + [0] else s[..n] + [s[n] + 1]
  }

  function CounterAt(iv: Block, i: nat): Block {
    if i == 0 then iv else Increment(CounterAt(iv, i - 1))
  }

  function CtrKeyByte(E: BlockCipher, iv: Block, j: nat): byte {
    E(CounterAt(iv, j / 16))[j % 16]
  }

  /** What the counter-mode stream cipher of the Go library makes of data. */
  function CtrStream(E: BlockCipher, iv: Block, data: seq<byte>): (r: seq<byte>)
    ensures |r| == |data|
  {
    seq(|data|, j requires 0 <= j < |data| => Xor(data[j], CtrKeyByte(E, iv, j)))
  }

  /** RFC 3610, section 2.3: the counter block A_i. */
  function A(L: nat, nonce: seq<byte>, i: nat): Block
    requires 2 <= L <= 8 && |nonce| == 15 - L
  {
    [L - 1] + nonce + BigEndian(i, L)
  }

  /** Byte j of the concatenation of S_1, S_2, S_3, ... where S_i := E(K, A_i). */
  function RfcKeyByte(E: BlockCipher, L: nat, nonce: seq<byte>, j: nat): byte
    requires 2 <= L <= 8 && |nonce| == 15 - L
  {
    E(A(L, nonce, j / 16 + 1))[j % 16]
  }

  function Encrypt(E: BlockCipher, L: nat, nonce: seq<byte>, data: seq<byte>): (r: seq<byte>)
    requires 2 <= L <= 8 && |nonce| == 15 - L
    ensures |r| == |data|
  {
    seq(|data|, j requires 0 <= j < |data| => Xor(data[j], RfcKeyByte(E, L, nonce, j)))
  }

  lemma {:induction false} IncrementBigEndian(prefix: seq<byte>, n: nat, k: nat)
    requires n + 1 < Pow256(k)
    ensures Increment(prefix + BigEndian(n, k)) == prefix + BigEndian(n + 1, k)
  {
    var s := prefix + BigEndian(n, k);
    var last := |s| - 1;
    assert s[..last] == prefix + BigEndian(n / 256, k - 1);
    assert s[last] == n % 256;
    if n % 256 == 0xff {
      assert (n + 1) / 256 == n / 256 + 1 && (n + 1) % 256 == 0;
      IncrementBigEndian(prefix, n / 256, k - 1);
    } else {
      assert (n + 1) / 256 == n / 256 && (n + 1) % 256 == n % 256 + 1;
    }
  }

  /** Counting from A_1, the 128-bit increments never carry out of the length field. */
  lemma {:induction false} CounterIsA(L: nat, nonce: seq<byte>, i: nat)
    requires 2 <= L <= 8 && |nonce| == 15 - L
    requires i + 1 < Pow256(L)
    ensures CounterAt(A(L, nonce, 1), i) == A(L, nonce, i + 1)
  {
    if i > 0 {
      CounterIsA(L, nonce, i - 1);
      NextCounterBlock(A(L, nonce, 1), i, A(L, nonce, i));
      NextA(L, nonce, i);
    }
  }

  lemma NextCounterBlock(iv: Block, i: nat, before: Block)
    requires i > 0 && CounterAt(iv, i - 1) == before
    ensures CounterAt(iv, i) == Increment(before)
  {
  }

  lemma NextA(L: nat, nonce: seq<byte>, i: nat)
    requires 2 <= L <= 8 && |nonce| == 15 - L
    requires i + 1 < Pow256(L)
    ensures Increment(A(L, nonce, i)) == A(L, nonce, i + 1)
  {
    IncrementBigEndian([L - 1] + nonce, i, L);
  }

  lemma BlockNumberFits(L: nat, j: nat, n: nat)
    requires 2 <= L && j < n < Pow256(L)
    ensures j / 16 + 1 < Pow256(L)
  {
    Pow256Mono(2, L);
    Pow256Values();
  }

  /** The counter mode of the library, started at A_1, is the encryption of RFC 3610, section 2.3. */
  lemma CtrIsEncrypt(E: BlockCipher, L: nat, nonce: seq<byte>, data: seq<byte>)
    requires 2 <= L <= 8 && |nonce| == 15 - L
    requires |data| < Pow256(L)
    ensures CtrStream(E, A(L, nonce, 1), data) == Encrypt(E, L, nonce, data)
  {
    forall j | 0 <= j < |data|
      ensures CtrStream(E, A(L, nonce, 1), data)[j] == Encrypt(E, L, nonce, data)[j]
    {
      SameKeyByte(E, L, nonce, j, |data|);
    }
  }

  lemma SameKeyByte(E: BlockCipher, L: nat, nonce: seq<byte>, j: nat, n: nat)
    requires 2 <= L <= 8 && |nonce| == 15 - L
    requires j < n < Pow256(L)
    ensures CtrKeyByte(E, A(L, nonce, 1), j) == RfcKeyByte(E, L, nonce, j)
  {
    BlockNumberFits(L, j, n);
    CounterIsA(L, nonce, j / 16);
  }

  /** All counter blocks of all nonces differ, as long as the counters fit their field. */
  lemma CounterBlocksDistinct(L: nat, nonce: seq<byte>, i: nat, nonce': seq<byte>, i': nat)
    requires 2 <= L <= 8 && |nonce| == |nonce'| == 15 - L
    requires i < Pow256(L) && i' < Pow256(L)
    ensures A(L, nonce, i) == A(L, nonce', i') <==> nonce == nonce' && i == i'
  {
    BigEndianRoundTrip(i, L);
    BigEndianRoundTrip(i', L);
    var a, a' := A(L, nonce, i), A(L, nonce', i');
    assert a[1..16 - L] == nonce && a'[1..16 - L] == nonce';
    assert a[16 - L..] == BigEndian(i, L) && a'[16 - L..] == BigEndian(i', L);
  }

  /** No counter block is the first block of a MAC computation, of any message. */
  lemma CounterBlockIsNoB0(m: Message, L: nat, nonce: seq<byte>, i: nat)
    requires m.WellFormed()
    requires 2 <= L <= 8 && |nonce| == 15 - L
    ensures A(L, nonce, i) != B0(m)
  {
    assert A(L, nonce, i)[0] < 8 <= B0(m)[0];
  }

  /** The blocks that one sealing feeds to the cipher for the tag mask, the key stream and B_0 are pairwise distinct. */
  lemma SealingBlocksDistinct(m: Message, i: nat, i': nat)
    requires m.WellFormed()
    requires i <= BlockCount(|m.plaintext|) && i' <= BlockCount(|m.plaintext|)
    ensures i != i' ==> A(m.L, m.nonce, i) != A(m.L, m.nonce, i')
    ensures A(m.L, m.nonce, i) != B0(m)
  {
    Pow256Mono(2, m.L);
    Pow256Values();
    CounterBlocksDistinct(m.L, m.nonce, i, m.nonce, i');
    CounterBlockIsNoB0(m, m.L, m.nonce, i);
  }

  // ----- sealing and opening

  function Seal(E: BlockCipher, m: Message): (c: seq<byte>)
    requires m.WellFormed()
    ensures |c| == |m.plaintext| + m.M
  {
    Encrypt(E, m.L, m.nonce, m.plaintext) + XorSeq(Tag(E, m), E(A(m.L, m.nonce, 0))[..m.M])
  }

  /** The block that RFC 3610 calls A_n: the length field minus one, the nonce, and n, most significant byte first. */
  ghost predicate IsCounterBlock(block: Block, L: nat, nonce: seq<byte>, n: nat)
    requires 2 <= L <= 8 && |nonce| == 15 - L
  {
    block[0] == L - 1 && block[1..16 - L] == nonce && FromBigEndian(block[16 - L..]) == n
  }

  lemma CounterBlockIsA(block: Block, L: nat, nonce: seq<byte>, n: nat)
    requires 2 <= L <= 8 && |nonce| == 15 - L && IsCounterBlock(block, L, nonce, n)
    ensures block == A(L, nonce, n)
  {
    BigEndianBytes(block[16 - L..]);
    assert block == [block[0]] + block[1..16 - L] + block[16 - L..];
  }

  /** Section 2.3 of RFC 3610, byte by byte: byte i of a sealing is that of the plaintext under byte i % 16 of the
      encrypted block number i / 16 + 1. */
  lemma SealedByte(E: BlockCipher, m: Message, i: nat, block: Block)
    requires m.WellFormed() && i < |m.plaintext| && IsCounterBlock(block, m.L, m.nonce, i / 16 + 1)
    ensures Seal(E, m)[i] == Xor(m.plaintext[i], E(block)[i % 16])
  {
    CounterBlockIsA(block, m.L, m.nonce, i / 16 + 1);
    EncryptedByte(E, m.L, m.nonce, m.plaintext, i);
  }

  lemma EncryptedByte(E: BlockCipher, L: nat, nonce: seq<byte>, data: seq<byte>, i: nat)
    requires 2 <= L <= 8 && |nonce| == 15 - L && i < |data|
    ensures Encrypt(E, L, nonce, data)[i] == Xor(data[i], E(A(L, nonce, i / 16 + 1))[i % 16])
  {
  }

  /** After the plaintext comes the tag, under the encrypted block number 0. */
  lemma SealedTagByte(E: BlockCipher, m: Message, i: nat, block: Block)
    requires m.WellFormed() && i < m.M && IsCounterBlock(block, m.L, m.nonce, 0)
    ensures |Seal(E, m)| == |m.plaintext| + m.M
    ensures Seal(E, m)[|m.plaintext| + i] == Xor(RfcTag(E, Blocks(m), m.M)[i], E(block)[i])
  {
    CounterBlockIsA(block, m.L, m.nonce, 0);
    TagIsCbcMacOfBlocks(E, m);
  }

  datatype Opened = Plaintext(p: seq<byte>) | TooShort | TooLong | InvalidNonceSize | AuthenticationFailed

  function Open(E: BlockCipher, M: nat, L: nat, nonce: seq<byte>, c: seq<byte>, adata: seq<byte>): Opened
    requires ValidSizes(M, L)
  {
    if |c| < M then TooShort
    else if |c| > MaxLen(L, M) + M then TooLong
    else if |nonce| != 15 - L then InvalidNonceSize
    else
      var p := Encrypt(E, L, nonce, c[..|c| - M]);
      var tag := XorSeq(c[|c| - M..], E(A(L, nonce, 0))[..M]);
      MaxLenIff(L, M, |p|);
      if tag == Tag(E, Message(M, L, nonce, adata, p)) then Plaintext(p) else AuthenticationFailed
  }

  function OpenOption(
    E: BlockCipher, M: nat, L: nat, nonce: seq<byte>, c: seq<byte>, adata: seq<byte>): Option<seq<byte>>
    requires ValidSizes(M, L)
  {
    match Open(E, M, L, nonce, c, adata)
    case Plaintext(p) => Some(p)
    case _ => None
  }

  /** Which error a call of Open reports, in the order of its checks. */
  lemma OpenErrors(E: BlockCipher, M: nat, L: nat, nonce: seq<byte>, c: seq<byte>, adata: seq<byte>)
    requires ValidSizes(M, L)
    ensures var r, bound := Open(E, M, L, nonce, c, adata), Min(Pow256(L) - 1, MAX_INT64 - M) + M;
            && (r.TooShort? <==> |c| < M)
            && (r.TooLong? <==> |c| > bound)
            && (r.InvalidNonceSize? <==> M <= |c| <= bound && |nonce| != 15 - L)
  {
    MaxLenValue(L, M);
    MaxLenIff(L, M, 0);
    Pow256Mono(2, L);
    Pow256Values();
  }

  lemma EncryptInvolution(E: BlockCipher, L: nat, nonce: seq<byte>, data: seq<byte>)
    requires 2 <= L <= 8 && |nonce| == 15 - L
    ensures Encrypt(E, L, nonce, Encrypt(E, L, nonce, data)) == data
  {
    forall j | 0 <= j < |data| ensures Encrypt(E, L, nonce, Encrypt(E, L, nonce, data))[j] == data[j] {
      XorInvolution(data[j], RfcKeyByte(E, L, nonce, j));
    }
  }

  lemma OpenInvertsSeal(E: BlockCipher, m: Message)
    requires m.WellFormed()
    ensures Open(E, m.M, m.L, m.nonce, Seal(E, m), m.adata) == Plaintext(m.plaintext)
  {
    var c := Seal(E, m);
    var s0 := E(A(m.L, m.nonce, 0))[..m.M];
    MaxLenIff(m.L, m.M, |m.plaintext|);
    assert c[..|c| - m.M] == Encrypt(E, m.L, m.nonce, m.plaintext);
    assert c[|c| - m.M..] == XorSeq(Tag(E, m), s0);
    EncryptInvolution(E, m.L, m.nonce, m.plaintext);
    XorSeqInvolution(Tag(E, m), s0);
  }

  lemma OpenedWasSealed(E: BlockCipher, M: nat, L: nat, nonce: seq<byte>, c: seq<byte>, adata: seq<byte>)
    requires ValidSizes(M, L)
    requires Open(E, M, L, nonce, c, adata).Plaintext?
    ensures var m := Message(M, L, nonce, adata, Open(E, M, L, nonce, c, adata).p);
            m.WellFormed() && c == Seal(E, m)
  {
    var body, sealedTag := c[..|c| - M], c[|c| - M..];
    var s0 := E(A(L, nonce, 0))[..M];
    var p := Encrypt(E, L, nonce, body);
    MaxLenIff(L, M, |p|);
    EncryptInvolution(E, L, nonce, body);
    XorSeqInvolution(sealedTag, s0);
    assert c == body + sealedTag;
  }

  /** Opening succeeds on the image of sealing and on nothing else, and returns what was sealed. */
  lemma OpenAcceptsExactlySealed(E: BlockCipher, M: nat, L: nat, nonce: seq<byte>, c: seq<byte>, adata: seq<byte>,
                                 p: seq<byte>)
    requires ValidSizes(M, L)
    ensures Open(E, M, L, nonce, c, adata) == Plaintext(p) <==>
            var m := Message(M, L, nonce, adata, p);
            |nonce| == 15 - L && |p| <= MaxLen(L, M) && m.WellFormed() && c == Seal(E, m)
  {
    var m := Message(M, L, nonce, adata, p);
    if Open(E, M, L, nonce, c, adata) == Plaintext(p) {
      OpenedWasSealed(E, M, L, nonce, c, adata);
      MaxLenIff(L, M, |p|);
    } else if m.WellFormed() && c == Seal(E, m) {
      OpenInvertsSeal(E, m);
    }
  }
}
