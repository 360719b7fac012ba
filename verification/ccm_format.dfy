/** The plaintext length bounds of CCM, in the arithmetic of a 64-bit int. */
module CcmLength {
  import opened Bytes

  predicate ValidSizes(M: nat, L: nat) {
    4 <= M <= 16 && M % 2 == 0 && 2 <= L <= 8
  }

  /** 1 << k in a uint64. */
  function ShiftedOne(k: nat): nat {
    if k < 64 then Pow2(k) else 0
  }

  /** n - 1 in a uint64. */
  function Decremented(n: nat): nat {
    if n == 0 then TWO_TO_THE_64 - 1 else n - 1
  }

  /** Both uint8 (the shift count) and uint64 (the subtraction) wrap around. */
  function MaxLen(L: byte, tagsize: nat): int
    requires tagsize <= MAX_INT64
  {
    var max := Decremented(ShiftedOne((8 * L) % 256));
    var m64 := MAX_INT64 - tagsize;
    if L > 8 || max > m64 then m64 else max
  }

  /** The length field of L bytes can hold n, and n bytes with a tag can be counted by an int. */
  predicate Fits(L: nat, tagsize: nat, n: nat) {
    n < Pow256(L) && n + tagsize <= MAX_INT64
  }

  lemma {:induction false} Pow2Of8(k: nat)
    ensures Pow2(8 * k) == Pow256(k)
  {
    if k > 0 {
      Pow2Of8(k - 1);
      assert Pow2(8 * k) == 4 * Pow2(8 * k - 2);
      assert Pow2(8 * k - 2) == 4 * Pow2(8 * k - 4);
      assert Pow2(8 * k - 4) == 4 * Pow2(8 * k - 6);
    }
  }

  /** The bound is 256^L - 1 unless a 64-bit int is too small for it; the shift wraps to zero for L = 8. */
  lemma MaxLenValue(L: byte, tagsize: nat)
    requires 1 <= L <= 8 && tagsize <= MAX_INT64
    ensures MaxLen(L, tagsize) == Min(Pow256(L) - 1, MAX_INT64 - tagsize)
  {
    MaxValue(L);
    Pow256Values();
    Pow256Mono(L, 8);
  }

  lemma MaxValue(L: byte)
    requires 1 <= L <= 8
    ensures Decremented(ShiftedOne((8 * L) % 256)) == Pow256(L) - 1
  {
    Pow256Values();
    assert (8 * L) % 256 == 8 * L;
    if L == 8 {
      assert ShiftedOne(64) == 0;
    } else {
      Pow2Of8(L);
      Pow256Mono(L, 7);
    }
  }

  lemma {:induction false} Pow256Mono(j: nat, k: nat)
    requires j <= k
    ensures Pow256(j) <= Pow256(k)
  {
    if j < k {
      Pow256Mono(j, k - 1);
    }
  }

  /** Exactly the lengths that fit pass the length check. */
  lemma MaxLenIff(L: byte, tagsize: nat, n: nat)
    requires 1 <= L <= 8 && tagsize <= MAX_INT64
    ensures n <= MaxLen(L, tagsize) <==> Fits(L, tagsize, n)
  {
    MaxLenValue(L, tagsize);
  }

  /** The bound leaves room for the tag in a 64-bit int, and grows with L. */
  lemma MaxLenBounds(L: byte, L': byte, tagsize: nat)
    requires L <= L' && tagsize <= 16
    ensures 0 <= MaxLen(L, tagsize)
    ensures MaxLen(L, tagsize) + tagsize <= MAX_INT64
    ensures MaxLen(L, tagsize) <= MaxLen(L', tagsize)
  {
    MaxLenAny(L, tagsize);
    MaxLenAny(L', tagsize);
    if L <= 8 && L' <= 8 {
      Pow256Mono(L, L');
    }
  }

  lemma MaxLenAny(L: byte, tagsize: nat)
    requires tagsize <= 16
    ensures MaxLen(L, tagsize) == if L > 8 then MAX_INT64 - tagsize else Min(Pow256(L) - 1, MAX_INT64 - tagsize)
  {
    if 1 <= L <= 8 {
      MaxLenValue(L, tagsize);
    } else if L == 0 {
      assert MaxLen(0, tagsize) == 0;
    }
  }

  /** A nonce of this size leaves a length field large enough for the plaintext, under a 16-byte tag. */
  predicate NonceSizeAccepts(noncesize: int, pdatalen: int) {
    7 <= noncesize <= 13 && pdatalen <= MaxLen(15 - noncesize, 16)
  }

  ghost predicate NoneAccepts(above: int, pdatalen: int) {
    forall n :: above < n ==> !NonceSizeAccepts(n, pdatalen)
  }

  lemma NoneAbove(L: byte, pdatalen: int)
    requires NoneAccepts(15 - L, pdatalen) && MaxLen(L, 16) < pdatalen
    ensures NoneAccepts(15 - (L + 1), pdatalen)
  {
  }

  /** The largest nonce size that accepts the plaintext length, or 0 when there is none. */
  method MaxNonceLength(pdatalen: int) returns (r: int)
    ensures r == 0 || NonceSizeAccepts(r, pdatalen)
    ensures forall n :: NonceSizeAccepts(n, pdatalen) ==> n <= r
  {
    var L := 2;
    while L <= 8
      invariant 2 <= L <= 9
      invariant NoneAccepts(15 - L, pdatalen)
    {
      if MaxLen(L, 16) >= pdatalen {
        return 15 - L;
      }
      NoneAbove(L, pdatalen);
      L := L + 1;
    }
    return 0;
  }
}

/** The block formatting of CCM: B_0, the length-prefixed associated data, padding. */
module CcmFormat {
  import opened Bytes
  import opened Options
  import opened CcmLength

  const BLOCK_SIZE: nat := 16

  type Block = b: seq<byte> | |b| == 16 witness Zeros(16)

  type BlockCipher = Block -> Block

  /** The associated data lengths that the code formats with a two-byte length. */
  const MAX_SHORT_ADATA: nat := 0xfeff

  // ----- messages and their blocks

  datatype Message = Message(M: nat, L: nat, nonce: seq<byte>, adata: seq<byte>, plaintext: seq<byte>) {
    predicate WellFormed() {
      ValidSizes(M, L) && |nonce| == 15 - L && Fits(L, M, |plaintext|)
    }
  }

  function Flags(m: Message): byte
    requires m.WellFormed()
  {
    (if |m.adata| > 0 then 64 else 0) + 4 * (m.M - 2) + (m.L - 1)
  }

  function B0(m: Message): Block
    requires m.WellFormed()
  {
    [Flags(m)] + m.nonce + BigEndian(|m.plaintext|, m.L)
  }

  /** The number of blocks that n bytes occupy. */
  function BlockCount(n: nat): nat {
    (n + 15) / 16
  }

  function PadLength(n: nat): (k: nat)
    ensures k < 16 && n + k == 16 * BlockCount(n)
  {
    16 * BlockCount(n) - n
  }

  /** Zero bytes up to the next block boundary; a whole number of blocks is left alone. */
  function Pad(s: seq<byte>): (r: seq<byte>)
    ensures |r| == 16 * BlockCount(|s|) && s <= r
  {
    s + Zeros(PadLength(|s|))
  }

  lemma PadZeros(s: seq<byte>, i: nat)
    requires i < |Pad(s)|
    ensures |Pad(s)| % 16 == 0 && |Pad(s)| < |s| + 16
    ensures Pad(s)[i] == if i < |s| then s[i] else 0
  {
  }

  /** How the code encodes the length of non-empty associated data. */
  function LengthPrefix(n: nat): seq<byte> {
    if n <= MAX_SHORT_ADATA then BigEndian(n, 2)
    else if n < TWO_TO_THE_32 then [0xfe, 0xff] + BigEndian(n, 4)
    else [0xfe, 0xff] + BigEndian(n, 8)
  }

  function AdataBlocks(adata: seq<byte>): (r: seq<byte>)
    ensures |r| % 16 == 0
  {
    if |adata| == 0 then [] else Pad(LengthPrefix(|adata|) + adata)
  }

  lemma WholeBlocks(a: nat, b: nat)
    requires a % 16 == 0 && b % 16 == 0
    ensures (a + b) % 16 == 0
  {
  }

  /** Everything after B_0. */
  function BodyBlocks(m: Message): (r: seq<byte>)
    ensures |r| % 16 == 0
  {
    WholeBlocks(|AdataBlocks(m.adata)|, |Pad(m.plaintext)|);
    AdataBlocks(m.adata) + Pad(m.plaintext)
  }

  /** The whole input of the CBC-MAC. */
  function Blocks(m: Message): (r: seq<byte>)
    requires m.WellFormed()
    ensures |r| % 16 == 0 && |r| >= 16
  {
    WholeBlocks(|B0(m)|, |BodyBlocks(m)|);
    B0(m) + BodyBlocks(m)
  }

  // ----- RFC 3610, section 2.2

  function RfcFlags(m: Message): byte
    requires m.WellFormed()
  {
    64 * (if |m.adata| > 0 then 1 else 0) + 8 * ((m.M - 2) / 2) + (m.L - 1)
  }

  function RfcLengthPrefix(n: nat): seq<byte> {
    if n < 0xff00 then BigEndian(n, 2)
    else if n < TWO_TO_THE_32 then [0xff, 0xfe] + BigEndian(n, 4)
    else [0xff, 0xff] + BigEndian(n, 8)
  }

  function RfcB0(m: Message): Block
    requires m.WellFormed()
  {
    [RfcFlags(m)] + m.nonce + BigEndian(|m.plaintext|, m.L)
  }

  function RfcAdataBlocks(adata: seq<byte>): (r: seq<byte>)
    ensures |r| % 16 == 0
  {
    if |adata| == 0 then [] else Pad(RfcLengthPrefix(|adata|) + adata)
  }

  function RfcBlocks(m: Message): (r: seq<byte>)
    requires m.WellFormed()
    ensures |r| % 16 == 0 && |r| >= 16
  {
    WholeBlocks(|RfcAdataBlocks(m.adata)|, |Pad(m.plaintext)|);
    WholeBlocks(|RfcB0(m)|, |RfcAdataBlocks(m.adata) + Pad(m.plaintext)|);
    RfcB0(m) + (RfcAdataBlocks(m.adata) + Pad(m.plaintext))
  }

  /** The code formats as RFC 3610 does exactly for associated data of at most 0xfeff bytes:
      from 0xff00 bytes on it writes the marker 0xfe 0xff in place of 0xff 0xfe or 0xff 0xff. */
  lemma RfcFormatIff(m: Message)
    requires m.WellFormed()
    ensures Blocks(m) == RfcBlocks(m) <==> |m.adata| <= MAX_SHORT_ADATA
  {
    assert Flags(m) == RfcFlags(m);
    if |m.adata| > MAX_SHORT_ADATA {
      assert Blocks(m)[16] == AdataBlocks(m.adata)[0] == 0xfe;
      assert RfcBlocks(m)[16] == 0xff;
    } else if |m.adata| > 0 {
      assert LengthPrefix(|m.adata|) == RfcLengthPrefix(|m.adata|);
      assert Blocks(m) == RfcBlocks(m);
    } else {
      assert Blocks(m) == RfcBlocks(m);
    }
  }

  /** In front of longer associated data there is 0xfe 0xff, and its length in four bytes, or in eight. */
  lemma LongAdata(m: Message)
    requires m.WellFormed() && MAX_SHORT_ADATA < |m.adata| < TWO_TO_THE_64
    ensures var blocks, k := Blocks(m), if |m.adata| < TWO_TO_THE_32 then 4 else 8;
            && |blocks| >= 18 + k + |m.adata| && blocks[16] == 0xfe && blocks[17] == 0xff
            && FromBigEndian(blocks[18..18 + k]) == |m.adata|
            && blocks[18 + k..18 + k + |m.adata|] == m.adata
  {
    var k := if |m.adata| < TWO_TO_THE_32 then 4 else 8;
    var size, prefix := BigEndian(|m.adata|, k), LengthPrefix(|m.adata|);
    var tail := Zeros(PadLength(|prefix + m.adata|)) + Pad(m.plaintext);
    Pow256Values();
    BigEndianRoundTrip(|m.adata|, k);
    BlocksParts(B0(m), size, m.adata, Zeros(PadLength(|prefix + m.adata|)), Pad(m.plaintext));
    Places(B0(m), size, m.adata, tail);
  }

  lemma BlocksParts(b0: Block, size: seq<byte>, adata: seq<byte>, padding: seq<byte>, rest: seq<byte>)
    ensures b0 + (([0xfe, 0xff] + size + adata + padding) + rest) ==
            b0 + ([0xfe, 0xff] + (size + (adata + (padding + rest))))
  {
  }

  lemma Places(b0: Block, size: seq<byte>, adata: seq<byte>, tail: seq<byte>)
    ensures var s, k := b0 + ([0xfe, 0xff] + (size + (adata + tail))), |size|;
            && |s| >= 18 + k + |adata| && s[16] == 0xfe && s[17] == 0xff
            && s[18..18 + k] == size && s[18 + k..18 + k + |adata|] == adata
  {
  }

  // ----- the format can be read back

  function SizesOf(flags: byte): (nat, nat) {
    (2 + 2 * (flags / 8 % 8), 1 + flags % 8)
  }

  /** Reads a message from the front of a byte string, ignoring what follows. */
  function Parse(s: seq<byte>): Option<Message> {
    if |s| < 16 then None else
    var (M, L) := SizesOf(s[0]);
    var nonce, len := s[1..16 - L], FromBigEndian(s[16 - L..16]);
    if s[0] < 64 then ParseBody(M, L, nonce, [], s[16..], len)
    else ParseAdata(M, L, nonce, s[16..], len)
  }

  function ParseAdata(M: nat, L: nat, nonce: seq<byte>, s: seq<byte>, len: nat): Option<Message> {
    if |s| < 2 then None else
    var n := FromBigEndian(s[..2]);
    var used := 2 + n + PadLength(2 + n);
    if |s| < used then None
    else ParseBody(M, L, nonce, s[2..2 + n], s[used..], len)
  }

  function ParseBody(M: nat, L: nat, nonce: seq<byte>, adata: seq<byte>, s: seq<byte>, len: nat): Option<Message> {
    if |s| < len then None else Some(Message(M, L, nonce, adata, s[..len]))
  }

  lemma FlagsFields(m: Message)
    requires m.WellFormed()
    ensures SizesOf(Flags(m)) == (m.M, m.L)
    ensures Flags(m) < 64 <==> |m.adata| == 0
  {
    var a := if |m.adata| > 0 then 1 else 0;
    var h := m.M / 2 - 1;
    assert m.M == 2 + 2 * h;
    assert Flags(m) == 8 * (8 * a + h) + (m.L - 1);
    DivModUnique(Flags(m), 8, 8 * a + h, m.L - 1);
    DivModUnique(8 * a + h, 8, a, h);
  }

  lemma B0Fields(m: Message)
    requires m.WellFormed()
    ensures SizesOf(B0(m)[0]) == (m.M, m.L)
    ensures B0(m)[0] < 64 <==> |m.adata| == 0
    ensures B0(m)[1..16 - m.L] == m.nonce
    ensures FromBigEndian(B0(m)[16 - m.L..16]) == |m.plaintext|
  {
    BigEndianRoundTrip(|m.plaintext|, m.L);
    assert B0(m)[16 - m.L..16] == BigEndian(|m.plaintext|, m.L);
    FlagsFields(m);
    assert B0(m)[0] == Flags(m);
  }

  lemma ParseReadsBody(m: Message, adata: seq<byte>, rest: seq<byte>)
    ensures ParseBody(m.M, m.L, m.nonce, adata, Pad(m.plaintext) + rest, |m.plaintext|)
         == Some(Message(m.M, m.L, m.nonce, adata, m.plaintext))
  {
    assert (Pad(m.plaintext) + rest)[..|m.plaintext|] == m.plaintext;
  }

  lemma AdataFields(adata: seq<byte>, tail: seq<byte>)
    requires 0 < |adata| <= MAX_SHORT_ADATA
    ensures |AdataBlocks(adata)| == 2 + |adata| + PadLength(2 + |adata|)
    ensures var s := AdataBlocks(adata) + tail;
            FromBigEndian(s[..2]) == |adata| && s[2..2 + |adata|] == adata && s[|AdataBlocks(adata)|..] == tail
  {
    var prefix := BigEndian(|adata|, 2);
    assert FromBigEndian(prefix) == |adata| by {
      Pow256Values();
      BigEndianRoundTrip(|adata|, 2);
    }
    ThreeParts(prefix, adata, Zeros(PadLength(2 + |adata|)), tail);
  }

  lemma ThreeParts(a: seq<byte>, b: seq<byte>, c: seq<byte>, d: seq<byte>)
    ensures var s := a + b + c + d; s[..|a|] == a && s[|a|..|a| + |b|] == b && s[|a| + |b| + |c|..] == d
  {
  }

  /** B_0 hands its fields to the parser of the rest. */
  lemma ParseHeader(m: Message, body: seq<byte>)
    requires m.WellFormed()
    ensures Parse(B0(m) + body) ==
            if |m.adata| == 0 then ParseBody(m.M, m.L, m.nonce, [], body, |m.plaintext|)
            else ParseAdata(m.M, m.L, m.nonce, body, |m.plaintext|)
  {
    var s := B0(m) + body;
    B0Fields(m);
    assert s[0] == B0(m)[0];
    assert s[1..16 - m.L] == B0(m)[1..16 - m.L];
    assert s[16 - m.L..16] == B0(m)[16 - m.L..16];
    assert s[16..] == body;
  }

  /** Whatever follows the blocks of a message, the message can be read off the front. */
  lemma ParseBlocks(m: Message, rest: seq<byte>)
    requires m.WellFormed() && |m.adata| <= MAX_SHORT_ADATA
    ensures Parse(Blocks(m) + rest) == Some(m)
  {
    var tail := Pad(m.plaintext) + rest;
    var body := AdataBlocks(m.adata) + tail;
    assert Blocks(m) + rest == B0(m) + body;
    ParseHeader(m, body);
    ParseReadsBody(m, m.adata, rest);
    if |m.adata| == 0 {
      assert body == tail;
    } else {
      AdataFields(m.adata, tail);
    }
  }

  /** No message's blocks are a prefix of another message's blocks. */
  lemma BlocksPrefixFree(m: Message, m': Message)
    requires m.WellFormed() && |m.adata| <= MAX_SHORT_ADATA
    requires m'.WellFormed() && |m'.adata| <= MAX_SHORT_ADATA
    requires Blocks(m) <= Blocks(m')
    ensures m == m'
  {
    var rest := Blocks(m')[|Blocks(m)|..];
    assert Blocks(m') == Blocks(m) + rest;
    assert Blocks(m') == Blocks(m') + [];
    ParseBlocks(m, rest);
    ParseBlocks(m', []);
  }

  ghost predicate PrefixFreeUpTo(bound: nat) {
    forall m: Message, m': Message ::
      m.WellFormed() && m'.WellFormed() && |m.adata| <= bound && |m'.adata| <= bound && Blocks(m) <= Blocks(m')
      ==> m == m'
  }

  /** Two associated data strings, of 0xfeff and 0xff00 bytes, that the code formats alike. */
  lemma CollidingAdata() returns (m: Message, m': Message)
    ensures m.WellFormed() && m'.WellFormed() && m != m'
    ensures |m.adata| == 0xfeff && |m'.adata| == 0xff00
    ensures Blocks(m) == Blocks(m')
  {
    m := Message(16, 2, Zeros(13), BigEndian(0xff00, 4) + Zeros(0xfefb), []);
    m' := Message(16, 2, Zeros(13), Zeros(0xff00), []);
    assert Fits(2, 16, 0);
    assert BigEndian(0xfeff, 2) == [0xfe, 0xff] by {
      assert BigEndian(0xfe, 1) == BigEndian(0, 0) + [0xfe];
    }
    var head := [0xfe, 0xff] + BigEndian(0xff00, 4);
    assert LengthPrefix(0xfeff) + m.adata == head + Zeros(0xfefb);
    assert LengthPrefix(0xff00) + m'.adata == head + Zeros(0xff00);
    assert Zeros(0xfefb) + Zeros(15) == Zeros(0xff0a) == Zeros(0xff00) + Zeros(10);
    assert Pad(head + Zeros(0xfefb)) == head + (Zeros(0xfefb) + Zeros(15));
    assert Pad(head + Zeros(0xff00)) == head + (Zeros(0xff00) + Zeros(10));
  }

  /** The format is prefix-free on associated data up to a bound exactly when the bound is at most 0xfeff. */
  lemma PrefixFreeIff(bound: nat)
    ensures PrefixFreeUpTo(bound) <==> bound <= MAX_SHORT_ADATA
  {
    if bound <= MAX_SHORT_ADATA {
      forall m: Message, m': Message
        | m.WellFormed() && m'.WellFormed() && |m.adata| <= bound && |m'.adata| <= bound && Blocks(m) <= Blocks(m')
        ensures m == m'
      {
        BlocksPrefixFree(m, m');
      }
    } else {
      var m, m' := CollidingAdata();
      assert Blocks(m) <= Blocks(m');
    }
  }
}
