/** The CCM object: the in-place loops of the code, proved against the functions of CcmSpec. */
module Ccm {
  import opened Bytes
  import opened Options
  import opened CcmLength
  import opened CcmFormat
  import opened CcmSpec

  /** A Go slice: a window onto a backing array, with room to grow up to its capacity. */
  datatype Slice = Slice(arr: array<byte>, off: nat, len: nat, cap: nat) {
    ghost predicate Valid() {
      len <= cap && off + cap <= arr.Length
    }

    function Contents(): (s: seq<byte>)
      requires Valid()
      reads arr
      ensures |s| == len
    {
      arr[off..off + len]
    }
  }

  datatype TagResult = TagOk(mac: array<byte>) | BadNonceSize | PlaintextTooLarge

  datatype SealResult = Sealed(out: Slice) | Panicked

  datatype OpenResult = Opened(out: Slice) | Failed(error: CcmSpec.Opened)

  datatype NewResult = Created(ccm: CCM) | WrongBlockSize | WrongTagSize | WrongNonceSize

  datatype MaskedResult = Masked(iv: Block, tag: seq<byte>) | NoTag

  /** The plaintext is the window that sealing writes its ciphertext to, or does not overlap it. */
  ghost predicate MayShare(dst: Slice, plaintext: Slice, M: nat) {
    var end := dst.off + dst.len;
    plaintext.arr != dst.arr || plaintext.off == end
    || plaintext.off + plaintext.len <= end || end + plaintext.len + M <= plaintext.off
  }

  /** n bytes were appended: within the capacity nothing outside their window has changed;
      beyond it, the old backing array has not. */
  ghost predicate InPlaceOrFresh(dst: Slice, n: nat, out: Slice, before: seq<byte>)
    reads dst.arr
  {
    && out.len == dst.len + n
    && |before| == dst.arr.Length
    && if dst.len + n <= dst.cap then
         && out.arr == dst.arr && out.off == dst.off && out.cap == dst.cap && dst.off + dst.cap <= |before|
         && dst.arr[..dst.off + dst.len] == before[..dst.off + dst.len]
         && dst.arr[dst.off + out.len..] == before[dst.off + out.len..]
       else
         && out.arr != dst.arr && dst.arr[..] == before
  }

  method Copy(dst: array<byte>, lo: nat, hi: nat, src: seq<byte>) returns (n: nat)
    requires lo <= hi <= dst.Length
    modifies dst
    ensures n == Min(hi - lo, |src|)
    ensures dst[..] == old(dst[..lo]) + src[..n] + old(dst[lo + n..])
  {
    n := Min(hi - lo, |src|);
    forall i | lo <= i < lo + n {
      dst[i] := src[i - lo];
    }
  }

  /** The slice extended by n bytes: in place when the capacity allows, else in a fresh array. */
  method SliceForAppend(s: Slice, n: nat) returns (head: Slice)
    requires s.Valid()
    ensures head.Valid() && head.len == s.len + n
    ensures head.arr[head.off..head.off + s.len] == s.Contents()
    ensures if s.len + n <= s.cap then head == s.(len := s.len + n) else fresh(head.arr) && head.off == 0
  {
    var total := s.len + n;
    if s.cap >= total {
      head := s.(len := total);
    } else {
      var arr := new byte[total](_ => 0);
      var copied := Copy(arr, 0, total, s.Contents());
      assert arr[0..0 + s.len] == s.Contents();
      head := Slice(arr, 0, total, total);
    }
  }

  /** The append built-in on bytes. */
  method AppendBytes(s: Slice, bytes: seq<byte>) returns (head: Slice)
    requires s.Valid()
    modifies s.arr
    ensures head.Valid() && InPlaceOrFresh(s, |bytes|, head, old(s.arr[..]))
    ensures head.Contents() == old(s.Contents()) + bytes
  {
    head := SliceForAppend(s, |bytes|);
    ghost var front, before, start := s.Contents(), s.arr[..], head.arr[..];
    var copied := Copy(head.arr, head.off + s.len, head.off + head.len, bytes);
    Extended(s, head, before, start, front, bytes);
  }

  /** The library's key stream is applied to src byte by byte; src may be the destination window itself. */
  method XorKeyStream(E: BlockCipher, iv: Block, dst: array<byte>, at: nat, src: Slice)
    requires src.Valid() && at + src.len <= dst.Length
    requires src.arr != dst || src.off == at || src.off + src.len <= at || at + src.len <= src.off
    modifies dst
    ensures dst[..] == old(dst[..at]) + CtrStream(E, iv, old(src.Contents())) + old(dst[at + src.len..])
  {
    ghost var before, input := dst[..], src.Contents();
    ghost var output := CtrStream(E, iv, input);
    for j := 0 to src.len
      invariant forall i :: 0 <= i < dst.Length ==> dst[i] == if at <= i < at + j then output[i - at] else before[i]
      invariant src.arr != dst ==> src.arr[..] == old(src.arr[..])
    {
      assert src.arr[src.off + j] == input[j];
      dst[at + j] := Xor(src.arr[src.off + j], CtrKeyByte(E, iv, j));
    }
  }

  class CCM {
    const E: BlockCipher
    const M: nat
    const L: nat

    ghost predicate Valid() {
      ValidSizes(M, L)
    }

    constructor (E: BlockCipher, M: nat, L: nat)
      ensures this.E == E && this.M == M && this.L == L
    {
      this.E, this.M, this.L := E, M, L;
    }

    function NonceSize(): int {
      15 - L
    }

    function MaxLength(): int
      requires Valid()
    {
      MaxLen(L, M)
    }

    method CbcRound(mac: array<byte>, data: seq<byte>)
      requires mac.Length == 16 && |data| == 16
      modifies mac
      ensures mac[..] == E(XorSeq(old(mac[..]), data))
    {
      for i := 0 to 16
        invariant forall k :: 0 <= k < i ==> mac[k] == Xor(old(mac[k]), data[k])
        invariant forall k :: i <= k < 16 ==> mac[k] == old(mac[k])
      {
        mac[i] := Xor(mac[i], data[i]);
      }
      assert mac[..] == XorSeq(old(mac[..]), data);
      var encrypted := E(mac[..]);
      forall k | 0 <= k < 16 {
        mac[k] := encrypted[k];
      }
    }

    method CbcData(mac: array<byte>, data: seq<byte>)
      requires mac.Length == 16
      modifies mac
      ensures mac[..] == CbcMac(E, old(mac[..]), Pad(data))
    {
      var rest := data;
      while |rest| >= 16
        invariant CbcMac(E, mac[..], Pad(rest)) == CbcMac(E, old(mac[..]), Pad(data))
        decreases |rest|
      {
        PadSplit(rest);
        CbcRound(mac, rest[..16]);
        rest := rest[16..];
      }
      if |rest| > 0 {
        var block := rest + Zeros(16 - |rest|);
        assert Pad(rest) == block;
        CbcMacOneBlock(E, mac[..], block);
        CbcRound(mac, block);
      } else {
        assert Pad(rest) == [];
      }
    }

    /** The MAC of the message, in a fresh array whose first M bytes are the tag. */
    method Tag(nonce: seq<byte>, plaintext: seq<byte>, adata: seq<byte>) returns (r: TagResult)
      requires Valid()
      ensures r.BadNonceSize? <==> |nonce| != 15 - L
      ensures r.PlaintextTooLarge? <==> |nonce| == 15 - L && !Fits(L, M, |plaintext|)
      ensures r.TagOk? ==> fresh(r.mac) && r.mac.Length == 16
      ensures r.TagOk? ==> r.mac[..M] == CcmSpec.Tag(E, Message(M, L, nonce, adata, plaintext))
    {
      var mac := new byte[16](_ => 0);
      WriteFlags(mac, |adata| > 0);
      if |nonce| != NonceSize() {
        return BadNonceSize;
      }
      var tooLarge := ExceedsMaxLength(|plaintext|);
      if tooLarge {
        return PlaintextTooLarge;
      }
      ghost var m := Message(M, L, nonce, adata, plaintext);
      WriteLengthAndNonce(mac, nonce, |plaintext|);
      assert mac[..] == B0(m);
      EncryptInPlace(mac);
      AddBody(mac, adata, plaintext);
      return TagOk(mac);
    }

    /** What the tag absorbs after the first block. */
    method AddBody(mac: array<byte>, adata: seq<byte>, plaintext: seq<byte>)
      requires mac.Length == 16
      modifies mac
      ensures mac[..] == CbcMac(E, old(mac[..]), AdataBlocks(adata) + Pad(plaintext))
    {
      ghost var start := mac[..];
      if |adata| > 0 {
        AddAdata(mac, adata);
      }
      assert mac[..] == CbcMac(E, start, AdataBlocks(adata));
      if |plaintext| > 0 {
        CbcData(mac, plaintext);
      }
      assert |plaintext| == 0 ==> Pad(plaintext) == [];
      CbcMacConcat(E, start, AdataBlocks(adata), Pad(plaintext));
    }

    method ExceedsMaxLength(n: nat) returns (exceeds: bool)
      requires Valid()
      ensures exceeds <==> !Fits(L, M, n)
    {
      MaxLenIff(L, M, n);
      exceeds := n > MaxLength();
    }

    /** The three flag fields occupy different bits, so that or-ing them in is adding them. */
    method WriteFlags(mac: array<byte>, hasAdata: bool)
      requires Valid()
      requires mac.Length == 16 && mac[0] == 0
      modifies mac
      ensures mac[..] == old(mac[..])[0 := (if hasAdata then 64 else 0) + 4 * (M - 2) + (L - 1)]
    {
      if hasAdata {
        mac[0] := mac[0] + 64;
      }
      mac[0] := mac[0] + 4 * (M - 2);
      mac[0] := mac[0] + (L - 1);
    }

    /** A 64-bit length first, then the nonce over its leading bytes, which are zero. */
    method WriteLengthAndNonce(mac: array<byte>, nonce: seq<byte>, len: nat)
      requires Valid() && mac.Length == 16 && |nonce| == 15 - L && Fits(L, M, len)
      modifies mac
      ensures mac[..] == [old(mac[0])] + nonce + BigEndian(len, L)
    {
      var copied := Copy(mac, 8, 16, BigEndian(len, 8));
      LengthUnderNonce(len, M, L);
      assert mac[..] == old(mac[..8]) + Zeros(8 - L) + BigEndian(len, L);
      assert mac[16 - L..] == BigEndian(len, L);
      copied := Copy(mac, 1, 16 - L, nonce);
    }

    method EncryptInPlace(mac: array<byte>)
      requires mac.Length == 16
      modifies mac
      ensures mac[..] == E(old(mac[..]))
    {
      var encrypted := E(mac[..]);
      forall k | 0 <= k < 16 {
        mac[k] := encrypted[k];
      }
    }

    /** The part of the tag computation that absorbs non-empty associated data. */
    method AddAdata(mac: array<byte>, adata: seq<byte>)
      requires mac.Length == 16 && |adata| > 0
      modifies mac
      ensures mac[..] == CbcMac(E, old(mac[..]), AdataBlocks(adata))
    {
      var first, n := FirstAdataBlock(adata);
      CbcMacConcat(E, mac[..], first, Pad(adata[n..]));
      CbcMacOneBlock(E, mac[..], first);
      CbcRound(mac, first);
      CbcData(mac, adata[n..]);
    }

    /** The length of the associated data and as much of it as fits in the same block. */
    method FirstAdataBlock(adata: seq<byte>) returns (first: Block, n: nat)
      requires |adata| > 0
      ensures n <= |adata|
      ensures AdataBlocks(adata) == first + Pad(adata[n..])
    {
      var block, i := LengthBlock(|adata|);
      n := Copy(block, i, 16, adata);
      AdataSplit(adata, i, n);
      first := block[..];
      assert first == LengthPrefix(|adata|) + adata[..n] + Zeros(16 - i - n);
    }

    /** A zeroed block with the length at its front, and the size of the length. */
    method LengthBlock(n: nat) returns (block: array<byte>, i: nat)
      requires n > 0
      ensures fresh(block) && block.Length == 16 && i == |LengthPrefix(n)| <= 10
      ensures block[..] == LengthPrefix(n) + Zeros(16 - i)
    {
      block := new byte[16](_ => 0);
      i := 2;
      var copied;
      if n <= 0xfeff {
        copied := Copy(block, 0, i, BigEndian(n, 2));
      } else {
        block[0] := 0xfe;
        block[1] := 0xff;
        if n < TWO_TO_THE_32 {
          i := 2 + 4;
          copied := Copy(block, 2, i, BigEndian(n, 4));
        } else {
          i := 2 + 8;
          copied := Copy(block, 2, i, BigEndian(n, 8));
        }
      }
    }

    /** The first counter block; a nonce of the wrong size is cut off or leaves zeros. */
    method CounterBlock(nonce: seq<byte>) returns (iv: array<byte>)
      requires Valid()
      ensures fresh(iv) && iv.Length == 16 && iv[15] == 0
      ensures |nonce| == 15 - L ==> iv[..] == A(L, nonce, 0)
    {
      iv := new byte[16](_ => 0);
      iv[0] := L - 1;
      var copied := Copy(iv, 1, 16 - L, nonce);
      BigEndianLeadingZeros(0, 0, L);
      assert BigEndian(0, L) == Zeros(L);
    }

    /** Sets the lowest bit of a counter block that ends in zero. */
    method StartCounting(iv: array<byte>, ghost nonce: seq<byte>)
      requires Valid() && iv.Length == 16 && iv[15] == 0
      modifies iv
      ensures |nonce| == 15 - L && old(iv[..]) == A(L, nonce, 0) ==> iv[..] == A(L, nonce, 1)
    {
      iv[15] := iv[15] + 1;
      if |nonce| == 15 - L {
        IncrementBigEndian([L - 1] + nonce, 0, L);
        assert A(L, nonce, 0)[..15] + [1] == Increment(A(L, nonce, 0));
      }
    }

    method MaskTag(tag: array<byte>, s0: Block)
      requires Valid() && M <= tag.Length <= 16
      modifies tag
      ensures tag[..M] == XorSeq(old(tag[..M]), s0[..M])
      ensures tag[M..] == old(tag[M..])
    {
      for i := 0 to M
        invariant forall k :: 0 <= k < i ==> tag[k] == Xor(old(tag[k]), s0[k])
        invariant forall k :: i <= k < tag.Length ==> tag[k] == old(tag[k])
      {
        tag[i] := Xor(tag[i], s0[i]);
      }
    }

    /** The masked tag and the first counter block of the key stream. */
    method MaskedTag(nonce: seq<byte>, plaintext: seq<byte>, adata: seq<byte>) returns (r: MaskedResult)
      requires Valid()
      ensures r.NoTag? <==> |nonce| != 15 - L || !Fits(L, M, |plaintext|)
      ensures r.Masked? ==> |r.tag| == M
      ensures r.Masked? ==>
                CtrStream(E, r.iv, plaintext) + r.tag == CcmSpec.Seal(E, Message(M, L, nonce, adata, plaintext))
    {
      var tag := Tag(nonce, plaintext, adata);
      if !tag.TagOk? {
        return NoTag;
      }
      var iv := CounterBlock(nonce);
      MaskTag(tag.mac, E(iv[..]));
      StartCounting(iv, nonce);
      CtrIsEncrypt(E, L, nonce, plaintext);
      return Masked(iv[..], tag.mac[..M]);
    }

    /** Appends the sealed plaintext to dst, in place when the capacity allows.
        The plaintext may be the very window that is written, or else must not overlap it. */
    method Seal(dst: Slice, nonce: seq<byte>, plaintext: Slice, adata: seq<byte>) returns (r: SealResult)
      requires Valid() && dst.Valid() && plaintext.Valid()
      requires MayShare(dst, plaintext, M)
      modifies dst.arr
      ensures r.Panicked? <==> |nonce| != 15 - L || !Fits(L, M, plaintext.len)
      ensures r.Sealed? ==> r.out.Valid() && InPlaceOrFresh(dst, plaintext.len + M, r.out, old(dst.arr[..]))
      ensures r.Sealed? ==>
                var m := Message(M, L, nonce, adata, old(plaintext.Contents()));
                r.out.Contents() == old(dst.Contents()) + CcmSpec.Seal(E, m)
      ensures r.Panicked? ==> dst.arr[..] == old(dst.arr[..])
    {
      var masked := MaskedTag(nonce, plaintext.Contents(), adata);
      if masked.NoTag? {
        return Panicked;
      }
      var head := AppendMasked(dst, plaintext, masked.iv, masked.tag);
      return Sealed(head);
    }

    /** The last lines of Seal: key stream over the plaintext, then the tag. */
    method AppendMasked(dst: Slice, plaintext: Slice, iv: Block, tag: seq<byte>) returns (head: Slice)
      requires dst.Valid() && plaintext.Valid() && MayShare(dst, plaintext, |tag|)
      modifies dst.arr
      ensures head.Valid() && InPlaceOrFresh(dst, plaintext.len + |tag|, head, old(dst.arr[..]))
      ensures head.Contents() == old(dst.Contents()) + (CtrStream(E, iv, old(plaintext.Contents())) + tag)
    {
      head := SliceForAppend(dst, plaintext.len + |tag|);
      ghost var front, before, start := dst.Contents(), dst.arr[..], head.arr[..];
      ghost var sealed := CtrStream(E, iv, plaintext.Contents()) + tag;
      WriteSealed(head.arr, head.off + dst.len, plaintext, iv, tag);
      Extended(dst, head, before, start, front, sealed);
    }

    method WriteSealed(arr: array<byte>, at: nat, plaintext: Slice, iv: Block, tag: seq<byte>)
      requires plaintext.Valid() && at + plaintext.len + |tag| <= arr.Length
      requires plaintext.arr != arr || plaintext.off == at
               || plaintext.off + plaintext.len <= at || at + plaintext.len + |tag| <= plaintext.off
      modifies arr
      ensures var sealed := CtrStream(E, iv, old(plaintext.Contents())) + tag;
              arr[..] == old(arr[..at]) + sealed + old(arr[at + |sealed|..])
    {
      ghost var start, body := arr[..], CtrStream(E, iv, plaintext.Contents());
      XorKeyStream(E, iv, arr, at, plaintext);
      assert start[..at] == old(arr[..at]) && start[at + |body|..] == old(arr[at + plaintext.len..]);
      ghost var streamed := arr[..];
      var copied := Copy(arr, at + plaintext.len, at + plaintext.len + |tag|, tag);
      assert tag[..copied] == tag;
      TwoWrites(start, streamed, arr[..], at, body, tag);
    }

    /** Decrypts, checks the tag, and only then appends the plaintext to dst. */
    method Open(dst: Slice, nonce: seq<byte>, ciphertext: seq<byte>, adata: seq<byte>) returns (r: OpenResult)
      requires Valid() && dst.Valid()
      modifies dst.arr
      ensures match CcmSpec.Open(E, M, L, nonce, ciphertext, adata)
              case Plaintext(p) =>
                && r.Opened? && r.out.Valid()
                && r.out.Contents() == old(dst.Contents()) + p
                && InPlaceOrFresh(dst, |p|, r.out, old(dst.arr[..]))
              case e => r == Failed(e) && dst.arr[..] == old(dst.arr[..])
    {
      var attempt := Authenticate(nonce, ciphertext, adata);
      if !attempt.Plaintext? {
        return Failed(attempt);
      }
      var head := AppendBytes(dst, attempt.p);
      return Opened(head);
    }

    /** Everything of Open but the last line. */
    method Authenticate(nonce: seq<byte>, ciphertext: seq<byte>, adata: seq<byte>) returns (r: CcmSpec.Opened)
      requires Valid()
      ensures r == CcmSpec.Open(E, M, L, nonce, ciphertext, adata)
    {
      if |ciphertext| < M {
        return TooShort;
      }
      MaxLenBounds(L, L, M);
      if |ciphertext| > MaxLength() + M {
        return TooLong;
      }
      var n := |ciphertext| - M;
      MaxLenIff(L, M, n);
      var plaintext := Decrypt(nonce, ciphertext[..n]);
      var tag := UnmaskTag(nonce, ciphertext[n..]);
      var expected := Tag(nonce, plaintext, adata);
      if !expected.TagOk? {
        return InvalidNonceSize;
      }
      return if tag != expected.mac[..M] then AuthenticationFailed else Plaintext(plaintext);
    }

    method Decrypt(nonce: seq<byte>, ciphertext: seq<byte>) returns (plaintext: seq<byte>)
      requires Valid() && Fits(L, M, |ciphertext|)
      ensures |plaintext| == |ciphertext|
      ensures |nonce| == 15 - L ==> plaintext == Encrypt(E, L, nonce, ciphertext)
    {
      var iv := CounterBlock(nonce);
      StartCounting(iv, nonce);
      var input := new byte[|ciphertext|](i requires 0 <= i < |ciphertext| => ciphertext[i]);
      var output := new byte[|ciphertext|](_ => 0);
      XorKeyStream(E, iv[..], output, 0, Slice(input, 0, |ciphertext|, |ciphertext|));
      plaintext := output[..];
      assert input[..] == ciphertext;
      if |nonce| == 15 - L {
        CtrIsEncrypt(E, L, nonce, ciphertext);
      }
    }

    method UnmaskTag(nonce: seq<byte>, sealedTag: seq<byte>) returns (tag: seq<byte>)
      requires Valid() && |sealedTag| == M
      ensures |nonce| == 15 - L ==> tag == XorSeq(sealedTag, E(A(L, nonce, 0))[..M])
    {
      var iv := CounterBlock(nonce);
      var arr := new byte[M](i requires 0 <= i < M => sealedTag[i]);
      assert arr[..M] == sealedTag;
      MaskTag(arr, E(iv[..]));
      tag := arr[..M];
    }
  }

  /** NewCCM: the block cipher must work on 16 bytes, and the sizes must be those of RFC 3610. */
  method NewCCM(blockSize: int, E: BlockCipher, tagsize: int, noncesize: int) returns (r: NewResult)
    ensures r.WrongBlockSize? <==> blockSize != 16
    ensures r.WrongTagSize? <==> blockSize == 16 && !(4 <= tagsize <= 16 && tagsize % 2 == 0)
    ensures r.WrongNonceSize? <==> blockSize == 16 && 4 <= tagsize <= 16 && tagsize % 2 == 0 && !(7 <= noncesize <= 13)
    ensures r.Created? ==> fresh(r.ccm) && r.ccm.Valid() && r.ccm.E == E
    ensures r.Created? ==> r.ccm.M == tagsize && r.ccm.L == 15 - noncesize
  {
    if blockSize != BLOCK_SIZE {
      return WrongBlockSize;
    }
    if tagsize < 4 || tagsize > 16 || tagsize % 2 != 0 {
      return WrongTagSize;
    }
    var lensize := 15 - noncesize;
    if lensize < 2 || lensize > 8 {
      return WrongNonceSize;
    }
    var ccm := new CCM(E, tagsize, lensize);
    return Created(ccm);
  }

  /** Sealing into a nil destination. */
  method SealBytes(ccm: CCM, nonce: seq<byte>, data: seq<byte>, adata: seq<byte>) returns (r: Option<seq<byte>>)
    requires ccm.Valid()
    ensures var m := Message(ccm.M, ccm.L, nonce, adata, data);
            r == if m.WellFormed() then Some(Seal(ccm.E, m)) else None
  {
    var none, bytes := new byte[0], new byte[|data|](i requires 0 <= i < |data| => data[i]);
    var plaintext := Slice(bytes, 0, |data|, |data|);
    assert plaintext.Contents() == data;
    var dst := Slice(none, 0, 0, 0);
    assert dst.Contents() == [];
    var sealed := ccm.Seal(dst, nonce, plaintext, adata);
    if sealed.Panicked? {
      return None;
    }
    r := Some(sealed.out.Contents());
    assert [] + Seal(ccm.E, Message(ccm.M, ccm.L, nonce, adata, data))
           == Seal(ccm.E, Message(ccm.M, ccm.L, nonce, adata, data));
  }

  /** Opening into an empty destination. */
  method OpenBytes(ccm: CCM, nonce: seq<byte>, data: seq<byte>, adata: seq<byte>) returns (r: Option<seq<byte>>)
    requires ccm.Valid()
    ensures r == OpenOption(ccm.E, ccm.M, ccm.L, nonce, data, adata)
  {
    var none := new byte[0];
    var dst := Slice(none, 0, 0, 0);
    assert dst.Contents() == [];
    var attempt := ccm.Open(dst, nonce, data, adata);
    if attempt.Failed? {
      return None;
    }
    r := Some(attempt.out.Contents());
    assert forall p: seq<byte> {:trigger Plaintext(p)} :: [] + p == p;
  }

  /** The first block of the associated data, and the bytes that are left over. */
  lemma AdataSplit(adata: seq<byte>, i: nat, n: nat)
    requires |adata| > 0 && i == |LengthPrefix(|adata|)| && n == Min(16 - i, |adata|)
    ensures i <= 10
    ensures AdataBlocks(adata) == LengthPrefix(|adata|) + adata[..n] + Zeros(16 - i - n) + Pad(adata[n..])
  {
    var s := LengthPrefix(|adata|) + adata;
    if n == 16 - i {
      PadSplit(s);
      assert s[16..] == adata[n..];
      assert s[..16] == LengthPrefix(|adata|) + adata[..n] + Zeros(0);
      assert Pad(s) == Pad(s)[..16] + Pad(s)[16..];
    } else {
      assert adata[n..] == [] && Pad(adata[n..]) == [];
      assert adata[..n] == adata;
      assert PadLength(|s|) == 16 - i - n;
    }
  }

  /** The bytes of the 64-bit length that the nonce overwrites are zero. */
  lemma LengthUnderNonce(len: nat, M: nat, L: nat)
    requires 2 <= L <= 8 && Fits(L, M, len)
    ensures BigEndian(len, 8) == Zeros(8 - L) + BigEndian(len, L)
  {
    BigEndianLeadingZeros(len, L, 8);
  }

  lemma TwoWrites(s: seq<byte>, s': seq<byte>, s'': seq<byte>, at: nat, body: seq<byte>, tag: seq<byte>)
    requires at + |body| + |tag| <= |s|
    requires s' == s[..at] + body + s[at + |body|..]
    requires s'' == s'[..at + |body|] + tag + s'[at + |body| + |tag|..]
    ensures s'' == s[..at] + (body + tag) + s[at + |body| + |tag|..]
  {
  }

  /** Appending x: in place the array has changed in its window, beyond the capacity not at all. */
  lemma Extended(dst: Slice, head: Slice, before: seq<byte>, start: seq<byte>, front: seq<byte>, x: seq<byte>)
    requires dst.Valid() && head.Valid() && |before| == dst.arr.Length && |start| == head.arr.Length
    requires head.len == dst.len + |x|
    requires start[head.off..head.off + dst.len] == front
    requires head.arr[..] == start[..head.off + dst.len] + x + start[head.off + head.len..]
    requires if dst.len + |x| <= dst.cap then head == dst.(len := head.len) && start == before
             else head.arr != dst.arr && dst.arr[..] == before
    ensures InPlaceOrFresh(dst, |x|, head, before)
    ensures head.Contents() == front + x
  {
    WindowFacts(start, head.arr[..], head.off, head.off + dst.len, x);
  }

  /** What a written window leaves alone, and what stands in front of it and in it. */
  lemma WindowFacts(before: seq<byte>, after: seq<byte>, off: nat, at: nat, x: seq<byte>)
    requires off <= at && at + |x| <= |before|
    requires after == before[..at] + x + before[at + |x|..]
    ensures |after| == |before|
    ensures after[off..at + |x|] == before[off..at] + x
    ensures after[..at] == before[..at] && after[at + |x|..] == before[at + |x|..]
  {
  }

  lemma PadSplit(s: seq<byte>)
    requires |s| >= 16
    ensures Pad(s)[..16] == s[..16] && Pad(s)[16..] == Pad(s[16..])
  {
    assert PadLength(|s|) == PadLength(|s| - 16);
  }
}
