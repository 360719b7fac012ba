/** Base-38 text, and the bit fields of an onboarding payload. */
module QrSpec {
  import opened Bytes
  import opened Options

  /** A string of the Go language: bytes, which are read as UTF-8. */
  type Text = seq<byte>

  const ALPHABET: string := "0123456789ABCDEFGHIJKLMNOPQRSTUVWXYZ-."

  // ----- the characters of a text

  datatype Rune = Rune(code: nat, size: nat)

  /** What is read where the bytes are not UTF-8. */
  const RUNE_ERROR: Rune := Rune(0xfffd, 1)

  predicate Continues(s: Text, i: nat, lo: byte, hi: byte) {
    i < |s| && lo <= s[i] <= hi
  }

  /** Six more bits from a continuation byte. */
  function Joined(high: nat, b: byte): nat
    requires b >= 0x80
  {
    var low: nat := b - 0x80;
    0x40 * high + low
  }

  /** The first character, as a loop over a string reads it. */
  function RuneAt(s: Text): (r: Rune)
    requires |s| > 0
    ensures 0 < r.size <= |s|
    ensures s[0] < 0x80 ==> r == Rune(s[0], 1)
  {
    var b := s[0];
    if b < 0x80 then Rune(b, 1)
    else if 0xc2 <= b <= 0xdf then
      if Continues(s, 1, 0x80, 0xbf) then Rune(Joined(b - 0xc0, s[1]), 2) else RUNE_ERROR
    else if 0xe0 <= b <= 0xef then
      if Continues(s, 1, if b == 0xe0 then 0xa0 else 0x80, if b == 0xed then 0x9f else 0xbf)
          && Continues(s, 2, 0x80, 0xbf)
      then Rune(Joined(Joined(b - 0xe0, s[1]), s[2]), 3) else RUNE_ERROR
    else if 0xf0 <= b <= 0xf4 then
      if Continues(s, 1, if b == 0xf0 then 0x90 else 0x80, if b == 0xf4 then 0x8f else 0xbf)
         && Continues(s, 2, 0x80, 0xbf) && Continues(s, 3, 0x80, 0xbf)
      then Rune(Joined(Joined(Joined(b - 0xf0, s[1]), s[2]), s[3]), 4)
      else RUNE_ERROR
    else RUNE_ERROR
  }

  /** The code points of Unicode. */
  predicate IsScalar(c: nat) {
    c < 0xd800 || 0xe000 <= c < 0x11_0000
  }

  /** How UTF-8 writes them, in RFC 3629, section 3. */
  function Utf8(c: nat): Text
    requires IsScalar(c)
  {
    if c < 0x80 then [c]
    else if c < 0x800 then [0xc0 + c / 0x40, 0x80 + c % 0x40]
    else if c < 0x1_0000 then [0xe0 + c / 0x1000, 0x80 + c / 0x40 % 0x40, 0x80 + c % 0x40]
    else [0xf0 + c / 0x4_0000, 0x80 + c / 0x1000 % 0x40, 0x80 + c / 0x40 % 0x40, 0x80 + c % 0x40]
  }

  lemma ThreeRead(c: nat, rest: Text)
    requires 0x800 <= c < 0x1_0000 && IsScalar(c)
    ensures RuneAt([0xe0 + c / 0x1000, 0x80 + c / 0x40 % 0x40, 0x80 + c % 0x40] + rest) == Rune(c, 3)
  {
    assert c == 0x40 * (0x40 * (c / 0x1000) + c / 0x40 % 0x40) + c % 0x40;
  }

  lemma FourRead(c: nat, rest: Text)
    requires 0x1_0000 <= c < 0x11_0000
    ensures RuneAt([0xf0 + c / 0x4_0000, 0x80 + c / 0x1000 % 0x40, 0x80 + c / 0x40 % 0x40, 0x80 + c % 0x40] + rest)
            == Rune(c, 4)
  {
    assert c == 0x40 * (0x40 * (0x40 * (c / 0x4_0000) + c / 0x1000 % 0x40) + c / 0x40 % 0x40) + c % 0x40;
  }

  /** What is written so is read as that character, and nothing after it counts. */
  lemma RuneReads(c: nat, rest: Text)
    requires IsScalar(c)
    ensures RuneAt(Utf8(c) + rest) == Rune(c, |Utf8(c)|)
  {
    if 0x800 <= c < 0x1_0000 {
      ThreeRead(c, rest);
    } else if c >= 0x1_0000 {
      FourRead(c, rest);
    }
  }

  lemma TwoWritten(b: byte, b1: byte)
    requires 0xc2 <= b <= 0xdf && 0x80 <= b1 <= 0xbf
    ensures var c := Joined(b - 0xc0, b1); IsScalar(c) && Utf8(c) == [b, b1]
  {
    SixBits(b - 0xc0, b1 - 0x80);
  }

  lemma ThreeWritten(b: byte, b1: byte, b2: byte)
    requires 0xe0 <= b <= 0xef && 0x80 <= b2 <= 0xbf
    requires (if b == 0xe0 then 0xa0 else 0x80) <= b1 <= if b == 0xed then 0x9f else 0xbf
    ensures var c := Joined(Joined(b - 0xe0, b1), b2); IsScalar(c) && Utf8(c) == [b, b1, b2]
  {
    var h := b - 0xe0;
    SixBits(h, b1 - 0x80);
    SixBits(Joined(h, b1), b2 - 0x80);
    Twelve(Joined(Joined(h, b1), b2), h);
  }

  lemma FourWritten(b: byte, b1: byte, b2: byte, b3: byte)
    requires 0xf0 <= b <= 0xf4 && 0x80 <= b2 <= 0xbf && 0x80 <= b3 <= 0xbf
    requires (if b == 0xf0 then 0x90 else 0x80) <= b1 <= if b == 0xf4 then 0x8f else 0xbf
    ensures var c := Joined(Joined(Joined(b - 0xf0, b1), b2), b3); IsScalar(c) && Utf8(c) == [b, b1, b2, b3]
  {
    var h := b - 0xf0;
    var c := Joined(Joined(Joined(h, b1), b2), b3);
    SixBits(h, b1 - 0x80);
    SixBits(Joined(h, b1), b2 - 0x80);
    SixBits(Joined(Joined(h, b1), b2), b3 - 0x80);
    Twelve(c, Joined(h, b1));
    Eighteen(c, h);
  }

  lemma SixBits(high: nat, low: nat)
    requires low < 0x40
    ensures (0x40 * high + low) / 0x40 == high && (0x40 * high + low) % 0x40 == low
  {
  }

  lemma Twelve(c: nat, high: nat)
    requires c / 0x40 / 0x40 == high
    ensures c / 0x1000 == high
  {
  }

  lemma Eighteen(c: nat, high: nat)
    requires c / 0x40 / 0x40 / 0x40 == high
    ensures c / 0x4_0000 == high
  {
  }

  /** Anything else is read as the error, one byte at a time. */
  lemma RuneWritten(s: Text)
    requires |s| > 0
    ensures var r := RuneAt(s);
            r == Rune(0xfffd, 1) || (IsScalar(r.code) && r.size == |Utf8(r.code)| && s[..r.size] == Utf8(r.code))
  {
    var size := RuneAt(s).size;
    if size == 2 {
      TwoWritten(s[0], s[1]);
    } else if size == 3 {
      ThreeWritten(s[0], s[1], s[2]);
    } else if size == 4 {
      FourWritten(s[0], s[1], s[2], s[3]);
    }
  }

  /** The characters of a text, each cut off to a byte. */
  function RuneBytes(s: Text): (r: seq<byte>)
    ensures |r| <= |s|
  {
    if |s| == 0 then [] else [RuneAt(s).code % 0x100] + RuneBytes(s[RuneAt(s).size..])
  }

  predicate IsAscii(s: Text) {
    forall i :: 0 <= i < |s| ==> s[i] < 0x80
  }

  lemma {:induction false} AsciiRunes(s: Text)
    requires IsAscii(s)
    ensures RuneBytes(s) == s
  {
    if |s| > 0 {
      AsciiRunes(s[1..]);
      assert [s[0]] + s[1..] == s;
    }
  }

  // ----- base 38

  function DigitOf(c: byte): Option<nat> {
    if '0' as int <= c <= '9' as int then Some(c - '0' as int)
    else if 'A' as int <= c <= 'Z' as int then Some(c - 'A' as int + 10)
    else if c == '-' as int then Some(36)
    else if c == '.' as int then Some(37)
    else None
  }

  /** The digits are the characters of this text, in their places. */
  lemma DigitPlace(i: nat)
    requires i < 38
    ensures var c := "0123456789ABCDEFGHIJKLMNOPQRSTUVWXYZ-."[i]; DigitOf(c as int) == Some(i)
  {
    if i < 10 {
      assert "0123456789ABCDEFGHIJKLMNOPQRSTUVWXYZ-."[i] as int == '0' as int + i;
    } else if i < 36 {
      assert "0123456789ABCDEFGHIJKLMNOPQRSTUVWXYZ-."[i] as int == 'A' as int + i - 10;
    }
  }

  function CharOf(d: nat): (c: byte)
    requires d < 38
    ensures c < 0x80
  {
    if d < 10 then d + '0' as int
    else if d < 36 then d - 10 + 'A' as int
    else if d == 36 then '-' as int else '.' as int
  }

  predicate AllDigits(s: seq<byte>) {
    forall i :: 0 <= i < |s| ==> DigitOf(s[i]).Some?
  }

  /** The number of some digits, least significant first; no such number if a byte is not a digit. */
  function DigitsValue(s: seq<byte>): Option<nat> {
    if |s| == 0 then Some(0)
    else
      match (DigitOf(s[0]), DigitsValue(s[1..]))
      case (Some(d), Some(v)) => Some(d + 38 * v)
      case _ => None
  }

  /** The number that a chunk of text stands for. */
  function ChunkValue(chunk: Text): Option<nat> {
    DigitsValue(RuneBytes(chunk))
  }

  /** Five bytes of text at a time, each chunk giving three bytes, least significant first. */
  function Decode38(text: Text): Option<seq<byte>> {
    if |text| == 0 then Some([])
    else
      var n := Min(5, |text|);
      match (ChunkValue(text[..n]), Decode38(text[n..]))
      case (Some(v), Some(bytes)) => Some(LittleEndian(v, 3) + bytes)
      case _ => None
  }

  function Digits(n: nat, k: nat): (s: Text)
    ensures |s| == k && IsAscii(s)
  {
    if k == 0 then [] else [CharOf(n % 38)] + Digits(n / 38, k - 1)
  }

  /** The printed form of section 5.1.3 of the Matter Core Specification: five characters for three bytes,
      four for a final two and two for a final one. */
  function Encode38(bytes: seq<byte>): Text {
    if |bytes| == 0 then []
    else if |bytes| == 1 then Digits(FromLittleEndian(bytes), 2)
    else if |bytes| == 2 then Digits(FromLittleEndian(bytes), 4)
    else Digits(FromLittleEndian(bytes[..3]), 5) + Encode38(bytes[3..])
  }

  function Pow38(k: nat): (r: nat)
    ensures r >= 1
  {
    if k == 0 then 1 else 38 * Pow38(k - 1)
  }

  lemma DigitOfChar(d: nat)
    requires d < 38
    ensures DigitOf(CharOf(d)) == Some(d)
  {
  }

  lemma {:induction false} ValueOfDigits(n: nat, k: nat)
    requires n < Pow38(k)
    ensures DigitsValue(Digits(n, k)) == Some(n)
  {
    if k > 0 {
      ValueOfDigits(n / 38, k - 1);
      DigitOfChar(n % 38);
      assert Digits(n, k)[1..] == Digits(n / 38, k - 1);
    }
  }

  function Padding(n: nat): nat {
    (3 - n % 3) % 3
  }

  lemma LastChunk(bytes: seq<byte>, k: nat)
    requires (|bytes| == 1 && k == 2) || (|bytes| == 2 && k == 4) || (|bytes| == 3 && k == 5)
    ensures ChunkValue(Digits(FromLittleEndian(bytes), k)) == Some(FromLittleEndian(bytes))
    ensures LittleEndian(FromLittleEndian(bytes), 3) == bytes + Zeros(3 - |bytes|)
  {
    var padded := bytes + Zeros(3 - |bytes|);
    LittleEndianBytes(bytes);
    LittleEndianBytes(padded);
    FromLittleEndianConcat(bytes, Zeros(3 - |bytes|));
    FromLittleEndianZeros(3 - |bytes|);
    Pow256Values();
    assert Pow38(2) == 1444 && Pow38(3) == 38 * Pow38(2) && Pow38(4) == 38 * Pow38(3) && Pow38(5) == 38 * Pow38(4);
    ValueOfDigits(FromLittleEndian(bytes), k);
    AsciiRunes(Digits(FromLittleEndian(bytes), k));
  }

  lemma SingleChunk(text: Text, v: nat)
    requires 0 < |text| <= 5 && ChunkValue(text) == Some(v)
    ensures Decode38(text) == Some(LittleEndian(v, 3))
  {
    assert text[..|text|] == text && text[|text|..] == [];
    assert Decode38([]) == Some([]);
    assert LittleEndian(v, 3) + [] == LittleEndian(v, 3);
  }

  lemma FinalBytes(bytes: seq<byte>, k: nat, text: Text)
    requires (|bytes| == 1 && k == 2) || (|bytes| == 2 && k == 4)
    requires text == Digits(FromLittleEndian(bytes), k)
    ensures Decode38(text) == Some(bytes + Zeros(3 - |bytes|))
  {
    LastChunk(bytes, k);
    SingleChunk(text, FromLittleEndian(bytes));
  }

  lemma PaddingShift(n: nat)
    requires n >= 3
    ensures Padding(n) == Padding(n - 3)
  {
  }

  lemma HeadAndTail(bytes: seq<byte>, k: nat, more: seq<byte>)
    requires k <= |bytes|
    ensures bytes[..k] + (bytes[k..] + more) == bytes + more
  {
  }

  lemma FirstChunk(head: seq<byte>, rest: Text, more: seq<byte>)
    requires |head| == 3 && Decode38(rest) == Some(more)
    ensures Decode38(Digits(FromLittleEndian(head), 5) + rest) == Some(head + more)
  {
    var text := Digits(FromLittleEndian(head), 5) + rest;
    LastChunk(head, 5);
    assert text[..5] == Digits(FromLittleEndian(head), 5) && text[5..] == rest;
    assert head + Zeros(0) == head;
  }

  /** Decoding the printed form gives the bytes back, with zeros up to a multiple of three. */
  lemma {:induction false} Base38RoundTrip(bytes: seq<byte>)
    ensures Decode38(Encode38(bytes)) == Some(bytes + Zeros(Padding(|bytes|)))
  {
    if |bytes| == 0 {
      assert bytes + Zeros(0) == [];
    } else if |bytes| < 3 {
      FinalBytes(bytes, 2 * |bytes|, Encode38(bytes));
      assert Padding(|bytes|) == 3 - |bytes|;
    } else {
      Base38RoundTrip(bytes[3..]);
      FirstChunk(bytes[..3], Encode38(bytes[3..]), bytes[3..] + Zeros(Padding(|bytes| - 3)));
      PaddingShift(|bytes|);
      HeadAndTail(bytes, 3, Zeros(Padding(|bytes|)));
    }
  }

  // ----- bits

  /** Bit p of a little-endian number. */
  function BitAt(v: nat, p: nat): nat {
    v / Pow2(p) % 2
  }

  /** The slice of bits from pos on. */
  function Slice(v: nat, pos: nat, bits: nat): nat {
    v / Pow2(pos) % Pow2(bits)
  }

  lemma {:induction false} Pow2Plus(a: nat, b: nat)
    ensures Pow2(a + b) == Pow2(a) * Pow2(b)
  {
    if a > 0 {
      Pow2Plus(a - 1, b);
      MulAssociates(2, Pow2(a - 1), Pow2(b));
    }
  }

  /** Shifting twice is shifting once. */
  lemma DivTwice(v: nat, a: nat, b: nat)
    ensures v / Pow2(a + b) == v / Pow2(a) / Pow2(b)
  {
    Pow2Plus(a, b);
    ModSplit(v, Pow2(a), Pow2(b));
  }

  /** A bit of the first byte is that bit of the number. */
  lemma {:induction false} LowBit(b: nat, high: nat, p: nat)
    requires p < 8
    ensures (b + 256 * high) / Pow2(p) % 2 == b / Pow2(p) % 2
  {
    var r := Pow2(7 - p);
    Pow2Plus(p, 8 - p);
    assert Pow2(8) == 256 by { assert Pow2(8) == 16 * Pow2(4); }
    assert Pow2(8 - p) == 2 * r;
    var m := Pow2(p);
    assert 256 * high == m * (2 * (r * high)) by {
      assert m * (2 * r) == 256;
      assert m * (2 * (r * high)) == (m * (2 * r)) * high;
    }
    var q := b / m;
    assert b + 256 * high == m * (q + 2 * (r * high)) + b % m;
    DivModUnique(b + 256 * high, m, q + 2 * (r * high), b % m);
    assert (q + 2 * (r * high)) % 2 == q % 2;
  }

  /** Access to bit j of byte i is access to bit 8 * i + j of the little-endian number. */
  lemma {:induction false} BitOfBytes(bytes: seq<byte>, i: nat, j: nat)
    requires i < |bytes| && j < 8
    ensures bytes[i] / Pow2(j) % 2 == BitAt(FromLittleEndian(bytes), 8 * i + j)
  {
    var high := FromLittleEndian(bytes[1..]);
    if i == 0 {
      LowBit(bytes[0], high, j);
    } else {
      BitOfBytes(bytes[1..], i - 1, j);
      HighBit(bytes[0], high, 8 * i + j);
    }
  }

  lemma HighBit(b: byte, high: nat, p: nat)
    requires p >= 8
    ensures (b + 256 * high) / Pow2(p) == high / Pow2(p - 8)
  {
    assert Pow2(8) == 16 * Pow2(4);
    assert (b + 256 * high) / Pow2(8) == high;
    DivTwice(b + 256 * high, 8, p - 8);
  }

  /** One more bit on top of a slice. */
  lemma SliceStep(v: nat, pos: nat, bits: nat)
    ensures Slice(v, pos, bits + 1) == Slice(v, pos, bits) + Pow2(bits) * BitAt(v, pos + bits)
  {
    Pow2Plus(bits, 1);
    assert Pow2(1) == 2 * Pow2(0);
    ModSplit(v / Pow2(pos), Pow2(bits), 2);
    DivTwice(v, pos, bits);
  }

  /** Consecutive slices make up the slice that spans both. */
  lemma SliceJoin(v: nat, pos: nat, a: nat, b: nat)
    ensures Slice(v, pos, a + b) == Slice(v, pos, a) + Pow2(a) * Slice(v, pos + a, b)
  {
    QuotientIsNat(v, Pow2(pos));
    var n: nat := v / Pow2(pos);
    assert Slice(v, pos + a, b) == n / Pow2(a) % Pow2(b) by { DivTwice(v, pos, a); }
    assert Pow2(a + b) == Pow2(a) * Pow2(b) by { Pow2Plus(a, b); }
    ModOfProduct(n, Pow2(a), Pow2(b), Pow2(a + b));
  }

  lemma QuotientIsNat(v: nat, d: nat)
    requires d > 0
    ensures v / d >= 0
  {
  }

  lemma ModOfProduct(n: nat, p: nat, q: nat, pq: nat)
    requires p > 0 && q > 0 && pq == p * q
    ensures pq > 0 && n % pq == n % p + p * (n / p % q)
  {
    ModSplit(n, p, q);
  }

  // ----- onboarding payloads

  datatype QrContent = QrContent(
    version: nat, vendor: nat, product: nat, discriminator: nat, discriminator4: nat, passcode: nat)

  const PAYLOAD_BITS: nat := 84

  function Fields(v: nat): QrContent {
    QrContent(Slice(v, 0, 3), Slice(v, 3, 16), Slice(v, 19, 16), Slice(v, 45, 12), 0, Slice(v, 57, 27))
  }

  /** The bytes of MT: */
  const PREFIX: Text := ['M' as int, 'T' as int, ':' as int]

  /** What the decoder makes of a text; None where it panics. */
  function DecodeQr(text: Text): Option<QrContent> {
    if !(PREFIX <= text) then None
    else
      match Decode38(text[3..])
      case None => None
      case Some(bytes) => if 8 * |bytes| < PAYLOAD_BITS then None else Some(Fields(FromLittleEndian(bytes)))
  }

  /** Every character, read five bytes at a time and cut off to a byte, is a digit. */
  predicate AllChunksDigits(text: Text) {
    |text| == 0 || (AllDigits(RuneBytes(text[..Min(5, |text|)])) && AllChunksDigits(text[Min(5, |text|)..]))
  }

  /** Such a text has a value, in three bytes for every five bytes or part of them, and no other text has one. */
  lemma {:induction false} Decode38Iff(text: Text)
    ensures Decode38(text).Some? <==> AllChunksDigits(text)
    ensures Decode38(text).Some? ==> |Decode38(text).value| == 3 * ((|text| + 4) / 5)
  {
    if |text| > 0 {
      var n := Min(5, |text|);
      DigitsValueIff(RuneBytes(text[..n]));
      Decode38Iff(text[n..]);
    }
  }

  lemma {:induction false} DigitsValueIff(s: seq<byte>)
    ensures DigitsValue(s).Some? <==> AllDigits(s)
  {
    if |s| > 0 {
      DigitsValueIff(s[1..]);
      assert forall i :: 1 <= i < |s| ==> s[i] == s[1..][i - 1];
    }
  }

  /** Of the texts in ASCII, exactly those of digits are such. */
  lemma {:induction false} AsciiChunks(text: Text)
    requires IsAscii(text)
    ensures AllChunksDigits(text) <==> AllDigits(text)
  {
    if |text| > 0 {
      var n := Min(5, |text|);
      AsciiRunes(text[..n]);
      AsciiChunks(text[n..]);
      DigitsSplit(text, n);
    }
  }

  lemma DigitsSplit(s: seq<byte>, n: nat)
    requires n <= |s|
    ensures AllDigits(s) <==> AllDigits(s[..n]) && AllDigits(s[n..])
  {
    assert s == s[..n] + s[n..];
    assert forall i :: n <= i < |s| ==> s[i] == s[n..][i - n];
  }

  /** Exactly the texts with the prefix and sixteen or more bytes after it are decoded, all of whose characters are
      cut off to digits. */
  lemma DecodeQrIff(text: Text)
    ensures DecodeQr(text).Some? <==> PREFIX <= text && |text| >= 19 && AllChunksDigits(text[3..])
  {
    if PREFIX <= text {
      var rest := text[3..];
      Decode38Iff(rest);
      assert DecodeQr(text).Some? <==> Decode38(rest).Some? && |rest| >= 16 by { EnoughBits(|rest|); }
    }
  }

  /** Of the texts in ASCII these are the ones that have only digits after the prefix. */
  lemma DecodeAsciiIff(text: Text)
    requires IsAscii(text)
    ensures DecodeQr(text).Some? <==> PREFIX <= text && |text| >= 19 && AllDigits(text[3..])
  {
    DecodeQrIff(text);
    if PREFIX <= text {
      AsciiChunks(text[3..]);
    }
  }

  /** Beyond ASCII there are others: a capital I with a dot, two bytes of UTF-8, is cut off to a zero. */
  lemma DecodedBeyondAscii()
    ensures var text := PREFIX + seq(15, i => '0' as int) + [0xc4, 0xb0];
            DecodeQr(text).Some? && !AllDigits(text[3..])
  {
    var zeros, dotted := seq(15, i => '0' as int), [0xc4, 0xb0];
    var text := PREFIX + zeros + dotted;
    DottedChunk(dotted);
    AsciiChunks(zeros);
    ChunksConcat(zeros, dotted, 3);
    assert text[3..] == zeros + dotted && text[3..][15] == 0xc4;
    DecodeQrIff(text);
  }

  lemma DottedChunk(s: Text)
    requires s == [0xc4, 0xb0]
    ensures AllChunksDigits(s)
  {
    assert RuneAt(s) == Rune(0x130, 2);
    assert RuneBytes([]) == [];
    assert s[..2] == s && s[2..] == [];
    assert RuneBytes(s) == [0x30];
    assert AllChunksDigits([]);
  }

  /** Texts of whole chunks can be put in front of others. */
  lemma {:induction false} ChunksConcat(a: Text, b: Text, k: nat)
    requires |a| == 5 * k && AllChunksDigits(a) && AllChunksDigits(b)
    ensures AllChunksDigits(a + b)
  {
    if k == 0 {
      assert a + b == b;
    } else {
      ChunksConcat(a[5..], b, k - 1);
      assert (a + b)[..5] == a[..5] && (a + b)[5..] == a[5..] + b;
    }
  }

  lemma EnoughBits(n: nat)
    ensures 8 * (3 * ((n + 4) / 5)) >= PAYLOAD_BITS <==> n >= 16
  {
  }

  /** The fields of a payload and their widths: 3, 16, 16, 2, 8, 12 and 27 bits. */
  datatype Payload = Payload(version: nat, vendor: nat, product: nat, flow: nat, capabilities: nat, discriminator: nat,
                             passcode: nat)
  {
    predicate InRange() {
      && version < 8 && vendor < 0x1_0000 && product < 0x1_0000 && flow < 4
      && capabilities < 0x100 && discriminator < 0x1000 && passcode < 0x800_0000
    }

    function Pack(): nat {
      var low := flow + 4 * (capabilities + 0x100 * (discriminator + 0x1000 * passcode));
      version + 8 * (vendor + 0x1_0000 * (product + 0x1_0000 * low))
    }

    function Printed(): Text {
      PREFIX + Encode38(LittleEndian(Pack(), 11))
    }
  }

  /** The lowest field of a number, and the number above it. */
  lemma Lowest(v: nat, pos: nat, bits: nat, low: nat, high: nat)
    requires low < Pow2(bits) && v / Pow2(pos) == low + Pow2(bits) * high
    ensures Slice(v, pos, bits) == low && v / Pow2(pos + bits) == high
  {
    DivModUnique(v / Pow2(pos), Pow2(bits), high, low);
    DivTwice(v, pos, bits);
  }

  lemma Pow2Values()
    ensures Pow2(0) == 1 && Pow2(2) == 4 && Pow2(3) == 8 && Pow2(8) == 0x100 && Pow2(12) == 0x1000
    ensures Pow2(16) == 0x1_0000 && Pow2(27) == 0x800_0000
  {
    assert Pow2(4) == 4 * Pow2(2);
    Pow2Plus(4, 4);
    Pow2Plus(4, 8);
    Pow2Plus(8, 8);
    Pow2Plus(3, 8);
    Pow2Plus(11, 16);
  }

  lemma PackedFields(p: Payload)
    requires p.InRange()
    ensures Fields(p.Pack()) == QrContent(p.version, p.vendor, p.product, p.discriminator, 0, p.passcode)
    ensures p.Pack() < Pow256(11)
  {
    Pow2Values();
    var v := p.Pack();
    var h6 := p.discriminator + 0x1000 * p.passcode;
    var h5 := p.capabilities + 0x100 * h6;
    var h4 := p.flow + 4 * h5;
    var h3 := p.product + 0x1_0000 * h4;
    var h2 := p.vendor + 0x1_0000 * h3;
    Lowest(v, 0, 3, p.version, h2);
    Lowest(v, 3, 16, p.vendor, h3);
    Lowest(v, 19, 16, p.product, h4);
    Lowest(v, 35, 2, p.flow, h5);
    Lowest(v, 37, 8, p.capabilities, h6);
    Lowest(v, 45, 12, p.discriminator, p.passcode);
    Lowest(v, 57, 27, p.passcode, 0);
    assert Pow256(11) == 0x100_0000 * Pow256(8) by { Pow256Values(); assert Pow256(10) == 0x1_0000 * Pow256(8); }
    Pow256Values();
  }

  /** Printed bytes that hold a whole payload are decoded to the fields of their number. */
  lemma PrintedDecodes(bytes: seq<byte>)
    requires 8 * |bytes| >= PAYLOAD_BITS
    ensures DecodeQr(PREFIX + Encode38(bytes)) == Some(Fields(FromLittleEndian(bytes)))
  {
    var text, padding := PREFIX + Encode38(bytes), Zeros(Padding(|bytes|));
    Base38RoundTrip(bytes);
    FromLittleEndianConcat(bytes, padding);
    FromLittleEndianZeros(Padding(|bytes|));
    assert text[3..] == Encode38(bytes);
  }

  /** Every payload in range survives packing, printing and decoding. */
  lemma QrRoundTrip(p: Payload)
    requires p.InRange()
    ensures DecodeQr(p.Printed()) == Some(QrContent(p.version, p.vendor, p.product, p.discriminator, 0, p.passcode))
  {
    PackedFields(p);
    LittleEndianRoundTrip(p.Pack(), 11);
    PrintedDecodes(LittleEndian(p.Pack(), 11));
  }

  lemma FiveDigits(n: nat, d0: nat, d1: nat, d2: nat, d3: nat, d4: nat)
    requires d0 < 38 && d1 < 38 && d2 < 38 && d3 < 38 && d4 < 38
    requires n == d0 + 38 * (d1 + 38 * (d2 + 38 * (d3 + 38 * d4)))
    ensures Digits(n, 5) == [CharOf(d0), CharOf(d1), CharOf(d2), CharOf(d3), CharOf(d4)]
  {
    var n1, n2, n3 := d1 + 38 * (d2 + 38 * (d3 + 38 * d4)), d2 + 38 * (d3 + 38 * d4), d3 + 38 * d4;
    assert n % 38 == d0 && n / 38 == n1;
    assert n1 % 38 == d1 && n1 / 38 == n2;
    assert n2 % 38 == d2 && n2 / 38 == n3;
    assert n3 % 38 == d3 && n3 / 38 == d4;
    assert Digits(d4, 1) == [CharOf(d4)] + Digits(d4 / 38, 0);
    assert Digits(n3, 2) == [CharOf(d3)] + Digits(d4, 1);
    assert Digits(n2, 3) == [CharOf(d2)] + Digits(n3, 2);
    assert Digits(n1, 4) == [CharOf(d1)] + Digits(n2, 3);
  }

  lemma FourDigits(n: nat, d0: nat, d1: nat, d2: nat, d3: nat)
    requires d0 < 38 && d1 < 38 && d2 < 38 && d3 < 38 && n == d0 + 38 * (d1 + 38 * (d2 + 38 * d3))
    ensures Digits(n, 4) == [CharOf(d0), CharOf(d1), CharOf(d2), CharOf(d3)]
  {
    FiveDigits(n, d0, d1, d2, d3, 0);
    assert Digits(n, 5) == [CharOf(n % 38)] + Digits(n / 38, 4);
    Prefixes(n, 4);
    assert Digits(n, 5)[..4] == Digits(n, 4);
  }

  lemma {:induction false} Prefixes(n: nat, k: nat)
    ensures Digits(n, k + 1)[..k] == Digits(n, k)
  {
    if k > 0 {
      Prefixes(n / 38, k - 1);
      assert Digits(n, k + 1)[..k] == [CharOf(n % 38)] + Digits(n / 38, k)[..k - 1];
    }
  }

  lemma ThreeBytes(s: seq<byte>)
    requires |s| == 3
    ensures FromLittleEndian(s) == s[0] as int + 256 * (s[1] as int + 256 * s[2] as int)
  {
    assert s[1..][1..] == s[2..] && s[2..][1..] == [];
    assert FromLittleEndian(s[2..]) == s[2] as int + 256 * FromLittleEndian([]);
  }

  function Example(): Payload {
    Payload(0, 65521, 32769, 0, 4, 3840, 123456)
  }

  /** The eleven bytes of the example payload. */
  lemma ExampleBytes(s: seq<byte>)
    requires s == [136, 255, 15, 0, 132, 0, 224, 129, 196, 3, 0]
    ensures FromLittleEndian(s) == Example().Pack()
  {
    var a, b, c, d := s[..3], s[3..6], s[6..9], s[9..];
    assert s == a + (b + (c + d));
    FromLittleEndianConcat(a, b + (c + d));
    FromLittleEndianConcat(b, c + d);
    FromLittleEndianConcat(c, d);
    Pow256Values();
    ThreeBytes(a);
    ThreeBytes(b);
    ThreeBytes(c);
    assert FromLittleEndian(d) == 3 by { assert d[1..] == [0] && d == [3, 0]; assert FromLittleEndian([0]) == 0; }
  }

  lemma ChunkPrinted(s: seq<byte>, n: nat, chunk: Text, more: Text)
    requires |s| >= 3 && FromLittleEndian(s[..3]) == n && Digits(n, 5) == chunk && Encode38(s[3..]) == more
    requires |s| > 3
    ensures Encode38(s) == chunk + more
  {
  }

  lemma ExampleChunk1(s: seq<byte>)
    requires s == [136, 255, 15]
    ensures Digits(FromLittleEndian(s), 5) == [45, 50, 52, 74, 48]
  {
    ThreeBytes(s);
    FiveDigits(1048456, 36, 2, 4, 19, 0);
  }

  lemma ExampleChunk2(s: seq<byte>)
    requires s == [0, 132, 0]
    ensures Digits(FromLittleEndian(s), 5) == [65, 70, 78, 48, 48]
  {
    ThreeBytes(s);
    FiveDigits(33792, 10, 15, 23, 0, 0);
  }

  lemma ExampleChunk3(s: seq<byte>)
    requires s == [224, 129, 196]
    ensures Digits(FromLittleEndian(s), 5) == [83, 73, 81, 54, 54]
  {
    ThreeBytes(s);
    FiveDigits(12878304, 28, 18, 26, 6, 6);
  }

  lemma ExampleChunk4(s: seq<byte>)
    requires s == [3, 0]
    ensures Encode38(s) == [51, 48, 48, 48]
  {
    assert s[1..] == [0] && [0][1..] == [];
    assert FromLittleEndian([0]) == 0 + 256 * FromLittleEndian([]);
    assert FromLittleEndian(s) == 3;
    FourDigits(3, 3, 0, 0, 0);
  }

  lemma ExamplePrinted(s: seq<byte>)
    requires s == [136, 255, 15, 0, 132, 0, 224, 129, 196, 3, 0]
    ensures Encode38(s) ==
            [45, 50, 52, 74, 48] + ([65, 70, 78, 48, 48] + ([83, 73, 81, 54, 54] + [51, 48, 48, 48]))
  {
    ExampleChunk1(s[..3]);
    ExampleChunk2(s[3..][..3]);
    ExampleChunk3(s[6..][..3]);
    ExampleChunk4(s[9..]);
    assert s[3..][3..] == s[6..] && s[6..][3..] == s[9..];
    ChunkPrinted(s[6..], FromLittleEndian(s[6..][..3]), [83, 73, 81, 54, 54], [51, 48, 48, 48]);
    ChunkPrinted(s[3..], FromLittleEndian(s[3..][..3]), [65, 70, 78, 48, 48], [83, 73, 81, 54, 54] + [51, 48, 48, 48]);
    ChunkPrinted(s, FromLittleEndian(s[..3]), [45, 50, 52, 74, 48],
                 [65, 70, 78, 48, 48] + ([83, 73, 81, 54, 54] + [51, 48, 48, 48]));
  }

  /** The text that the documentation decodes, MT:-24J0AFN00SIQ663000. */
  lemma DocumentedText(text: Text)
    requires text == [77, 84, 58] +
             ([45, 50, 52, 74, 48] + ([65, 70, 78, 48, 48] + ([83, 73, 81, 54, 54] + [51, 48, 48, 48])))
    ensures DecodeQr(text) == Some(QrContent(0, 65521, 32769, 3840, 0, 123456))
  {
    var s: seq<byte> := [136, 255, 15, 0, 132, 0, 224, 129, 196, 3, 0];
    ExampleBytes(s);
    ExamplePrinted(s);
    LittleEndianBytes(s);
    ExampleDecodes(Example(), s, text);
  }

  lemma ExampleDecodes(p: Payload, s: seq<byte>, text: Text)
    requires p.InRange() && LittleEndian(p.Pack(), 11) == s && text == PREFIX + Encode38(s)
    ensures DecodeQr(text) == Some(QrContent(p.version, p.vendor, p.product, p.discriminator, 0, p.passcode))
  {
    QrRoundTrip(p);
  }

}

/** The QR decoder as it runs: a bit cursor over bytes, and loops over digits and bits. */
module Qr {
  import opened Bytes
  import opened Options
  import opened QrSpec

  lemma AlphabetDigits()
    ensures |ALPHABET| == 38
    ensures forall i :: 0 <= i < 38 ==> ALPHABET[i] as int == CharOf(i)
  {
  }

  /** The position of a character in the alphabet; the code panics on any other character. */
  method A2n(a: byte) returns (r: Option<nat>)
    ensures r == DigitOf(a)
  {
    AlphabetDigits();
    var i := 0;
    while i < |ALPHABET|
      invariant 0 <= i <= 38
      invariant forall k :: 0 <= k < i ==> CharOf(k) != a
    {
      if ALPHABET[i] as int == a {
        DigitOfChar(i);
        return Some(i);
      }
      i := i + 1;
    }
    NoDigit(a);
    return None;
  }

  lemma NoDigit(c: byte)
    requires forall k :: 0 <= k < 38 ==> CharOf(k) != c
    ensures DigitOf(c) == None
  {
    if DigitOf(c).Some? {
      CharOfDigit(c);
    }
  }

  lemma DigitRange(c: byte)
    requires DigitOf(c).Some?
    ensures DigitOf(c).value < 38
  {
  }

  lemma CharOfDigit(c: byte)
    requires DigitOf(c).Some?
    ensures DigitOf(c).value < 38 && CharOf(DigitOf(c).value) == c
  {
  }

  class BitBuffer {
    var bytes: seq<byte>
    var currentByte: nat
    var currentBit: nat
    var totalBytes: nat

    ghost predicate Valid()
      reads this
    {
      currentBit < 8 && totalBytes == |bytes|
    }

    function Pos(): nat
      reads this
    {
      8 * currentByte + currentBit
    }

    constructor ()
      ensures Valid() && bytes == [] && Pos() == 0
    {
      bytes, currentByte, currentBit, totalBytes := [], 0, 0, 0;
    }

    method AddByte(n: byte)
      requires Valid()
      modifies this
      ensures Valid() && bytes == old(bytes) + [n] && Pos() == old(Pos())
    {
      totalBytes := totalBytes + 1;
      bytes := bytes + [n];
    }

    /** The bit under the cursor; the code panics at the end of the bytes. */
    method Get() returns (r: Option<nat>)
      requires Valid()
      modifies this
      ensures Valid() && bytes == old(bytes)
      ensures r.Some? <==> old(Pos()) < 8 * |bytes|
      ensures r.Some? ==> r.value == BitAt(FromLittleEndian(bytes), old(Pos())) && Pos() == old(Pos()) + 1
    {
      if currentByte >= |bytes| {
        return None;
      }
      var b := bytes[currentByte];
      BitOfBytes(bytes, currentByte, currentBit);
      var out := b / Pow2(currentBit) % 2;
      currentBit := currentBit + 1;
      if currentBit == 8 {
        currentByte, currentBit := currentByte + 1, 0;
      }
      return Some(out);
    }

    /** The next bits, as a number in a uint64: above 64 bits the higher ones are lost. */
    method GetNumber(bits: int) returns (r: Option<nat>)
      requires Valid()
      modifies this
      ensures Valid() && bytes == old(bytes)
      ensures r.Some? <==> bits <= 0 || old(Pos()) + bits <= 8 * |bytes|
      ensures r.Some? && bits >= 0 ==> Pos() == old(Pos()) + bits
      ensures r.Some? && bits >= 0 ==>
                r.value == QrSpec.Slice(FromLittleEndian(bytes), old(Pos()), Min(bits, 64))
    {
      var out, mult := 0, 1;
      ghost var v, start := FromLittleEndian(bytes), Pos();
      var i := 0;
      while i < bits
        invariant Valid() && bytes == old(bytes)
        invariant 0 <= i && (i == 0 || (i <= bits && start + i <= 8 * |bytes|))
        invariant Pos() == start + i
        invariant mult == if i < 64 then Pow2(i) else 0
        invariant out == QrSpec.Slice(v, start, Min(i, 64))
      {
        var bit := Get();
        if bit.None? {
          return None;
        }
        NumberStep(v, start, i, out, bit.value, mult);
        out := (out + bit.value * mult) % TWO_TO_THE_64;
        mult := mult * 2 % TWO_TO_THE_64;
        i := i + 1;
      }
      return Some(out);
    }

    /** Random access; the code panics outside the bytes, and on negative positions. */
    method GetBit(n: int) returns (r: Option<nat>)
      requires Valid()
      ensures r.Some? <==> 0 <= n < 8 * |bytes|
      ensures r.Some? ==> r.value == BitAt(FromLittleEndian(bytes), n)
    {
      if n < 0 || n / 8 >= |bytes| {
        return None;
      }
      BitOfBytes(bytes, n / 8, n % 8);
      return Some(bytes[n / 8] / Pow2(n % 8) % 2);
    }

    method ResetPtr()
      requires Valid()
      modifies this
      ensures Valid() && bytes == old(bytes) && Pos() == 0
    {
      currentBit := 0;
      currentByte := 0;
    }
  }

  lemma {:induction false} Pow2Mono(a: nat, b: nat)
    requires a <= b
    ensures Pow2(a) <= Pow2(b)
  {
    if a < b {
      Pow2Mono(a, b - 1);
    }
  }

  lemma Pow2Of64()
    ensures Pow2(64) == TWO_TO_THE_64
  {
    Pow2Values();
    Pow2Plus(16, 16);
    Pow2Plus(32, 32);
  }

  lemma SliceRange(v: nat, pos: nat, bits: nat)
    requires bits <= 64
    ensures QrSpec.Slice(v, pos, bits) < TWO_TO_THE_64
  {
    Pow2Mono(bits, 64);
    Pow2Of64();
  }

  /** One turn of the loop of GetNumber, in uint64 arithmetic. */
  lemma NumberStep(v: nat, pos: nat, i: nat, out: nat, bit: nat, mult: nat)
    requires out == QrSpec.Slice(v, pos, Min(i, 64))
    requires bit == BitAt(v, pos + i)
    requires mult == if i < 64 then Pow2(i) else 0
    ensures (out + bit * mult) % TWO_TO_THE_64 == QrSpec.Slice(v, pos, Min(i + 1, 64))
    ensures mult * 2 % TWO_TO_THE_64 == if i + 1 < 64 then Pow2(i + 1) else 0
  {
    Doubled(i);
    if i < 64 {
      SliceStep(v, pos, i);
      SliceRange(v, pos, i + 1);
      AddBit(out, bit, mult, QrSpec.Slice(v, pos, i + 1));
    } else {
      SliceRange(v, pos, 64);
      AddBit(out, bit, 0, out);
    }
  }

  lemma AddBit(out: nat, bit: nat, mult: nat, sum: nat)
    requires sum == out + mult * bit && sum < TWO_TO_THE_64
    ensures (out + bit * mult) % TWO_TO_THE_64 == sum
  {
    MulCommutes(bit, mult);
    SmallMod(sum, TWO_TO_THE_64);
  }

  lemma MulCommutes(a: int, b: int)
    ensures a * b == b * a
  {
  }

  /** Doubling a power of two in a uint64. */
  lemma Doubled(i: nat)
    ensures (if i < 64 then Pow2(i) else 0) * 2 % TWO_TO_THE_64 == if i + 1 < 64 then Pow2(i + 1) else 0
  {
    Pow2Of64();
    if i + 1 < 64 {
      Pow2Mono(i + 2, 64);
      assert Pow2(i + 2) == 2 * Pow2(i + 1);
    }
  }

  /** One chunk of at most five bytes, as a uint32; it cannot wrap around. */
  method ChunkNumber(chunk: Text) returns (r: Option<nat>)
    requires |chunk| <= 5
    ensures r == ChunkValue(chunk)
  {
    var b24, mult, rest := 0, 1, chunk;
    ghost var i := 0;
    AboveNothing(ChunkValue(chunk));
    while |rest| > 0
      invariant i + |rest| <= 5 && mult == Pow38(i)
      invariant 0 <= b24 < mult
      invariant ChunkValue(chunk) == Above(b24, mult, ChunkValue(rest))
      decreases |rest|
    {
      var rune := RuneAt(rest);
      ghost var next := rest[rune.size..];
      FirstRune(rest);
      var n := A2n(rune.code % 0x100);
      if n.None? {
        return None;
      }
      DigitRange(rune.code % 0x100);
      NoWrap(i, n.value, b24, mult);
      Horner(b24, mult, n.value, ChunkValue(next));
      b24 := (b24 + n.value * (mult % TWO_TO_THE_32)) % TWO_TO_THE_32;
      mult := mult * 38;
      rest := rest[rune.size..];
      i := i + 1;
    }
    return Some(b24);
  }

  /** The value of a chunk from its first character and the value of the others. */
  lemma FirstRune(s: Text)
    requires |s| > 0
    ensures ChunkValue(s) == match DigitOf(RuneAt(s).code % 0x100)
                             case None => None
                             case Some(d) => Above(d, 38, ChunkValue(s[RuneAt(s).size..]))
  {
    var bytes := RuneBytes(s);
    assert bytes[1..] == RuneBytes(s[RuneAt(s).size..]);
  }

  lemma AboveNothing(v: Option<nat>)
    ensures Above(0, 1, v) == v
  {
  }

  /** The digits read so far, and the value of the digits above them. */
  function Above(low: nat, mult: nat, high: Option<nat>): Option<nat> {
    match high
    case None => None
    case Some(v) => Some(low + mult * v)
  }

  lemma Horner(low: nat, mult: nat, d: nat, high: Option<nat>)
    ensures Above(low, mult, Above(d, 38, high)) == Above(low + d * mult, mult * 38, high)
  {
    if high.Some? {
      var v := high.value;
      assert mult * (d + 38 * v) == d * mult + (mult * 38) * v;
    }
  }

  /** Five digits stay within a uint32. */
  lemma NoWrap(i: nat, d: nat, b: nat, mult: nat)
    requires i < 5 && d < 38 && mult == Pow38(i) && b < mult
    ensures (b + d * (mult % TWO_TO_THE_32)) % TWO_TO_THE_32 == b + d * mult < mult * 38
    ensures mult * 38 == Pow38(i + 1)
  {
    Pow38Range(i);
    MulCommutes(d, mult);
    MulMono(mult, d, 37);
    SmallMod(mult, TWO_TO_THE_32);
    SmallMod(b + d * mult, TWO_TO_THE_32);
  }

  lemma Pow38Range(i: nat)
    requires i < 5
    ensures 38 * Pow38(i) < TWO_TO_THE_32
  {
    assert Pow38(1) == 38 && Pow38(2) == 1444;
    assert Pow38(3) == 38 * Pow38(2) && Pow38(4) == 38 * Pow38(3);
  }

  method B38Decode(text: Text) returns (r: Option<BitBuffer>)
    ensures r.Some? <==> Decode38(text).Some?
    ensures r.Some? ==> fresh(r.value) && r.value.Valid() && r.value.Pos() == 0
    ensures r.Some? ==> Some(r.value.bytes) == Decode38(text)
  {
    var bb := new BitBuffer();
    var rest := text;
    AfterNothing(Decode38(text));
    while |rest| > 0
      invariant bb.Valid() && bb.Pos() == 0 && fresh(bb)
      invariant Decode38(text) == After(bb.bytes, Decode38(rest))
      decreases |rest|
    {
      var n := Min(5, |rest|);
      var chunk := ChunkNumber(rest[..n]);
      if chunk.None? {
        return None;
      }
      AfterTwice(bb.bytes, LittleEndian(chunk.value, 3), Decode38(rest[n..]));
      AddThree(bb, chunk.value);
      rest := rest[n..];
    }
    assert bb.bytes + [] == bb.bytes;
    return Some(bb);
  }

  function After(bytes: seq<byte>, more: Option<seq<byte>>): Option<seq<byte>> {
    match more
    case None => None
    case Some(s) => Some(bytes + s)
  }

  lemma AfterNothing(more: Option<seq<byte>>)
    ensures After([], more) == more
  {
    assert more.Some? ==> [] + more.value == more.value;
  }

  lemma AfterTwice(a: seq<byte>, b: seq<byte>, more: Option<seq<byte>>)
    ensures After(a, After(b, more)) == After(a + b, more)
  {
    assert more.Some? ==> a + (b + more.value) == a + b + more.value;
  }

  /** The inner loop over the three bytes of a chunk. */
  method AddThree(bb: BitBuffer, value: nat)
    requires bb.Valid()
    modifies bb
    ensures bb.Valid() && bb.bytes == old(bb.bytes) + LittleEndian(value, 3) && bb.Pos() == old(bb.Pos())
  {
    var b24 := value;
    for i := 0 to 3
      invariant bb.Valid() && bb.Pos() == old(bb.Pos())
      invariant bb.bytes + LittleEndian(b24, 3 - i) == old(bb.bytes) + LittleEndian(value, 3)
    {
      bb.AddByte(b24 % 256);
      b24 := b24 / 256;
    }
    assert bb.bytes + [] == bb.bytes;
  }

  method DecodeQrText(text: Text) returns (r: Option<QrContent>)
    ensures r == DecodeQr(text)
  {
    if !(PREFIX <= text) {
      return None;
    }
    var decoded := B38Decode(text[3..]);
    if decoded.None? {
      return None;
    }
    var bb := decoded.value;
    bb.ResetPtr();
    var version := bb.GetNumber(3);
    if version.None? { return None; }
    var vendor := bb.GetNumber(16);
    if vendor.None? { return None; }
    var product := bb.GetNumber(16);
    if product.None? { return None; }
    var flow := bb.GetNumber(2);
    if flow.None? { return None; }
    var capabilities := bb.GetNumber(8);
    if capabilities.None? { return None; }
    var discriminator := bb.GetNumber(12);
    if discriminator.None? { return None; }
    var passcode := bb.GetNumber(27);
    if passcode.None? { return None; }
    // the conversions to byte, uint16 and uint32 keep values that fit
    return Some(QrContent(version.value, vendor.value, product.value, discriminator.value, 0, passcode.value));
  }
}
