/** Bytes, fixed-width integers in both byte orders, and exclusive or. */
module Bytes {

  type byte = x: int | 0 <= x < 0x100

  const MAX_INT64: nat := 0x7fff_ffff_ffff_ffff
  const TWO_TO_THE_16: nat := 0x1_0000
  const TWO_TO_THE_32: nat := 0x1_0000_0000
  const TWO_TO_THE_64: nat := 0x1_0000_0000_0000_0000

  type uint16 = x: int | 0 <= x < TWO_TO_THE_16
  type uint32 = x: int | 0 <= x < TWO_TO_THE_32
  type uint64 = x: int | 0 <= x < TWO_TO_THE_64

  function Pow256(k: nat): (r: nat)
    ensures r >= 1
  {
    if k == 0 then 1 else 256 * Pow256(k - 1)
  }

  function Pow2(k: nat): (r: nat)
    ensures r >= 1
  {
    if k == 0 then 1 else 2 * Pow2(k - 1)
  }

  function Min(a: int, b: int): int {
    if a <= b then a else b
  }

  function Zeros(k: nat): (s: seq<byte>)
    ensures |s| == k
    ensures forall i :: 0 <= i < k ==> s[i] == 0
  {
    seq(k, i => 0)
  }

  lemma Pow256Values()
    ensures Pow256(0) == 1 && Pow256(1) == 0x100 && Pow256(2) == TWO_TO_THE_16
    ensures Pow256(3) == 0x100_0000 && Pow256(4) == TWO_TO_THE_32
    ensures Pow256(5) == 0x100_0000_0000 && Pow256(6) == 0x1_0000_0000_0000
    ensures Pow256(7) == 0x100_0000_0000_0000 && Pow256(8) == TWO_TO_THE_64
  {
    assert Pow256(2) == 256 * Pow256(1);
    assert Pow256(3) == 256 * Pow256(2);
    assert Pow256(4) == 256 * Pow256(3);
    assert Pow256(5) == 256 * Pow256(4);
    assert Pow256(6) == 256 * Pow256(5);
    assert Pow256(7) == 256 * Pow256(6);
    assert Pow256(8) == 256 * Pow256(7);
  }

  lemma Regroup(a: seq<byte>, b: seq<byte>, c: seq<byte>, d: seq<byte>, e: seq<byte>, f: seq<byte>, rest: seq<byte>)
    ensures a + b + c + d + e + f + rest == a + (b + (c + (d + (e + (f + rest)))))
  {
  }

  // ----- division

  lemma MulMono(a: nat, b: nat, c: nat)
    requires b <= c
    ensures a * b <= a * c
  {
  }

  lemma MulDistributes(a: int, b: int, c: int)
    ensures a * (b + c) == a * b + a * c
  {
  }

  lemma MulAssociates(a: int, b: int, c: int)
    ensures a * (b * c) == (a * b) * c
  {
  }

  lemma SmallMod(x: nat, m: nat)
    requires x < m
    ensures x % m == x
  {
  }

  /** A quotient and a remainder within range are the quotient and the remainder. */
  lemma DivModUnique(n: int, m: int, q: int, r: int)
    requires m > 0 && n == m * q + r && 0 <= r < m
    ensures n / m == q && n % m == r
  {
    var dq := n / m - q;
    assert m * (n / m) + n % m == n;
    assert m * dq == r - n % m;
    assert dq >= 1 ==> m * dq >= m;
    assert dq <= -1 ==> m * dq <= -m;
  }

  /** A number from its lowest base-b digit, the next base-p digit, and what is above them. */
  lemma TwoDigits(b: nat, p: nat, t: nat, u: nat, r: nat)
    requires r < b && u < p
    ensures b * (p * t + u) + r == (b * p) * t + (b * u + r)
    ensures b * u + r < b * p
  {
    MulDistributes(b, p * t, u);
    MulAssociates(b, p, t);
    MulMono(b, u + 1, p);
    MulDistributes(b, u, 1);
  }

  lemma DivModParts(n: nat, m: nat)
    requires m > 0
    ensures n / m >= 0 && 0 <= n % m < m && n == m * (n / m) + n % m
  {
  }

  /** Splitting off the lowest base-b digit before reducing modulo b * p. */
  lemma ModSplit(n: nat, b: nat, p: nat)
    requires b > 0 && p > 0
    ensures b * p > 0
    ensures n % (b * p) == n % b + b * ((n / b) % p)
    ensures n / (b * p) == (n / b) / p
  {
    DivModParts(n, b);
    DivModParts(n / b, p);
    SplitDigits(n, b, p, n / b, n % b, n / b / p, n / b % p);
  }

  lemma SplitDigits(n: nat, b: nat, p: nat, q: nat, r: nat, t: nat, u: nat)
    requires r < b && u < p && n == b * q + r && q == p * t + u
    ensures b * p > 0 && n % (b * p) == r + b * u && n / (b * p) == t
  {
    TwoDigits(b, p, t, u, r);
    DivModUnique(n, b * p, t, b * u + r);
  }

  // ----- little endian

  function LittleEndian(n: nat, k: nat): (s: seq<byte>)
    ensures |s| == k
  {
    if k == 0 then [] else [n % 256] + LittleEndian(n / 256, k - 1)
  }

  function FromLittleEndian(s: seq<byte>): nat {
    if |s| == 0 then 0 else s[0] + 256 * FromLittleEndian(s[1..])
  }

  /** Reading back k little-endian bytes gives the number reduced to k bytes. */
  lemma {:induction false} LittleEndianRead(n: nat, k: nat)
    ensures FromLittleEndian(LittleEndian(n, k)) == n % Pow256(k)
  {
    if k > 0 {
      LittleEndianRead(n / 256, k - 1);
      assert LittleEndian(n, k)[1..] == LittleEndian(n / 256, k - 1);
      ModSplit(n, 256, Pow256(k - 1));
    }
  }

  lemma LittleEndianRoundTrip(n: nat, k: nat)
    requires n < Pow256(k)
    ensures FromLittleEndian(LittleEndian(n, k)) == n
  {
    LittleEndianRead(n, k);
  }

  lemma LowByte(b: byte, high: nat)
    ensures (b + 256 * high) % 256 == b && (b + 256 * high) / 256 == high
  {
  }

  lemma {:induction false} LittleEndianBytes(s: seq<byte>)
    ensures FromLittleEndian(s) < Pow256(|s|)
    ensures LittleEndian(FromLittleEndian(s), |s|) == s
  {
    if |s| > 0 {
      LittleEndianBytes(s[1..]);
      var high := FromLittleEndian(s[1..]);
      LowByte(s[0], high);
      assert [s[0]] + s[1..] == s;
    }
  }

  /** Byte i of a little-endian number counts the multiples of 256^i. */
  lemma {:induction false} LittleEndianAt(n: nat, k: nat, i: nat)
    requires i < k
    ensures LittleEndian(n, k)[i] == n / Pow256(i) % 256
  {
    if i > 0 {
      LittleEndianAt(n / 256, k - 1, i - 1);
      ModSplit(n, 256, Pow256(i - 1));
    }
  }

  lemma Distribute(x: int, p: int, y: int)
    ensures 256 * (x + p * y) == 256 * x + (256 * p) * y
  {
    assert 256 * (p * y) == (256 * p) * y;
  }

  lemma {:induction false} FromLittleEndianConcat(s: seq<byte>, t: seq<byte>)
    ensures FromLittleEndian(s + t) == FromLittleEndian(s) + Pow256(|s|) * FromLittleEndian(t)
  {
    if |s| == 0 {
      assert s + t == t;
    } else {
      assert (s + t)[1..] == s[1..] + t;
      FromLittleEndianConcat(s[1..], t);
      var x, p, y := FromLittleEndian(s[1..]), Pow256(|s| - 1), FromLittleEndian(t);
      Distribute(x, p, y);
    }
  }

  lemma {:induction false} FromLittleEndianZeros(k: nat)
    ensures FromLittleEndian(Zeros(k)) == 0
  {
    if k > 0 {
      FromLittleEndianZeros(k - 1);
      assert Zeros(k)[1..] == Zeros(k - 1);
    }
  }

  // ----- big endian

  function BigEndian(n: nat, k: nat): (s: seq<byte>)
    ensures |s| == k
  {
    if k == 0 then [] else BigEndian(n / 256, k - 1) + [n % 256]
  }

  function FromBigEndian(s: seq<byte>): nat {
    if |s| == 0 then 0 else 256 * FromBigEndian(s[..|s| - 1]) + s[|s| - 1]
  }

  lemma {:induction false} BigEndianRoundTrip(n: nat, k: nat)
    requires n < Pow256(k)
    ensures FromBigEndian(BigEndian(n, k)) == n
  {
    if k > 0 {
      BigEndianRoundTrip(n / 256, k - 1);
      assert BigEndian(n, k)[..k - 1] == BigEndian(n / 256, k - 1);
    }
  }

  lemma {:induction false} BigEndianBytes(s: seq<byte>)
    ensures FromBigEndian(s) < Pow256(|s|)
    ensures BigEndian(FromBigEndian(s), |s|) == s
  {
    if |s| > 0 {
      var n := |s| - 1;
      BigEndianBytes(s[..n]);
      LowByte(s[n], FromBigEndian(s[..n]));
      assert s[..n] + [s[n]] == s;
    }
  }

  /** The same, counted from the other end. */
  lemma {:induction false} BigEndianAt(n: nat, k: nat, i: nat)
    requires i < k
    ensures BigEndian(n, k)[k - 1 - i] == n / Pow256(i) % 256
  {
    if i > 0 {
      BigEndianAt(n / 256, k - 1, i - 1);
      ModSplit(n, 256, Pow256(i - 1));
    }
  }

  /** A number that fits in j bytes is written with leading zero bytes. */
  lemma {:induction false} BigEndianLeadingZeros(n: nat, j: nat, k: nat)
    requires j <= k && n < Pow256(j)
    ensures BigEndian(n, k) == Zeros(k - j) + BigEndian(n, j)
  {
    if j > 0 {
      BigEndianLeadingZeros(n / 256, j - 1, k - 1);
    } else if k > 0 {
      BigEndianLeadingZeros(0, 0, k - 1);
      assert Zeros(k - 1) + [0] == Zeros(k);
    }
  }

  // ----- exclusive or

  /** Bitwise exclusive or, one binary digit at a time. */
  function XorNat(a: nat, b: nat): nat {
    if a == 0 && b == 0 then 0 else (a + b) % 2 + 2 * XorNat(a / 2, b / 2)
  }

  lemma {:induction false} XorNatRange(a: nat, b: nat, k: nat)
    requires a < Pow2(k) && b < Pow2(k)
    ensures XorNat(a, b) < Pow2(k)
  {
    if a != 0 || b != 0 {
      XorNatRange(a / 2, b / 2, k - 1);
    }
  }

  /** The lowest bit of an exclusive or, and the bits above it. */
  lemma XorNatParts(a: nat, b: nat)
    ensures XorNat(a, b) % 2 == (a + b) % 2 && XorNat(a, b) / 2 == XorNat(a / 2, b / 2)
  {
    if a == 0 && b == 0 {
      assert XorNat(0, 0) == 0;
    } else {
      LowAndHigh((a + b) % 2, XorNat(a / 2, b / 2));
    }
  }

  lemma LowAndHigh(low: nat, high: nat)
    requires low < 2
    ensures (low + 2 * high) % 2 == low && (low + 2 * high) / 2 == high
  {
  }

  lemma {:induction false} XorNatInvolution(a: nat, b: nat)
    ensures XorNat(XorNat(a, b), b) == a
  {
    if a != 0 || b != 0 {
      var x := XorNat(a, b);
      XorNatParts(a, b);
      XorNatParts(x, b);
      XorNatInvolution(a / 2, b / 2);
      SameParts(XorNat(x, b), a, b, x);
    }
  }

  lemma SameParts(y: nat, a: nat, b: nat, x: nat)
    requires y % 2 == (x + b) % 2 && x % 2 == (a + b) % 2 && y / 2 == a / 2
    ensures y == a
  {
  }

  function Xor(a: byte, b: byte): byte {
    XorByteRange(a, b);
    XorNat(a, b)
  }

  lemma XorByteRange(a: byte, b: byte)
    ensures XorNat(a, b) < 256
  {
    assert Pow2(4) == 16;
    assert Pow2(8) == 256 by { assert Pow2(6) == 4 * Pow2(4); }
    XorNatRange(a, b, 8);
  }

  lemma {:induction false} XorNatBits(a: nat, b: nat, k: nat)
    ensures XorNat(a, b) / Pow2(k) % 2 == (a / Pow2(k) + b / Pow2(k)) % 2
  {
    XorNatParts(a, b);
    if k > 0 {
      XorNatBits(a / 2, b / 2, k - 1);
      Halve(XorNat(a, b), k);
      Halve(a, k);
      Halve(b, k);
    }
  }

  lemma Halve(n: nat, k: nat)
    requires k > 0
    ensures n / Pow2(k) == n / 2 / Pow2(k - 1)
  {
    ModSplit(n, 2, Pow2(k - 1));
  }

  /** Every bit of an exclusive or is set if and only if one of the two bits is. */
  lemma XorBits(a: byte, b: byte, k: nat)
    requires k < 8
    ensures Xor(a, b) / Pow2(k) % 2 == (a / Pow2(k) + b / Pow2(k)) % 2
  {
    XorNatBits(a, b, k);
  }

  lemma XorInvolution(a: byte, b: byte)
    ensures Xor(Xor(a, b), b) == a
  {
    XorNatInvolution(a, b);
  }

  function XorSeq(s: seq<byte>, t: seq<byte>): (r: seq<byte>)
    requires |s| == |t|
    ensures |r| == |s|
    ensures forall i :: 0 <= i < |s| ==> r[i] == Xor(s[i], t[i])
  {
    seq(|s|, i requires 0 <= i < |s| => Xor(s[i], t[i]))
  }

  lemma XorSeqBits(s: seq<byte>, t: seq<byte>, i: nat, k: nat)
    requires i < |s| == |t| && k < 8
    ensures XorSeq(s, t)[i] / Pow2(k) % 2 == (s[i] / Pow2(k) + t[i] / Pow2(k)) % 2
  {
    XorBits(s[i], t[i], k);
  }

  lemma XorSeqInvolution(s: seq<byte>, t: seq<byte>)
    requires |s| == |t|
    ensures XorSeq(XorSeq(s, t), t) == s
  {
    forall i | 0 <= i < |s| ensures XorSeq(XorSeq(s, t), t)[i] == s[i] {
      XorInvolution(s[i], t[i]);
    }
  }
}

/** A value that may be missing. */
module Options {
  datatype Option<+T> = None | Some(value: T)
}
