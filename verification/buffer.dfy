/** The byte buffer of the Go library that readers and writers share. */
module Buffers {
  import opened Bytes

  class Buffer {
    var unread: seq<byte>

    constructor (data: seq<byte>)
      ensures unread == data
    {
      unread := data;
    }

    method Write(data: seq<byte>)
      modifies this
      ensures unread == old(unread) + data
    {
      unread := unread + data;
    }

    method WriteByte(b: byte)
      modifies this
      ensures unread == old(unread) + [b]
    {
      unread := unread + [b];
    }

    /** The next byte, or an error at the end of the buffer. */
    method ReadByte() returns (ok: bool, b: byte)
      modifies this
      ensures ok <==> |old(unread)| > 0
      ensures if ok then b == old(unread)[0] && unread == old(unread)[1..] else b == 0 && unread == old(unread)
    {
      if |unread| == 0 {
        return false, 0;
      }
      ok, b, unread := true, unread[0], unread[1..];
    }

    /** Fills a zeroed array of size bytes with what is left. */
    method Read(size: nat) returns (data: seq<byte>)
      modifies this
      ensures data == Filled(old(unread), size) && unread == Remaining(old(unread), size)
    {
      data, unread := Filled(unread, size), Remaining(unread, size);
    }

    /** A little-endian integer of size bytes. A short buffer is used up and leaves the target as it was. */
    method ReadLittleEndian(size: nat, target: nat) returns (n: nat)
      modifies this
      ensures n == Integer(old(unread), size, target) && unread == Remaining(old(unread), size)
    {
      n, unread := Integer(unread, size, target), Remaining(unread, size);
    }
  }

  function Remaining(s: seq<byte>, size: nat): (r: seq<byte>)
    ensures |r| == if |s| >= size then |s| - size else 0
  {
    if |s| >= size then s[size..] else []
  }

  function Filled(s: seq<byte>, size: nat): (r: seq<byte>)
    ensures |r| == size
  {
    if |s| >= size then s[..size] else s + Zeros(size - |s|)
  }

  function Integer(s: seq<byte>, size: nat, target: nat): nat {
    if |s| >= size then FromLittleEndian(s[..size]) else target
  }

  function Read16(s: seq<byte>, target: uint16): (n: uint16) {
    IntegerRange(s, 2, target);
    Integer(s, 2, target)
  }

  function Read32(s: seq<byte>, target: uint32): (n: uint32) {
    IntegerRange(s, 4, target);
    Integer(s, 4, target)
  }

  lemma IntegerRange(s: seq<byte>, size: nat, target: nat)
    requires size == 2 ==> target < TWO_TO_THE_16
    requires size == 4 ==> target < TWO_TO_THE_32
    requires size == 8 ==> target < TWO_TO_THE_64
    requires size in {2, 4, 8}
    ensures Integer(s, size, target) < Pow256(size)
    ensures Pow256(2) == TWO_TO_THE_16 && Pow256(4) == TWO_TO_THE_32 && Pow256(8) == TWO_TO_THE_64
  {
    Pow256Values();
    if |s| >= size {
      LittleEndianBytes(s[..size]);
    }
  }

  /** A complete read takes its bytes and leaves the bytes after them alone. */
  lemma ReadComplete(data: seq<byte>, rest: seq<byte>, target: nat)
    ensures Filled(data + rest, |data|) == data
    ensures Remaining(data + rest, |data|) == rest
    ensures Integer(data + rest, |data|, target) == FromLittleEndian(data)
  {
    assert (data + rest)[..|data|] == data;
    assert (data + rest)[|data|..] == rest;
  }

  /** Reading depends on the bytes that are read only, unless the buffer runs out. */
  lemma ReadLocal(s: seq<byte>, t: seq<byte>, size: nat, target: nat)
    requires Remaining(s, size) != []
    ensures size < |s| && Remaining(s, size) == s[size..]
    ensures Filled(s[..size] + t, size) == Filled(s, size)
    ensures Remaining(s[..size] + t, size) == t
    ensures Integer(s[..size] + t, size, target) == Integer(s, size, target)
  {
    assert (s[..size] + t)[..size] == s[..size];
    assert (s[..size] + t)[size..] == t;
  }
}
