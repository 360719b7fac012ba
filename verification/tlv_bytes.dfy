/** Every element of Matter TLV, byte by byte: what the writer writes, and what the decoder makes of any input. */
module TlvBytes {
  import opened Bytes
  import opened Options
  import opened Buffers
  import opened Tlv
  import opened TlvCodec

  // ----- what the writer writes

  lemma UIntBytes(tag: byte, val: nat)
    ensures EncodeUInt(tag, 4, val) == [0x24, tag, val % 0x100]
    ensures EncodeUInt(tag, 5, val) == [0x25, tag] + LittleEndian(val, 2)
    ensures EncodeUInt(tag, 6, val) == [0x26, tag] + LittleEndian(val, 4)
    ensures EncodeUInt(tag, 7, val) == [0x27, tag] + LittleEndian(val, 8)
  {
    assert LittleEndian(val, 1) == [val % 0x100] + LittleEndian(val / 0x100, 0);
  }

  /** For any other type there is a control byte and the tag only: of the type's low byte bit 5 is set, and the bits
      below and above it are kept. */
  lemma OtherUIntBytes(tag: byte, typ: int, val: nat)
    requires !(4 <= typ <= 7)
    ensures var s := EncodeAnyUInt(tag, typ, val);
            && |s| == 2 && s[1] == tag
            && s[0] / 0x20 % 2 == 1 && s[0] % 0x20 == typ % 0x100 % 0x20 && s[0] / 0x40 == typ % 0x100 / 0x40
  {
    Bit5(typ % 0x100);
    assert EncodeAnyUInt(tag, typ, val) == [UIntControl(typ), tag];
  }

  lemma Bit5(low: byte)
    ensures var c := if low / 0x20 % 2 == 1 then low else low + 0x20;
            c < 0x100 && c / 0x20 % 2 == 1 && c % 0x20 == low % 0x20 && c / 0x40 == low / 0x40
  {
    var q, b, r := low / 0x40, low / 0x20 % 2, low % 0x20;
    assert low == 0x40 * q + 0x20 * b + r;
    BitParts(q, 1, r);
    BitParts(q, b, r);
  }

  lemma BitParts(q: nat, b: nat, r: nat)
    requires q < 4 && b < 2 && r < 0x20
    ensures var n := 0x40 * q + 0x20 * b + r; n / 0x20 % 2 == b && n % 0x20 == r && n / 0x40 == q && n < 0x100
  {
  }

  lemma BoolBytes(tag: byte)
    ensures EncodeBool(tag, false) == [0x28, tag] && EncodeBool(tag, true) == [0x29, tag]
  {
  }

  lemma OctetsBytes(tag: byte, data: seq<byte>)
    ensures |data| <= 0xff ==> EncodeOctets(tag, data) == [0x30, tag, |data|] + data
    ensures |data| > 0xff ==> EncodeOctets(tag, data) == [0x31, tag] + LittleEndian(|data|, 2) + data
  {
  }

  lemma ContainerBytes(tag: byte, ts: seq<Tree>)
    ensures Encode(Container(AnonStruct, ts)) == [0x15] + EncodeAll(ts) + [0x18]
    ensures Encode(Container(AnonList, ts)) == [0x17] + EncodeAll(ts) + [0x18]
    ensures Encode(Container(Struct(tag), ts)) == [0x35, tag] + EncodeAll(ts) + [0x18]
    ensures Encode(Container(Array(tag), ts)) == [0x36, tag] + EncodeAll(ts) + [0x18]
    ensures Encode(Container(List(tag), ts)) == [0x37, tag] + EncodeAll(ts) + [0x18]
  {
  }

  lemma {:induction false} EncodeAllConcat(ts: seq<Tree>, us: seq<Tree>)
    ensures EncodeAll(ts + us) == EncodeAll(ts) + EncodeAll(us)
  {
    if |ts| == 0 {
      assert ts + us == us;
    } else {
      assert (ts + us)[1..] == ts[1..] + us;
      EncodeAllConcat(ts[1..], us);
    }
  }

  // ----- what the decoder makes of it

  /** The bytes in front of the value of an element of a type: the control byte, and the tag if the control byte
      announces one in its upper bits; other tag forms are taken for no tag. */
  ghost predicate Opens(front: seq<byte>, tp: byte, tag: byte) {
    || (tp < 0x20 && |front| == 2 && front[0] == 0x20 + tp && front[1] == tag)
    || (|front| == 1 && front[0] % 0x20 == tp && front[0] / 0x20 != 1 && tag == 0)
  }

  lemma Opened(front: seq<byte>, tp: byte, tag: byte, body: seq<byte>)
    requires Opens(front, tp, tag)
    ensures |front| > 0 && tp < 0x20 && DecodeElement(front + body) == DecodeBody(tp, tag, body)
  {
    if |front| == 2 {
      assert front == [0x20 + tp, tag];
      DecodeTagged(0x20 + tp, tag, body);
    } else {
      assert (front + body)[1..] == body;
    }
  }

  /** One byte, signed or unsigned, is read as unsigned. */
  lemma ByteDecodes(front: seq<byte>, tp: byte, tag: byte, b: byte, rest: seq<byte>)
    requires Opens(front, tp, tag) && tp in {0, 4}
    ensures DecodeElement(front + ([b] + rest)) == Got(Item(tag, TypeInt, tp, false, b, [], [], []), rest)
  {
    Opened(front, tp, tag, [b] + rest);
    assert ([b] + rest)[1..] == rest;
  }

  /** Longer signed integers are skipped, and count as zero. */
  lemma SignedDecodes(front: seq<byte>, tp: byte, tag: byte, data: seq<byte>, rest: seq<byte>)
    requires Opens(front, tp, tag)
    requires (tp == 1 && |data| == 2) || (tp == 2 && |data| == 4) || (tp == 3 && |data| == 8)
    ensures DecodeElement(front + (data + rest)) == Got(Item(tag, TypeInt, tp, false, 0, [], [], []), rest)
  {
    Opened(front, tp, tag, data + rest);
    ReadComplete(data, rest, 0);
  }

  lemma UnsignedDecodes(front: seq<byte>, tp: byte, tag: byte, data: seq<byte>, rest: seq<byte>)
    requires Opens(front, tp, tag)
    requires (tp == 5 && |data| == 2) || (tp == 6 && |data| == 4) || (tp == 7 && |data| == 8)
    ensures FromLittleEndian(data) < TWO_TO_THE_64
    ensures DecodeElement(front + (data + rest)) ==
            Got(Item(tag, TypeInt, tp, false, FromLittleEndian(data), [], [], []), rest)
  {
    Opened(front, tp, tag, data + rest);
    ReadComplete(data, rest, 0);
    LittleEndianBytes(data);
    Pow256Values();
  }

  lemma BoolDecodes(front: seq<byte>, tp: byte, tag: byte, rest: seq<byte>)
    requires Opens(front, tp, tag) && tp in {8, 9}
    ensures DecodeElement(front + rest) == Got(Item(tag, TypeBool, tp, tp == 9, 0, [], [], []), rest)
  {
    Opened(front, tp, tag, rest);
  }

  lemma NullDecodes(front: seq<byte>, tag: byte, rest: seq<byte>)
    requires Opens(front, 0x14, tag)
    ensures DecodeElement(front + rest) == Got(Item(tag, TypeNull, 0x14, false, 0, [], [], []), rest)
  {
    Opened(front, 0x14, tag, rest);
  }

  /** A text is kept as text and as octets. */
  lemma TextDecodes(front: seq<byte>, tag: byte, data: seq<byte>, rest: seq<byte>)
    requires Opens(front, 0xc, tag) && |data| <= 0xff
    ensures DecodeElement(front + ([|data|] + (data + rest))) ==
            Got(Item(tag, TypeUtf8String, 0xc, false, 0, data, data, []), rest)
  {
    Opened(front, 0xc, tag, [|data|] + (data + rest));
    assert ([|data|] + (data + rest))[1..] == data + rest;
    ReadComplete(data, rest, 0);
  }

  lemma OctetsDecode(front: seq<byte>, tag: byte, data: seq<byte>, rest: seq<byte>)
    requires Opens(front, 0x10, tag) && |data| <= 0xff
    ensures DecodeElement(front + ([|data|] + (data + rest))) ==
            Got(Item(tag, TypeOctetString, 0x10, false, 0, [], data, []), rest)
  {
    Opened(front, 0x10, tag, [|data|] + (data + rest));
    ShortOctetsBody(EMPTY.(tag := tag, matterType := 0x10), data, rest);
  }

  lemma LongOctetsDecode(front: seq<byte>, tag: byte, size: seq<byte>, data: seq<byte>, rest: seq<byte>)
    requires Opens(front, 0x11, tag) && |size| == 2 && FromLittleEndian(size) == |data|
    ensures DecodeElement(front + (size + (data + rest))) ==
            Got(Item(tag, TypeOctetString, 0x11, false, 0, [], data, []), rest)
  {
    Opened(front, 0x11, tag, size + (data + rest));
    LongOctetsBody(EMPTY.(tag := tag, matterType := 0x11), size, data, rest);
  }

  /** Structures, arrays and lists hold the items up to the matching end byte. */
  lemma ContainerDecodes(front: seq<byte>, tp: byte, tag: byte, body: seq<byte>, children: seq<Item>, rest: seq<byte>)
    requires Opens(front, tp, tag) && tp in {0x15, 0x16, 0x17}
    requires DecodeItems(body) == Got(children, rest)
    ensures DecodeElement(front + body) == Got(Item(tag, TypeList, tp, false, 0, [], [], children), rest)
  {
    Opened(front, tp, tag, body);
  }

  /** All other types make the decoder panic. */
  lemma OtherTypesPanic(front: seq<byte>, tp: byte, tag: byte, body: seq<byte>)
    requires Opens(front, tp, tag)
    requires tp in {0xa, 0xb, 0xd, 0xe, 0xf, 0x12, 0x13} || 0x19 <= tp
    ensures DecodeElement(front + body) == Panicked
  {
    Opened(front, tp, tag, body);
  }

  // ----- input that ends too early

  /** A missing tag, a missing byte, or a missing one-byte length make it panic. */
  lemma MissingBytePanics(front: seq<byte>, tp: byte, tag: byte)
    requires Opens(front, tp, tag) && tp != 0x18
    ensures tp < 0x20 && DecodeElement([0x20 + tp]) == Panicked
    ensures tp in {0, 4, 0xc, 0x10} ==> DecodeElement(front) == Panicked
  {
    Opened(front, tp, tag, []);
    assert front + [] == front;
  }

  /** An integer that is cut off is zero, and uses up the input. */
  lemma ShortInteger(front: seq<byte>, tp: byte, tag: byte, body: seq<byte>)
    requires Opens(front, tp, tag)
    requires (tp in {1, 5} && |body| < 2) || (tp in {2, 6} && |body| < 4) || (tp in {3, 7} && |body| < 8)
    ensures DecodeElement(front + body) == Got(Item(tag, TypeInt, tp, false, 0, [], [], []), [])
  {
    Opened(front, tp, tag, body);
  }

  /** A string that is cut off is filled up with zeros, and uses up the input. */
  lemma ShortString(front: seq<byte>, tp: byte, tag: byte, size: byte, data: seq<byte>)
    requires Opens(front, tp, tag) && tp in {0xc, 0x10} && |data| < size
    ensures var filled := data + Zeros(size - |data|);
            DecodeElement(front + ([size] + data)) ==
            Got(if tp == 0xc then Item(tag, TypeUtf8String, tp, false, 0, filled, filled, [])
                else Item(tag, TypeOctetString, tp, false, 0, [], filled, []), [])
  {
    Opened(front, tp, tag, [size] + data);
    assert ([size] + data)[1..] == data;
  }

  lemma ShortLongString(front: seq<byte>, tag: byte, size: seq<byte>, data: seq<byte>)
    requires Opens(front, 0x11, tag) && |size| == 2 && |data| < FromLittleEndian(size)
    ensures DecodeElement(front + (size + data)) ==
            Got(Item(tag, TypeOctetString, 0x11, false, 0, [], data + Zeros(FromLittleEndian(size) - |data|), []), [])
  {
    Opened(front, 0x11, tag, size + data);
    ReadComplete(size, data, 0);
  }

  // ----- items

  /** Items follow one another up to an end byte, whatever its upper bits, or up to the end of the input. */
  lemma ItemsDecode(s: seq<byte>)
    ensures s == [] ==> DecodeItems(s) == Got([], [])
    ensures s != [] && s[0] % 0x20 == 0x18 ==> DecodeItems(s) == Got([], s[1..])
    ensures s != [] && s[0] % 0x20 != 0x18 ==>
              DecodeItems(s) == match DecodeElement(s)
                                case Panicked => Panicked
                                case Got(item, rest) => Prepend([item], DecodeItems(rest))
  {
  }

  /** Of the items of the input the first is returned; all have to be readable, and there has to be one. */
  lemma FirstDecodes(s: seq<byte>)
    ensures var items := DecodeItems(s);
            DecodeFirst(s) ==
            if items.Got? && |items.value| > 0 then Got(items.value[0], []) else Panicked
  {
  }

  // ----- looking up

  /** The first child with the tag. */
  ghost predicate IsFirst(items: seq<Item>, tag: int, i: nat) {
    && i < |items| && items[i].tag == tag
    && (forall k: nat :: k < i ==> items[k].tag != tag)
  }

  /** One step of a lookup goes to the first child with the tag, in a container only. */
  lemma LookupIff(item: Item, tag: int, path: seq<int>, found: Item)
    ensures GetItemRec(item, [tag] + path) == Some(found) <==>
            && item.typ == TypeList
            && exists i: nat :: IsFirst(item.valueList, tag, i) && GetItemRec(item.valueList[i], path) == Some(found)
  {
    assert ([tag] + path)[1..] == path;
    var first := FindTag(item.valueList, tag);
    if first.Some? {
      assert IsFirst(item.valueList, tag, first.value);
    }
    forall i: nat | IsFirst(item.valueList, tag, i) ensures first == Some(i) {
    }
  }

  /** At the end of the path is the item itself, whose number or octets are returned; without one there is no number,
      and no octets. */
  lemma LookupEnds(item: Item, path: seq<int>)
    ensures GetItemRec(item, []) == Some(item)
    ensures var found := GetItemRec(item, path);
            && GetIntRec(item, path) == (if found.Some? then Some(found.value.valueInt) else None)
            && GetOctetStringRec(item, path) == (if found.Some? then found.value.valueOctetString else [])
  {
  }
}
