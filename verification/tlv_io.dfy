/** The TLV writer and reader as they run: an append-only buffer, and a loop that recurses into containers. */
module TlvIO {
  import opened Bytes
  import opened Options
  import opened Buffers
  import opened Tlv
  import opened TlvCodec

  // ----- the writer

  class TLVBuffer {
    var data: seq<byte>

    constructor ()
      ensures data == []
    {
      data := [];
    }

    method Append(bytes: seq<byte>)
      modifies this
      ensures data == old(data) + bytes
    {
      data := data + bytes;
    }

    method WriteRaw(raw: seq<byte>)
      modifies this
      ensures data == old(data) + raw
    {
      Append(raw);
    }

    method WriteUInt(tag: byte, typ: int, val: uint64)
      modifies this
      ensures data == old(data) + EncodeAnyUInt(tag, typ, val)
    {
      Append([UIntControl(typ)]);
      Append([tag]);
      match typ {
        case 4 => Append(LittleEndian(val, 1));
        case 5 => Append(LittleEndian(val, 2));
        case 6 => Append(LittleEndian(val, 4));
        case 7 => Append(LittleEndian(val, 8));
        case _ =>
      }
    }

    method WriteUInt8(tag: byte, val: byte)
      modifies this
      ensures data == old(data) + EncodeUInt(tag, 4, val)
    {
      Append([0x24]);
      Append([tag]);
      Append([val]);
      assert LittleEndian(val, 1) == [val] + LittleEndian(0, 0);
    }

    method WriteUInt16(tag: byte, val: uint16)
      modifies this
      ensures data == old(data) + EncodeUInt(tag, 5, val)
    {
      Append([0x25]);
      Append([tag]);
      Append(LittleEndian(val, 2));
    }

    method WriteUInt32(tag: byte, val: uint32)
      modifies this
      ensures data == old(data) + EncodeUInt(tag, 6, val)
    {
      Append([0x26]);
      Append([tag]);
      Append(LittleEndian(val, 4));
    }

    method WriteUInt64(tag: byte, val: uint64)
      modifies this
      ensures data == old(data) + EncodeUInt(tag, 7, val)
    {
      Append([0x27]);
      Append([tag]);
      Append(LittleEndian(val, 8));
    }

    method WriteOctetString(tag: byte, octets: seq<byte>)
      modifies this
      ensures data == old(data) + EncodeOctets(tag, octets)
    {
      WriteOctetsHead(tag, |octets|);
      Append(octets);
    }

    method WriteOctetsHead(tag: byte, size: nat)
      modifies this
      ensures data == old(data) + OctetsHead(tag, size)
    {
      if size > 0xff {
        Append([0x31]);
        Append([tag]);
        Append(LittleEndian(size, 2));
      } else {
        Append([0x30]);
        Append([tag]);
        Append([size]);
      }
    }

    method WriteBool(tag: byte, val: bool)
      modifies this
      ensures data == old(data) + EncodeBool(tag, val)
    {
      Append([if val then 0x29 else 0x28]);
      Append([tag]);
    }

    method WriteAnonStruct()
      modifies this
      ensures data == old(data) + EncodeHead(AnonStruct)
    {
      Append([0x15]);
    }

    method WriteAnonList()
      modifies this
      ensures data == old(data) + EncodeHead(AnonList)
    {
      Append([0x17]);
    }

    method WriteStruct(tag: byte)
      modifies this
      ensures data == old(data) + EncodeHead(Struct(tag))
    {
      Append([0x35]);
      Append([tag]);
    }

    method WriteArray(tag: byte)
      modifies this
      ensures data == old(data) + EncodeHead(Array(tag))
    {
      Append([0x36]);
      Append([tag]);
    }

    method WriteList(tag: byte)
      modifies this
      ensures data == old(data) + EncodeHead(List(tag))
    {
      Append([0x37]);
      Append([tag]);
    }

    method WriteStructEnd()
      modifies this
      ensures data == old(data) + [END_OF_CONTAINER]
    {
      Append([0x18]);
    }
  }

  // ----- the reader; None is a panic

  method ReadTagByte(tagctrl: nat, buf: Buffer) returns (r: Option<byte>)
    modifies buf
    ensures match ReadTag(tagctrl, old(buf.unread))
            case Panicked => r == None
            case Got(tag, rest) => r == Some(tag) && buf.unread == rest
  {
    if tagctrl != 1 {
      return Some(0);
    }
    var ok, b := buf.ReadByte();
    return if ok then Some(b) else None;
  }

  /** The octets of a string whose size has just been read. */
  method ReadOctets(item: Item, size: nat, buf: Buffer) returns (r: Item)
    modifies buf
    ensures Got(r, buf.unread) == OctetsOfSize(item, size, old(buf.unread))
  {
    var octets := buf.Read(size);
    r := item.(typ := TypeOctetString, valueOctetString := octets);
  }

  method ReadScalar(item: Item, buf: Buffer) returns (r: Option<Item>)
    modifies buf
    ensures match DecodeScalar(item, old(buf.unread))
            case Panicked => r == None
            case Got(v, rest) => r == Some(v) && buf.unread == rest
  {
    var tp := item.matterType;
    match tp {
      case 0 | 4 =>
        var ok, b := buf.ReadByte();
        return if ok then Some(item.(typ := TypeInt, valueInt := b)) else None;
      case 1 | 2 | 3 =>
        var ignored := buf.ReadLittleEndian(IntegerSize(tp), 0);
        return Some(item.(typ := TypeInt));
      case 5 | 6 | 7 =>
        IntegerRange(buf.unread, IntegerSize(tp), 0);
        var n := buf.ReadLittleEndian(IntegerSize(tp), 0);
        return Some(item.(typ := TypeInt, valueInt := n));
      case 8 =>
        return Some(item.(typ := TypeBool, valueBool := false));
      case 9 =>
        return Some(item.(typ := TypeBool, valueBool := true));
      case 0xc =>
        var ok, size := buf.ReadByte();
        if !ok {
          return None;
        }
        var octets := buf.Read(size);
        return Some(item.(typ := TypeUtf8String, valueOctetString := octets, valueString := octets));
      case 0x10 =>
        var ok, size := buf.ReadByte();
        if !ok {
          return None;
        }
        var v := ReadOctets(item, size, buf);
        return Some(v);
      case 0x11 =>
        var size := buf.ReadLittleEndian(2, 0);
        var v := ReadOctets(item, size, buf);
        return Some(v);
      case 0x14 =>
        return Some(item.(typ := TypeNull));
      case _ =>
        return None;
    }
  }

  /** Reads elements into the container until its end byte or the end of the buffer. */
  method DecodeInto(buf: Buffer, container: Item) returns (r: Option<Item>)
    modifies buf
    ensures match DecodeItems(old(buf.unread))
            case Panicked => r == None
            case Got(items, rest) =>
              r == Some(container.(valueList := container.valueList + items)) && buf.unread == rest
    decreases |buf.unread|, 0
  {
    ghost var input := buf.unread;
    PrependAll([], [], DecodeItems(input));
    var out := container;
    ghost var added := [];
    while |buf.unread| > 0
      invariant |buf.unread| <= |input|
      invariant out == container.(valueList := container.valueList + added)
      invariant DecodeItems(input) == Prepend(added, DecodeItems(buf.unread))
      decreases |buf.unread|
    {
      var ok, fb := buf.ReadByte();
      if fb % 32 == END_OF_CONTAINER {
        assert added + [] == added;
        return Some(out);
      }
      var current := DecodeOne(fb, buf);
      if current.None? {
        return None;
      }
      PrependAll(added, [current.value], DecodeItems(buf.unread));
      out := out.(valueList := out.valueList + [current.value]);
      added := added + [current.value];
    }
    assert added + [] == added;
    return Some(out);
  }

  /** One element, after its control byte. */
  method DecodeOne(fb: byte, buf: Buffer) returns (r: Option<Item>)
    modifies buf
    ensures match DecodeElement([fb] + old(buf.unread))
            case Panicked => r == None
            case Got(v, rest) => r == Some(v) && buf.unread == rest
    decreases |buf.unread|, 1
  {
    ghost var s := [fb] + buf.unread;
    assert s[1..] == buf.unread;
    var tag := ReadTagByte(fb / 32, buf);
    if tag.None? {
      return None;
    }
    var current := EMPTY.(tag := tag.value, matterType := fb % 32);
    if IsContainer(fb % 32) {
      ghost var children := DecodeItems(buf.unread);
      r := DecodeInto(buf, current.(typ := TypeList));
      assert children.Got? ==> [] + children.value == children.value;
    } else {
      r := ReadScalar(current, buf);
    }
  }

  /** Decode: the first element of the input, if there is one. */
  method Decode(input: seq<byte>) returns (r: Option<Item>)
    ensures r == match DecodeFirst(input) case Panicked => None case Got(item, _) => Some(item)
  {
    var buf := new Buffer(input);
    var root := DecodeInto(buf, EMPTY.(typ := TypeList));
    if root.None? || |root.value.valueList| == 0 {
      return None;
    }
    return Some(root.value.valueList[0]);
  }
}
