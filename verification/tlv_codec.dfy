/** What the TLV writer appends, as functions of trees, and the round trip through the decoder. */
module TlvCodec {
  import opened Bytes
  import opened Buffers
  import opened Tlv

  type UIntType = t: int | 4 <= t <= 7 witness 4

  /** The ways in which the writer opens a container; untagged arrays it cannot write. */
  datatype Head = AnonStruct | AnonList | Struct(tag: byte) | Array(tag: byte) | List(tag: byte)

  datatype Tree =
    | UInt(tag: byte, typ: UIntType, val: nat)
    | Bool(tag: byte, b: bool)
    | Octets(tag: byte, data: seq<byte>)
    | Container(head: Head, children: seq<Tree>)

  const MAX_OCTETS: nat := 0xffff

  // ----- the writer's bytes

  function UIntSize(typ: UIntType): nat {
    match typ case 4 => 1 case 5 => 2 case 6 => 4 case _ => 8
  }

  /** The value is truncated to its width. */
  function EncodeUInt(tag: byte, typ: UIntType, val: nat): seq<byte> {
    [0x20 + typ, tag] + LittleEndian(val, UIntSize(typ))
  }

  /** The control byte of an integer of any type that the writer is asked for. */
  function UIntControl(typ: int): byte {
    var low := typ % 0x100;
    if low / 0x20 % 2 == 1 then low else low + 0x20
  }

  /** For a type that is no integer type the writer leaves the value out. */
  function EncodeAnyUInt(tag: byte, typ: int, val: nat): seq<byte> {
    if 4 <= typ <= 7 then EncodeUInt(tag, typ, val) else [UIntControl(typ), tag]
  }

  function EncodeBool(tag: byte, b: bool): seq<byte> {
    [if b then 0x29 else 0x28, tag]
  }

  /** A length above 0xff takes two bytes, and is truncated to them. */
  function OctetsHead(tag: byte, size: nat): seq<byte> {
    if size > 0xff then [0x31, tag] + LittleEndian(size, 2) else [0x30, tag, size]
  }

  function EncodeOctets(tag: byte, data: seq<byte>): seq<byte> {
    OctetsHead(tag, |data|) + data
  }

  function EncodeHead(head: Head): seq<byte> {
    match head
    case AnonStruct => [0x15]
    case AnonList => [0x17]
    case Struct(tag) => [0x35, tag]
    case Array(tag) => [0x36, tag]
    case List(tag) => [0x37, tag]
  }

  function Encode(t: Tree): (s: seq<byte>)
    ensures |s| > 0 && !IsEnd(s)
    decreases t, 1
  {
    match t
    case UInt(tag, typ, val) => EncodeUInt(tag, typ, val)
    case Bool(tag, b) => EncodeBool(tag, b)
    case Octets(tag, data) => EncodeOctets(tag, data)
    case Container(head, children) => EncodeHead(head) + EncodeAll(children) + [END_OF_CONTAINER]
  }

  function EncodeAll(ts: seq<Tree>): seq<byte>
    decreases ts, 0
  {
    if |ts| == 0 then [] else Encode(ts[0]) + EncodeAll(ts[1..])
  }

  // ----- what decoding them should give

  function HeadTag(head: Head): byte {
    match head
    case AnonStruct | AnonList => 0
    case Struct(tag) => tag
    case Array(tag) => tag
    case List(tag) => tag
  }

  function HeadType(head: Head): byte {
    match head
    case AnonStruct | Struct(_) => 0x15
    case Array(_) => 0x16
    case AnonList | List(_) => 0x17
  }

  function IntItem(tag: byte, typ: UIntType, val: nat): Item {
    Pow256Values();
    EMPTY.(tag := tag, typ := TypeInt, matterType := typ, valueInt := val % Pow256(UIntSize(typ)))
  }

  function BoolItem(tag: byte, b: bool): Item {
    EMPTY.(tag := tag, typ := TypeBool, matterType := if b then 9 else 8, valueBool := b)
  }

  function OctetItem(tag: byte, data: seq<byte>): Item {
    EMPTY.(tag := tag, typ := TypeOctetString, matterType := if |data| > 0xff then 0x11 else 0x10,
           valueOctetString := data)
  }

  function ListItem(head: Head, children: seq<Item>): Item {
    EMPTY.(tag := HeadTag(head), typ := TypeList, matterType := HeadType(head), valueList := children)
  }

  /** The tree with untagged containers given tag 0, and integers reduced to their width. */
  function ItemOf(t: Tree): Item
    decreases t, 1
  {
    match t
    case UInt(tag, typ, val) => IntItem(tag, typ, val)
    case Bool(tag, b) => BoolItem(tag, b)
    case Octets(tag, data) => OctetItem(tag, data)
    case Container(head, children) => ListItem(head, ItemsOf(children))
  }

  function ItemsOf(ts: seq<Tree>): (items: seq<Item>)
    ensures |items| == |ts|
    decreases ts, 0
  {
    if |ts| == 0 then [] else [ItemOf(ts[0])] + ItemsOf(ts[1..])
  }

  predicate Representable(t: Tree)
    decreases t, 1
  {
    match t
    case UInt(_, _, _) => true
    case Bool(_, _) => true
    case Octets(_, data) => |data| <= MAX_OCTETS
    case Container(_, children) => AllRepresentable(children)
  }

  predicate AllRepresentable(ts: seq<Tree>)
    decreases ts, 0
  {
    |ts| == 0 || (Representable(ts[0]) && AllRepresentable(ts[1..]))
  }

  // ----- the round trip, element by element

  lemma DecodeTagged(ctrl: byte, tag: byte, body: seq<byte>)
    requires 0x20 <= ctrl < 0x40
    ensures DecodeElement([ctrl, tag] + body) == DecodeBody(ctrl - 0x20, tag, body)
  {
    var s := [ctrl, tag] + body;
    assert s[1..] == [tag] + body;
    assert s[1..][1..] == body;
  }

  lemma UIntRoundTrip(tag: byte, typ: UIntType, val: nat, rest: seq<byte>)
    ensures DecodeElement(EncodeUInt(tag, typ, val) + rest) == Got(IntItem(tag, typ, val), rest)
  {
    var data := LittleEndian(val, UIntSize(typ));
    assert EncodeUInt(tag, typ, val) + rest == [0x20 + typ, tag] + (data + rest);
    DecodeTagged(0x20 + typ, tag, data + rest);
    LittleEndianRead(val, UIntSize(typ));
    if typ == 4 {
      assert data == [val % 256] && (data + rest)[1..] == rest;
      assert Pow256(1) == 256;
    } else {
      ReadComplete(data, rest, 0);
    }
  }

  lemma BoolRoundTrip(tag: byte, b: bool, rest: seq<byte>)
    ensures DecodeElement(EncodeBool(tag, b) + rest) == Got(BoolItem(tag, b), rest)
  {
    DecodeTagged(if b then 0x29 else 0x28, tag, rest);
  }

  lemma ShortOctetsBody(item: Item, data: seq<byte>, rest: seq<byte>)
    requires item.matterType == 0x10 && |data| <= 0xff
    ensures DecodeScalar(item, [|data|] + (data + rest))
            == Got(item.(typ := TypeOctetString, valueOctetString := data), rest)
  {
    assert ([|data|] + (data + rest))[1..] == data + rest;
    ReadComplete(data, rest, 0);
  }

  lemma ShortOctetsRoundTrip(tag: byte, data: seq<byte>, rest: seq<byte>)
    requires |data| <= 0xff
    ensures DecodeElement(EncodeOctets(tag, data) + rest) == Got(OctetItem(tag, data), rest)
  {
    ShortOctetsBody(EMPTY.(tag := tag, matterType := 0x10), data, rest);
    DecodeTagged(0x30, tag, [|data|] + (data + rest));
    ShortOctetsBytes(tag, data, rest);
  }

  lemma ShortOctetsBytes(tag: byte, data: seq<byte>, rest: seq<byte>)
    requires |data| <= 0xff
    ensures EncodeOctets(tag, data) + rest == [0x30, tag] + ([|data|] + (data + rest))
  {
  }

  lemma LongOctetsBody(item: Item, size: seq<byte>, data: seq<byte>, rest: seq<byte>)
    requires item.matterType == 0x11 && |size| == 2 && FromLittleEndian(size) == |data|
    ensures DecodeScalar(item, size + (data + rest))
            == Got(item.(typ := TypeOctetString, valueOctetString := data), rest)
  {
    ReadComplete(size, data + rest, 0);
    ReadComplete(data, rest, 0);
  }

  lemma LongOctetsRoundTrip(tag: byte, data: seq<byte>, rest: seq<byte>)
    requires 0xff < |data| <= MAX_OCTETS
    ensures DecodeElement(EncodeOctets(tag, data) + rest) == Got(OctetItem(tag, data), rest)
  {
    var size := LittleEndian(|data|, 2);
    assert FromLittleEndian(size) == |data| by {
      Pow256Values();
      LittleEndianRoundTrip(|data|, 2);
    }
    LongOctetsBody(EMPTY.(tag := tag, matterType := 0x11), size, data, rest);
    DecodeTagged(0x31, tag, size + (data + rest));
    assert EncodeOctets(tag, data) + rest == [0x31, tag] + (size + (data + rest));
  }

  lemma OctetsRoundTrip(tag: byte, data: seq<byte>, rest: seq<byte>)
    requires |data| <= MAX_OCTETS
    ensures DecodeElement(EncodeOctets(tag, data) + rest) == Got(OctetItem(tag, data), rest)
  {
    if |data| > 0xff {
      LongOctetsRoundTrip(tag, data, rest);
    } else {
      ShortOctetsRoundTrip(tag, data, rest);
    }
  }

  lemma DecodeHead(head: Head, body: seq<byte>)
    ensures DecodeElement(EncodeHead(head) + body) == DecodeBody(HeadType(head), HeadTag(head), body)
  {
    if head.AnonStruct? || head.AnonList? {
      assert (EncodeHead(head) + body)[1..] == body;
    } else {
      DecodeTagged(HeadType(head) + 0x20, HeadTag(head), body);
    }
  }

  /** A container whose body decodes to children and the bytes after it. */
  lemma DecodeContainer(head: Head, body: seq<byte>, children: seq<Item>, rest: seq<byte>)
    requires DecodeItems(body) == Got(children, rest)
    ensures DecodeElement(EncodeHead(head) + body) == Got(ListItem(head, children), rest)
  {
    DecodeHead(head, body);
  }

  lemma EndDecodes(rest: seq<byte>)
    ensures DecodeItems([END_OF_CONTAINER] + rest) == Got([], rest)
  {
    assert ([END_OF_CONTAINER] + rest)[1..] == rest;
  }

  /** The end byte that the writer adds closes the container. */
  lemma DecodeClosed(head: Head, body: seq<byte>, children: seq<Item>, rest: seq<byte>)
    requires DecodeItems(body + ([END_OF_CONTAINER] + rest))
             == Prepend(children, DecodeItems([END_OF_CONTAINER] + rest))
    ensures DecodeElement(EncodeHead(head) + body + [END_OF_CONTAINER] + rest) == Got(ListItem(head, children), rest)
  {
    var tail := [END_OF_CONTAINER] + rest;
    EndDecodes(rest);
    assert children + [] == children;
    DecodeContainer(head, body + tail, children, rest);
    assert EncodeHead(head) + body + [END_OF_CONTAINER] + rest == EncodeHead(head) + (body + tail);
  }

  /** Decoding what the writer wrote gives the tree back and leaves the bytes after it alone. */
  lemma {:induction false} RoundTrip(t: Tree, rest: seq<byte>)
    requires Representable(t)
    ensures DecodeElement(Encode(t) + rest) == Got(ItemOf(t), rest)
    decreases t, 1
  {
    match t {
      case UInt(tag, typ, val) => UIntRoundTrip(tag, typ, val, rest);
      case Bool(tag, b) => BoolRoundTrip(tag, b, rest);
      case Octets(tag, data) => OctetsRoundTrip(tag, data, rest);
      case Container(head, children) =>
        ListRoundTrip(children, [END_OF_CONTAINER] + rest);
        DecodeClosed(head, EncodeAll(children), ItemsOf(children), rest);
    }
  }

  /** Decoding a written list and what follows it is decoding what follows, after the list's items. */
  lemma {:induction false} ListRoundTrip(ts: seq<Tree>, rest: seq<byte>)
    requires AllRepresentable(ts)
    ensures DecodeItems(EncodeAll(ts) + rest) == Prepend(ItemsOf(ts), DecodeItems(rest))
    decreases ts, 0
  {
    if |ts| == 0 {
      assert EncodeAll(ts) + rest == rest;
      PrependAll([], [], DecodeItems(rest));
    } else {
      var tail := EncodeAll(ts[1..]) + rest;
      RoundTrip(ts[0], tail);
      ListRoundTrip(ts[1..], rest);
      ListStep(ts[0], tail, ItemsOf(ts[1..]), DecodeItems(rest));
      EncodeAllCons(ts, rest);
    }
  }

  lemma EncodeAllCons(ts: seq<Tree>, rest: seq<byte>)
    requires |ts| > 0
    ensures EncodeAll(ts) + rest == Encode(ts[0]) + (EncodeAll(ts[1..]) + rest)
  {
  }

  lemma ListStep(t: Tree, tail: seq<byte>, items: seq<Item>, d: Decoded<seq<Item>>)
    requires DecodeElement(Encode(t) + tail) == Got(ItemOf(t), tail)
    requires DecodeItems(tail) == Prepend(items, d)
    ensures DecodeItems(Encode(t) + tail) == Prepend([ItemOf(t)] + items, d)
  {
    ItemsStep(Encode(t), tail);
    PrependAll([ItemOf(t)], items, d);
  }

  lemma PrependAll(a: seq<Item>, b: seq<Item>, d: Decoded<seq<Item>>)
    ensures Prepend(a, Prepend(b, d)) == Prepend(a + b, d)
    ensures Prepend([], d) == d
  {
    if d.Got? {
      assert a + (b + d.value) == a + b + d.value;
      assert [] + d.value == d.value;
    }
  }

  /** The whole of a message: the decoder returns the tree that was written. */
  lemma MessageRoundTrip(t: Tree)
    requires Representable(t)
    ensures DecodeFirst(Encode(t)) == Got(ItemOf(t), [])
  {
    ListRoundTrip([t], []);
    assert EncodeAll([t]) + [] == Encode(t);
  }

  // ----- exactly the trees with octet strings of at most 0xffff bytes survive

  predicate ShortOctets(item: Item)
    decreases item, 1
  {
    |item.valueOctetString| <= MAX_OCTETS && AllShortOctets(item.valueList)
  }

  predicate AllShortOctets(items: seq<Item>)
    decreases items, 0
  {
    |items| == 0 || (ShortOctets(items[0]) && AllShortOctets(items[1..]))
  }

  lemma ScalarShort(item: Item, s: seq<byte>)
    requires DecodeScalar(item, s).Got? && item.valueOctetString == [] && item.valueList == []
    ensures ShortOctets(DecodeScalar(item, s).value)
  {
    if item.matterType == 0x11 && |s| >= 2 {
      LittleEndianBytes(s[..2]);
      Pow256Values();
    }
  }

  /** The decoder never produces an octet string of more than 0xffff bytes. */
  lemma {:induction false} ElementShort(s: seq<byte>)
    requires |s| > 0 && DecodeElement(s).Got?
    ensures ShortOctets(DecodeElement(s).value)
    decreases |s|, 0
  {
    var tp, tagged := s[0] % 32, ReadTag(s[0] / 32, s[1..]);
    if IsContainer(tp) {
      ItemsShort(tagged.rest);
    } else {
      ScalarShort(EMPTY.(tag := tagged.value, matterType := tp), tagged.rest);
    }
  }

  lemma {:induction false} ItemsShort(s: seq<byte>)
    requires DecodeItems(s).Got?
    ensures AllShortOctets(DecodeItems(s).value)
    decreases |s|, 1
  {
    if |s| > 0 && !IsEnd(s) {
      ElementShort(s);
      ItemsShort(DecodeElement(s).rest);
      assert DecodeItems(s).value[1..] == DecodeItems(DecodeElement(s).rest).value;
    }
  }

  lemma {:induction false} ShortIffRepresentable(t: Tree)
    ensures ShortOctets(ItemOf(t)) <==> Representable(t)
    decreases t, 1
  {
    if t.Container? {
      AllShortIffRepresentable(t.children);
    }
  }

  lemma {:induction false} AllShortIffRepresentable(ts: seq<Tree>)
    ensures AllShortOctets(ItemsOf(ts)) <==> AllRepresentable(ts)
    decreases ts, 0
  {
    if |ts| > 0 {
      ShortIffRepresentable(ts[0]);
      AllShortIffRepresentable(ts[1..]);
      assert ItemsOf(ts)[1..] == ItemsOf(ts[1..]);
    }
  }

  /** One byte too many: the length is cut off to zero. */
  lemma LongOctetsLost(tag: byte, rest: seq<byte>)
    ensures var t := Octets(tag, Zeros(0x1_0000)); DecodeElement(Encode(t) + rest) != Got(ItemOf(t), rest)
  {
    RoundTripIff(Octets(tag, Zeros(0x1_0000)), rest);
  }

  /** A tree survives writing and decoding exactly when its octet strings have at most 0xffff bytes. */
  lemma RoundTripIff(t: Tree, rest: seq<byte>)
    ensures DecodeElement(Encode(t) + rest) == Got(ItemOf(t), rest) <==> Representable(t)
  {
    if Representable(t) {
      RoundTrip(t, rest);
    } else if DecodeElement(Encode(t) + rest) == Got(ItemOf(t), rest) {
      ElementShort(Encode(t) + rest);
      ShortIffRepresentable(t);
    }
  }
}
