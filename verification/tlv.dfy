/** Decoding Matter TLV, and looking things up in what was decoded. */
module Tlv {
  import opened Bytes
  import opened Options
  import opened Buffers

  datatype ElementType = TypeNone | TypeInt | TypeBool | TypeUtf8String | TypeOctetString | TypeList | TypeNull

  datatype Item = Item(
    tag: byte,
    typ: ElementType,
    matterType: byte,
    valueBool: bool,
    valueInt: uint64,
    valueString: seq<byte>,
    valueOctetString: seq<byte>,
    valueList: seq<Item>)

  /** The zero value of a TlvItem. */
  const EMPTY: Item := Item(0, TypeNone, 0, false, 0, [], [], [])

  const END_OF_CONTAINER: byte := 0x18

  /** A value read from the front of a byte string and what follows it, or a panic. */
  datatype Decoded<+T> = Got(value: T, rest: seq<byte>) | Panicked

  predicate IsEnd(s: seq<byte>) {
    |s| > 0 && s[0] % 32 == END_OF_CONTAINER
  }

  predicate IsContainer(tp: byte) {
    0x15 <= tp <= 0x17
  }

  // ----- the parts of an element

  function ReadTag(tagctrl: nat, s: seq<byte>): Decoded<byte> {
    if tagctrl != 1 then Got(0, s)
    else if |s| == 0 then Panicked
    else Got(s[0], s[1..])
  }

  /** The size of the integers that are read by a library call, for types 1 to 3 and 5 to 7. */
  function IntegerSize(tp: byte): nat {
    match tp
    case 1 | 5 => 2
    case 2 | 6 => 4
    case _ => 8
  }

  function OctetsOfSize(item: Item, size: nat, s: seq<byte>): Decoded<Item> {
    Got(item.(typ := TypeOctetString, valueOctetString := Filled(s, size)), Remaining(s, size))
  }

  /** The value of an element that is not a container. The signed types 1 to 3 skip their bytes and
      leave the value zero, because their integer is passed to the library by value. */
  function DecodeScalar(item: Item, s: seq<byte>): Decoded<Item> {
    var tp := item.matterType;
    match tp
    case 0 | 4 => if |s| == 0 then Panicked else Got(item.(typ := TypeInt, valueInt := s[0]), s[1..])
    case 1 | 2 | 3 => Got(item.(typ := TypeInt), Remaining(s, IntegerSize(tp)))
    case 5 | 6 | 7 =>
      var size := IntegerSize(tp);
      IntegerRange(s, size, 0);
      Got(item.(typ := TypeInt, valueInt := Integer(s, size, 0)), Remaining(s, size))
    case 8 | 9 => Got(item.(typ := TypeBool, valueBool := tp == 9), s)
    case 0xc =>
      if |s| == 0 then Panicked
      else var octets := Filled(s[1..], s[0]);
           Got(item.(typ := TypeUtf8String, valueOctetString := octets, valueString := octets), Remaining(s[1..], s[0]))
    case 0x10 => if |s| == 0 then Panicked else OctetsOfSize(item, s[0], s[1..])
    case 0x11 => OctetsOfSize(item, Integer(s, 2, 0), Remaining(s, 2))
    case 0x14 => Got(item.(typ := TypeNull), s)
    case _ => Panicked
  }

  // ----- elements and lists of elements

  /** One element, starting at its control byte. */
  function DecodeElement(s: seq<byte>): (d: Decoded<Item>)
    requires |s| > 0
    ensures d.Got? ==> |d.rest| < |s|
    decreases |s|, 0
  {
    match ReadTag(s[0] / 32, s[1..])
    case Panicked => Panicked
    case Got(tag, body) => DecodeBody(s[0] % 32, tag, body)
  }

  function DecodeBody(tp: byte, tag: byte, body: seq<byte>): (d: Decoded<Item>)
    ensures d.Got? ==> |d.rest| <= |body|
    decreases |body|, 2
  {
    var item := EMPTY.(tag := tag, matterType := tp);
    if IsContainer(tp) then
      match DecodeItems(body)
      case Panicked => Panicked
      case Got(children, rest) => Got(item.(typ := TypeList, valueList := children), rest)
    else DecodeScalar(item, body)
  }

  /** The elements up to a matching end byte, which is consumed, or up to the end of the input. */
  function DecodeItems(s: seq<byte>): (d: Decoded<seq<Item>>)
    ensures d.Got? ==> |d.rest| <= |s|
    ensures d.Got? && s != [] ==> |d.rest| < |s|
    decreases |s|, 1
  {
    if |s| == 0 then Got([], [])
    else if IsEnd(s) then Got([], s[1..])
    else
      match DecodeElement(s)
      case Panicked => Panicked
      case Got(item, rest) => Prepend([item], DecodeItems(rest))
  }

  function Prepend(items: seq<Item>, d: Decoded<seq<Item>>): Decoded<seq<Item>> {
    match d
    case Panicked => Panicked
    case Got(more, rest) => Got(items + more, rest)
  }

  /** The first element of the input; an input without one makes the code index an empty list. */
  function DecodeFirst(s: seq<byte>): Decoded<Item> {
    match DecodeItems(s)
    case Panicked => Panicked
    case Got(items, rest) => if |items| == 0 then Panicked else Got(items[0], [])
  }

  // ----- suffixes

  ghost predicate IsSuffix(rest: seq<byte>, s: seq<byte>) {
    |rest| <= |s| && s[|s| - |rest|..] == rest
  }

  /** The bytes of s in front of its suffix. */
  function Before(s: seq<byte>, rest: seq<byte>): (p: seq<byte>)
    requires |rest| <= |s|
    ensures |p| == |s| - |rest|
  {
    s[..|s| - |rest|]
  }

  lemma SuffixChain(s: seq<byte>, mid: seq<byte>, rest: seq<byte>, t: seq<byte>)
    requires IsSuffix(mid, s) && IsSuffix(rest, mid)
    ensures IsSuffix(rest, s)
    ensures Before(s, rest) + t == Before(s, mid) + (Before(mid, rest) + t)
  {
    assert s == Before(s, mid) + mid;
    assert mid == Before(mid, rest) + rest;
    assert s == Before(s, mid) + Before(mid, rest) + rest;
    assert Before(s, rest) == Before(s, mid) + Before(mid, rest);
  }

  // ----- decoding is local: the bytes after the matching end byte do not matter and are not touched

  lemma TagLocal(tagctrl: nat, s: seq<byte>, t: seq<byte>)
    requires ReadTag(tagctrl, s).Got?
    ensures var d := ReadTag(tagctrl, s);
            IsSuffix(d.rest, s) && ReadTag(tagctrl, Before(s, d.rest) + t) == Got(d.value, t)
  {
  }

  /** s starts with a prefix that reads as v, whatever follows; rest is what follows it in s. */
  ghost predicate ReadsPrefix(item: Item, s: seq<byte>, v: Item, rest: seq<byte>, t: seq<byte>) {
    IsSuffix(rest, s) && DecodeScalar(item, Before(s, rest) + t) == Got(v, t)
  }

  lemma IntegerLocal(item: Item, s: seq<byte>, t: seq<byte>)
    requires item.matterType in {1, 2, 3, 5, 6, 7}
    requires DecodeScalar(item, s).Got? && DecodeScalar(item, s).rest != []
    ensures var d := DecodeScalar(item, s); ReadsPrefix(item, s, d.value, d.rest, t)
  {
    ReadLocal(s, t, IntegerSize(item.matterType), 0);
  }

  lemma ShortOctetsLocal(item: Item, s: seq<byte>, t: seq<byte>)
    requires item.matterType in {0xc, 0x10}
    requires DecodeScalar(item, s).Got? && DecodeScalar(item, s).rest != []
    ensures var d := DecodeScalar(item, s); ReadsPrefix(item, s, d.value, d.rest, t)
  {
    ReadLocal(s[1..], t, s[0], 0);
    assert s[..1 + s[0]] + t == [s[0]] + (s[1..][..s[0]] + t);
  }

  lemma LongOctets(item: Item, head: seq<byte>, body: seq<byte>)
    requires item.matterType == 0x11 && |head| == 2
    ensures DecodeScalar(item, head + body) == OctetsOfSize(item, FromLittleEndian(head), body)
  {
    ReadComplete(head, body, 0);
  }

  lemma LongOctetsLocal(item: Item, s: seq<byte>, t: seq<byte>)
    requires item.matterType == 0x11
    requires DecodeScalar(item, s).Got? && DecodeScalar(item, s).rest != []
    ensures var d := DecodeScalar(item, s); ReadsPrefix(item, s, d.value, d.rest, t)
  {
    var head, body := s[..2], s[2..];
    var size := FromLittleEndian(head);
    assert s == head + body;
    LongOctets(item, head, body);
    ReadLocal(body, t, size, 0);
    LongOctets(item, head, body[..size] + t);
    var d := DecodeScalar(item, s);
    assert Before(s, d.rest) + t == head + (body[..size] + t);
  }

  lemma ByteLocal(item: Item, s: seq<byte>, t: seq<byte>)
    requires item.matterType in {0, 4}
    requires DecodeScalar(item, s).Got?
    ensures var d := DecodeScalar(item, s); ReadsPrefix(item, s, d.value, d.rest, t)
  {
    assert s[..1] + t == [s[0]] + t;
  }

  lemma EmptyLocal(item: Item, s: seq<byte>, t: seq<byte>)
    requires item.matterType in {8, 9, 0x14}
    requires DecodeScalar(item, s).Got?
    ensures var d := DecodeScalar(item, s); ReadsPrefix(item, s, d.value, d.rest, t)
  {
    assert s[..0] + t == t;
  }

  lemma ScalarLocal(item: Item, s: seq<byte>, t: seq<byte>)
    requires DecodeScalar(item, s).Got? && DecodeScalar(item, s).rest != []
    ensures var d := DecodeScalar(item, s); ReadsPrefix(item, s, d.value, d.rest, t)
  {
    if item.matterType in {1, 2, 3, 5, 6, 7} {
      IntegerLocal(item, s, t);
    } else if item.matterType in {0xc, 0x10} {
      ShortOctetsLocal(item, s, t);
    } else if item.matterType == 0x11 {
      LongOctetsLocal(item, s, t);
    } else if item.matterType in {0, 4} {
      ByteLocal(item, s, t);
    } else {
      EmptyLocal(item, s, t);
    }
  }

  /** When an element ends before the input does, it is the same element in front of any other bytes. */
  lemma {:induction false} ElementLocal(s: seq<byte>, t: seq<byte>)
    requires |s| > 0
    requires DecodeElement(s).Got? && DecodeElement(s).rest != []
    ensures var d := DecodeElement(s);
            IsSuffix(d.rest, s) && DecodeElement(Before(s, d.rest) + t) == Got(d.value, t)
    decreases |s|, 0
  {
    var d := DecodeElement(s);
    var tp, tagged := s[0] % 32, ReadTag(s[0] / 32, s[1..]);
    BodyLocal(tp, tagged.value, tagged.rest, t);
    var middle := Before(tagged.rest, d.rest) + t;
    TagLocal(s[0] / 32, s[1..], middle);
    HeadOf(s, d.rest, tagged.rest, t);
    var tail := Before(s[1..], tagged.rest) + middle;
    assert ([s[0]] + tail)[1..] == tail;
  }

  /** The control byte, the tag, the rest of the element. */
  lemma HeadOf(s: seq<byte>, rest: seq<byte>, body: seq<byte>, t: seq<byte>)
    requires |s| > 0 && IsSuffix(body, s[1..]) && IsSuffix(rest, body)
    ensures IsSuffix(rest, s)
    ensures Before(s, rest) + t == [s[0]] + (Before(s[1..], body) + (Before(body, rest) + t))
  {
    assert s == [s[0]] + s[1..];
    SuffixChain(s[1..], body, rest, t);
    assert Before(s, rest) == [s[0]] + Before(s[1..], rest);
  }

  lemma {:induction false} BodyLocal(tp: byte, tag: byte, body: seq<byte>, t: seq<byte>)
    requires DecodeBody(tp, tag, body).Got? && DecodeBody(tp, tag, body).rest != []
    ensures var d := DecodeBody(tp, tag, body);
            IsSuffix(d.rest, body) && DecodeBody(tp, tag, Before(body, d.rest) + t) == Got(d.value, t)
    decreases |body|, 2
  {
    if IsContainer(tp) {
      ItemsLocal(body, t);
    } else {
      ScalarLocal(EMPTY.(tag := tag, matterType := tp), body, t);
    }
  }

  /** Inside a container the decoder stops exactly after the matching end byte. */
  lemma {:induction false} ItemsLocal(s: seq<byte>, t: seq<byte>)
    requires DecodeItems(s).Got? && DecodeItems(s).rest != []
    ensures var d := DecodeItems(s);
            IsSuffix(d.rest, s) && DecodeItems(Before(s, d.rest) + t) == Got(d.value, t)
    ensures |DecodeItems(s).rest| < |s| && s[|s| - |DecodeItems(s).rest| - 1] % 32 == END_OF_CONTAINER
    decreases |s|, 1
  {
    var d := DecodeItems(s);
    if IsEnd(s) {
      assert Before(s, s[1..]) + t == [s[0]] + t;
    } else {
      var rest := DecodeElement(s).rest;
      ItemsLocal(rest, t);
      var middle := Before(rest, d.rest) + t;
      ElementLocal(s, middle);
      SuffixChain(s, rest, d.rest, t);
      assert rest[|rest| - |d.rest| - 1] == s[|s| - |d.rest| - 1];
      ItemsStep(Before(s, rest), middle);
    }
  }

  /** Decoding a list whose first element is known. */
  lemma ItemsStep(p: seq<byte>, t: seq<byte>)
    requires |p| > 0 && !IsEnd(p) && DecodeElement(p + t).Got? && DecodeElement(p + t).rest == t
    ensures DecodeItems(p + t) == Prepend([DecodeElement(p + t).value], DecodeItems(t))
  {
    assert (p + t)[0] == p[0];
  }

  // ----- the decoder builds no more items than it consumes bytes

  function Size(item: Item): (n: nat)
    ensures n >= 1
  {
    1 + TotalSize(item.valueList)
  }

  function TotalSize(items: seq<Item>): nat {
    if |items| == 0 then 0 else Size(items[0]) + TotalSize(items[1..])
  }

  function Depth(item: Item): nat {
    1 + MaxDepth(item.valueList)
  }

  function MaxDepth(items: seq<Item>): nat {
    if |items| == 0 then 0
    else
      var d, e := Depth(items[0]), MaxDepth(items[1..]);
      if d >= e then d else e
  }

  lemma {:induction false} DepthBound(item: Item)
    ensures Depth(item) <= Size(item)
    decreases item, 1
  {
    MaxDepthBound(item.valueList);
  }

  lemma {:induction false} MaxDepthBound(items: seq<Item>)
    ensures MaxDepth(items) <= TotalSize(items)
    decreases items, 0
  {
    if |items| > 0 {
      DepthBound(items[0]);
      MaxDepthBound(items[1..]);
    }
  }

  lemma {:induction false} ElementSize(s: seq<byte>)
    requires |s| > 0 && DecodeElement(s).Got?
    ensures Size(DecodeElement(s).value) + |DecodeElement(s).rest| <= |s|
    decreases |s|, 0
  {
    var tp, tagged := s[0] % 32, ReadTag(s[0] / 32, s[1..]);
    if IsContainer(tp) {
      ItemsSize(tagged.rest);
    } else {
      ScalarHasNoChildren(EMPTY.(tag := tagged.value, matterType := tp), tagged.rest);
    }
  }

  lemma ScalarHasNoChildren(item: Item, s: seq<byte>)
    requires DecodeScalar(item, s).Got?
    ensures DecodeScalar(item, s).value.valueList == item.valueList
    ensures |DecodeScalar(item, s).rest| <= |s|
  {
  }

  /** The items of the whole tree, and so its depth, are at most the bytes consumed. */
  lemma {:induction false} ItemsSize(s: seq<byte>)
    requires DecodeItems(s).Got?
    ensures MaxDepth(DecodeItems(s).value) <= TotalSize(DecodeItems(s).value)
    ensures TotalSize(DecodeItems(s).value) + |DecodeItems(s).rest| <= |s|
    decreases |s|, 1
  {
    var d := DecodeItems(s);
    MaxDepthBound(d.value);
    if |s| > 0 && !IsEnd(s) {
      var first := DecodeElement(s);
      ElementSize(s);
      ItemsSize(first.rest);
      assert d.value[0] == first.value && d.value[1..] == DecodeItems(first.rest).value;
    }
  }

  // ----- looking items up

  /** The first item with the tag, if any. */
  function FindTag(items: seq<Item>, tag: int): (r: Option<nat>)
    ensures r.None? <==> forall i :: 0 <= i < |items| ==> items[i].tag != tag
    ensures r.Some? ==> r.value < |items| && items[r.value].tag == tag
    ensures r.Some? ==> forall i :: 0 <= i < r.value ==> items[i].tag != tag
  {
    if |items| == 0 then None
    else if items[0].tag == tag then Some(0)
    else match FindTag(items[1..], tag)
         case None => None
         case Some(i) => Some(i + 1)
  }

  function GetItemWithTag(item: Item, tag: int): Option<Item> {
    match FindTag(item.valueList, tag)
    case None => None
    case Some(i) => Some(item.valueList[i])
  }

  /** Follows a path of tags downwards, taking the first match at each level and never backing up. */
  function GetItemRec(item: Item, path: seq<int>): Option<Item>
    decreases |path|
  {
    if |path| == 0 then Some(item)
    else if item.typ != TypeList then None
    else match GetItemWithTag(item, path[0])
         case None => None
         case Some(child) => GetItemRec(child, path[1..])
  }

  function GetOctetStringRec(item: Item, path: seq<int>): seq<byte> {
    match GetItemRec(item, path)
    case None => []
    case Some(found) => found.valueOctetString
  }

  function GetIntRec(item: Item, path: seq<int>): Option<uint64> {
    match GetItemRec(item, path)
    case None => None
    case Some(found) => Some(found.valueInt)
  }

  /** A lookup can be split anywhere along its path. */
  lemma {:induction false} GetItemRecConcat(item: Item, p: seq<int>, q: seq<int>)
    ensures GetItemRec(item, p + q) ==
            match GetItemRec(item, p) case None => None case Some(found) => GetItemRec(found, q)
    decreases |p|
  {
    if |p| == 0 {
      assert p + q == q;
    } else if item.typ == TypeList {
      var child := GetItemWithTag(item, p[0]);
      assert (p + q)[1..] == p[1..] + q;
      if child.Some? {
        GetItemRecConcat(child.value, p[1..], q);
      }
    }
  }
}
