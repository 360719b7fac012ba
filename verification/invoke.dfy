/** Interaction-model messages: invoke requests with a spliced payload, and invoke responses. */
module Invoke {
  import opened Bytes
  import opened Options
  import opened Buffers
  import opened Tlv
  import opened TlvCodec
  import opened TlvIO
  import opened Messages

  const OPCODE_INVOKE_REQUEST: byte := 8
  const END: seq<byte> := [END_OF_CONTAINER]

  // ----- raw TLV that can be spliced into a container

  /** In front of two end bytes, the decoder stops exactly at the first. */
  predicate Balanced(payload: seq<byte>, items: seq<Item>) {
    DecodeItems(payload + (END + END)) == Got(items, END)
  }

  /** Such a payload can be spliced in front of the end of any container. */
  lemma BalancedSplices(payload: seq<byte>, items: seq<Item>, rest: seq<byte>)
    requires Balanced(payload, items)
    ensures DecodeItems(payload + (END + rest)) == Got(items, rest)
  {
    var s := payload + (END + END);
    ItemsLocal(s, rest);
    assert Before(s, END) == payload + END;
    assert payload + END + rest == payload + (END + rest);
  }

  lemma BalancedIff(payload: seq<byte>, items: seq<Item>)
    ensures Balanced(payload, items) <==>
            forall rest: seq<byte> :: DecodeItems(payload + (END + rest)) == Got(items, rest)
  {
    if Balanced(payload, items) {
      forall rest: seq<byte> ensures DecodeItems(payload + (END + rest)) == Got(items, rest) {
        BalancedSplices(payload, items, rest);
      }
    }
  }

  /** Whatever the writer wrote can be spliced. */
  lemma WrittenIsBalanced(ts: seq<Tree>)
    requires AllRepresentable(ts)
    ensures Balanced(EncodeAll(ts), ItemsOf(ts))
  {
    ListRoundTrip(ts, END + END);
    assert IsEnd(END + END) && (END + END)[1..] == END;
    assert ItemsOf(ts) + [] == ItemsOf(ts);
  }

  // ----- the invoke request

  function CommandPath(endpoint: uint16, cluster: uint32, command: uint32): Tree {
    Container(List(0), [UInt(0, 5, endpoint), UInt(1, 6, cluster), UInt(2, 6, command)])
  }

  /** The fields structure, around the spliced payload. */
  function Fields(payload: seq<byte>): seq<byte> {
    EncodeHead(Struct(1)) + payload + END
  }

  /** The command structure without its end. */
  function Command(endpoint: uint16, cluster: uint32, command: uint32, payload: seq<byte>): seq<byte> {
    EncodeHead(AnonStruct) + (Encode(CommandPath(endpoint, cluster, command)) + Fields(payload))
  }

  /** After the command: its end, the end of the command list, the interaction model revision, the end. */
  function Ends(): seq<byte> {
    END + (END + (EncodeUInt(0xff, 4, 10) + END))
  }

  function Start(timed: bool): seq<byte> {
    EncodeHead(AnonStruct) + EncodeBool(0, false) + EncodeBool(1, timed) + EncodeHead(Array(2))
  }

  function InvokeTlv(endpoint: uint16, cluster: uint32, command: uint32, payload: seq<byte>, timed: bool): seq<byte> {
    Start(timed) + Command(endpoint, cluster, command, payload) + Ends()
  }

  function InvokeHeader(exchange: uint16): ProtocolHeader {
    ProtocolHeader(5, OPCODE_INVOKE_REQUEST, exchange, PROTOCOL_INTERACTION, 0)
  }

  function InvokeRequest(
    endpoint: uint16, cluster: uint32, command: uint32, payload: seq<byte>, timed: bool, exchange: uint16): seq<byte>
  {
    EncodeProtocolHeader(InvokeHeader(exchange)) + InvokeTlv(endpoint, cluster, command, payload, timed)
  }

  /** The first six bytes of an invoke request: opcode 8 of protocol 1, from the initiator. */
  lemma InvokeHeaderBytes(endpoint: uint16, cluster: uint32, command: uint32, payload: seq<byte>, timed: bool,
                          exchange: uint16)
    ensures var s := InvokeRequest(endpoint, cluster, command, payload, timed, exchange);
            && |s| >= 6 && s[0] == 5 && s[1] == 8 && FromLittleEndian(s[2..4]) == exchange && s[4..6] == [1, 0]
            && s[6..] == InvokeTlv(endpoint, cluster, command, payload, timed)
  {
    var s, h := InvokeRequest(endpoint, cluster, command, payload, timed, exchange), InvokeHeader(exchange);
    ProtocolHeaderBytes(h);
    assert s[..6] == EncodeProtocolHeader(h) && s[2..4] == EncodeProtocolHeader(h)[2..4];
    assert s[4..6] == LittleEndian(1, 2) == [1] + LittleEndian(0, 1);
    assert LittleEndian(0, 1) == [0] + LittleEndian(0, 0);
  }

  /** The item that the request decodes to. */
  function CommandItem(endpoint: uint16, cluster: uint32, command: uint32, fields: seq<Item>): Item {
    ListItem(AnonStruct, [ItemOf(CommandPath(endpoint, cluster, command)), ListItem(Struct(1), fields)])
  }

  function RequestItem(endpoint: uint16, cluster: uint32, command: uint32, fields: seq<Item>, timed: bool): Item {
    ListItem(AnonStruct, [
      BoolItem(0, false),
      BoolItem(1, timed),
      ListItem(Array(2), [CommandItem(endpoint, cluster, command, fields)]),
      IntItem(0xff, 4, 10)])
  }

  // ----- decoding the request

  /** Decoding a list whose first element, and the list after it, are known. */
  lemma Cons(p: seq<byte>, item: Item, tail: seq<byte>, items: seq<Item>, all: seq<Item>, rest: seq<byte>)
    requires |p| > 0 && !IsEnd(p) && all == [item] + items
    requires DecodeElement(p + tail) == Got(item, tail)
    requires DecodeItems(tail) == Got(items, rest)
    ensures DecodeItems(p + tail) == Got(all, rest)
  {
    ItemsStep(p, tail);
  }

  lemma AtEnd(rest: seq<byte>)
    ensures DecodeItems(END + rest) == Got([], rest)
  {
    assert (END + rest)[1..] == rest;
  }

  /** A list of one element. */
  lemma Single(p: seq<byte>, item: Item, rest: seq<byte>)
    requires |p| > 0 && !IsEnd(p)
    requires DecodeElement(p + (END + rest)) == Got(item, END + rest)
    ensures DecodeItems(p + (END + rest)) == Got([item], rest)
  {
    AtEnd(rest);
    Cons(p, item, END + rest, [], [item], rest);
  }

  /** The fields structure is decoded to the items of the payload that was spliced into it. */
  lemma FieldsDecode(payload: seq<byte>, fields: seq<Item>, rest: seq<byte>)
    requires Balanced(payload, fields)
    ensures DecodeElement(Fields(payload) + rest) == Got(ListItem(Struct(1), fields), rest)
  {
    BalancedSplices(payload, fields, rest);
    DecodeContainer(Struct(1), payload + (END + rest), fields, rest);
    assert Fields(payload) + rest == EncodeHead(Struct(1)) + (payload + (END + rest));
  }

  lemma PathRepresentable(endpoint: uint16, cluster: uint32, command: uint32)
    ensures Representable(CommandPath(endpoint, cluster, command))
  {
    var ts := [UInt(0, 5, endpoint), UInt(1, 6, cluster), UInt(2, 6, command)];
    assert ts[1..][1..] == [ts[2]];
    assert AllRepresentable([ts[2]]) by { assert AllRepresentable([]); }
    assert AllRepresentable(ts[1..]);
  }

  /** The command structure: the path and the fields. */
  lemma CommandDecode(endpoint: uint16, cluster: uint32, command: uint32, payload: seq<byte>, fields: seq<Item>,
                      rest: seq<byte>)
    requires Balanced(payload, fields)
    ensures DecodeElement(Command(endpoint, cluster, command, payload) + (END + rest))
         == Got(CommandItem(endpoint, cluster, command, fields), rest)
  {
    var path := CommandPath(endpoint, cluster, command);
    var tail := Fields(payload) + (END + rest);
    FieldsDecode(payload, fields, END + rest);
    Single(Fields(payload), ListItem(Struct(1), fields), rest);
    PathRepresentable(endpoint, cluster, command);
    RoundTrip(path, tail);
    var children := [ItemOf(path), ListItem(Struct(1), fields)];
    Cons(Encode(path), ItemOf(path), tail, [ListItem(Struct(1), fields)], children, rest);
    DecodeContainer(AnonStruct, Encode(path) + tail, children, rest);
    assert Command(endpoint, cluster, command, payload) + (END + rest)
           == EncodeHead(AnonStruct) + (Encode(path) + tail);
  }

  /** The array with the one command. */
  lemma CommandsDecode(endpoint: uint16, cluster: uint32, command: uint32, payload: seq<byte>, fields: seq<Item>,
                       rest: seq<byte>)
    requires Balanced(payload, fields)
    ensures DecodeElement(EncodeHead(Array(2)) + (Command(endpoint, cluster, command, payload) + (END + (END + rest))))
         == Got(ListItem(Array(2), [CommandItem(endpoint, cluster, command, fields)]), rest)
  {
    var item, bytes := CommandItem(endpoint, cluster, command, fields), Command(endpoint, cluster, command, payload);
    CommandDecode(endpoint, cluster, command, payload, fields, END + rest);
    assert bytes + END + (END + rest) == bytes + (END + (END + rest));
    Single(bytes + END, item, rest);
    DecodeContainer(Array(2), bytes + (END + (END + rest)), [item], rest);
  }

  /** The bytes are an element in front of these others. */
  ghost predicate IsElement(p: seq<byte>, item: Item, rest: seq<byte>) {
    |p| > 0 && !IsEnd(p) && DecodeElement(p + rest) == Got(item, rest)
  }

  lemma BoolElement(tag: byte, b: bool, rest: seq<byte>)
    ensures IsElement(EncodeBool(tag, b), BoolItem(tag, b), rest)
  {
    BoolRoundTrip(tag, b, rest);
  }

  lemma UIntElement(tag: byte, typ: UIntType, val: nat, rest: seq<byte>)
    ensures IsElement(EncodeUInt(tag, typ, val), IntItem(tag, typ, val), rest)
  {
    UIntRoundTrip(tag, typ, val, rest);
  }

  /** A structure of four elements. */
  lemma FourElements(p0: seq<byte>, p1: seq<byte>, p2: seq<byte>, p3: seq<byte>, items: seq<Item>)
    requires |items| == 4
    requires IsElement(p0, items[0], p1 + (p2 + (p3 + END))) && IsElement(p1, items[1], p2 + (p3 + END))
    requires IsElement(p2, items[2], p3 + END) && IsElement(p3, items[3], END)
    ensures DecodeFirst(EncodeHead(AnonStruct) + (p0 + (p1 + (p2 + (p3 + END)))))
            == Got(ListItem(AnonStruct, items), [])
  {
    assert END + [] == END;
    assert items[3..] == [items[3]];
    Single(p3, items[3], []);
    Cons(p2, items[2], p3 + END, items[3..], items[2..], []);
    Cons(p1, items[1], p2 + (p3 + END), items[2..], items[1..], []);
    Cons(p0, items[0], p1 + (p2 + (p3 + END)), items[1..], items, []);
    DecodeContainer(AnonStruct, p0 + (p1 + (p2 + (p3 + END))), items, []);
    OnlyElement(EncodeHead(AnonStruct) + (p0 + (p1 + (p2 + (p3 + END)))), ListItem(AnonStruct, items));
  }

  /** The array with the one command, and its end. */
  function Commands(endpoint: uint16, cluster: uint32, command: uint32, payload: seq<byte>): seq<byte> {
    EncodeHead(Array(2)) + Command(endpoint, cluster, command, payload) + END + END
  }

  lemma RequestParts(endpoint: uint16, cluster: uint32, command: uint32, payload: seq<byte>, timed: bool,
                     last: seq<byte>)
    requires last == EncodeUInt(0xff, 4, 10) + END
    ensures InvokeTlv(endpoint, cluster, command, payload, timed) ==
            EncodeHead(AnonStruct)
            + (EncodeBool(0, false) + (EncodeBool(1, timed) + (Commands(endpoint, cluster, command, payload) + last)))
    ensures Commands(endpoint, cluster, command, payload) + last ==
            EncodeHead(Array(2)) + (Command(endpoint, cluster, command, payload) + (END + (END + last)))
  {
    RequestOrder(EncodeHead(AnonStruct), EncodeBool(0, false), EncodeBool(1, timed), EncodeHead(Array(2)),
                 Command(endpoint, cluster, command, payload), END, last);
  }

  lemma RequestOrder(h: seq<byte>, b0: seq<byte>, b1: seq<byte>, list: seq<byte>, command: seq<byte>, end: seq<byte>,
                     last: seq<byte>)
    ensures (h + b0 + b1 + list) + command + (end + (end + last))
            == h + (b0 + (b1 + ((list + command + end + end) + last)))
    ensures (list + command + end + end) + last == list + (command + (end + (end + last)))
  {
  }

  /** The TLV part of a request decodes to the path that was asked for and the payload's own items. */
  lemma RequestDecodes(endpoint: uint16, cluster: uint32, command: uint32, payload: seq<byte>, timed: bool,
                       fields: seq<Item>)
    requires Balanced(payload, fields)
    ensures DecodeFirst(InvokeTlv(endpoint, cluster, command, payload, timed))
         == Got(RequestItem(endpoint, cluster, command, fields, timed), [])
  {
    var b0, b1, revision := EncodeBool(0, false), EncodeBool(1, timed), EncodeUInt(0xff, 4, 10);
    var commands := Commands(endpoint, cluster, command, payload);
    RequestParts(endpoint, cluster, command, payload, timed, revision + END);
    CommandsDecode(endpoint, cluster, command, payload, fields, revision + END);
    BoolElement(0, false, b1 + (commands + (revision + END)));
    BoolElement(1, timed, commands + (revision + END));
    UIntElement(0xff, 4, 10, END);
    FourElements(b0, b1, commands, revision, RequestItem(endpoint, cluster, command, fields, timed).valueList);
  }

  lemma OnlyElement(s: seq<byte>, item: Item)
    requires |s| > 0 && !IsEnd(s) && DecodeElement(s) == Got(item, [])
    ensures DecodeFirst(s) == Got(item, [])
  {
    assert DecodeItems([]) == Got([], []);
  }

  // ----- looking up what was asked for

  /** One step of a lookup, to the first child with the tag. */
  lemma Down(item: Item, i: nat, tag: int, path: seq<int>, found: Option<Item>)
    requires item.typ == TypeList && i < |item.valueList| && item.valueList[i].tag == tag
    requires forall k :: 0 <= k < i ==> item.valueList[k].tag != tag
    requires GetItemRec(item.valueList[i], path) == found
    ensures GetItemRec(item, [tag] + path) == found
  {
    assert FindTag(item.valueList, tag) == Some(i);
    assert ([tag] + path)[1..] == path;
  }

  lemma PathNumbers(endpoint: uint16, cluster: uint32, command: uint32)
    ensures var path := ItemOf(CommandPath(endpoint, cluster, command));
            && path.typ == TypeList && path.tag == 0 && |path.valueList| == 3
            && (forall k :: 0 <= k < 3 ==> path.valueList[k].tag == k)
            && path.valueList[0].valueInt == endpoint
            && path.valueList[1].valueInt == cluster
            && path.valueList[2].valueInt == command
  {
    Pow256Values();
    var ts := [UInt(0, 5, endpoint), UInt(1, 6, cluster), UInt(2, 6, command)];
    assert ts[1..][1..] == [ts[2]];
    assert ItemsOf(ts) == [ItemOf(ts[0])] + ([ItemOf(ts[1])] + ItemsOf(ts[1..][1..]));
    assert ItemsOf([ts[2]]) == [ItemOf(ts[2])] + ItemsOf([]);
  }

  /** Lookups through the command list of a request. */
  lemma CommandLookup(endpoint: uint16, cluster: uint32, command: uint32, fields: seq<Item>, timed: bool,
                      path: seq<int>, found: Option<Item>)
    requires GetItemRec(CommandItem(endpoint, cluster, command, fields), path) == found
    ensures GetItemRec(RequestItem(endpoint, cluster, command, fields, timed), [2, 0] + path) == found
  {
    var request := RequestItem(endpoint, cluster, command, fields, timed);
    Down(request.valueList[2], 0, 0, path, found);
    Down(request, 2, 2, [0] + path, found);
    assert [2, 0] + path == [2] + ([0] + path);
  }

  lemma NumberLookup(endpoint: uint16, cluster: uint32, command: uint32, fields: seq<Item>, timed: bool, k: nat)
    requires k < 3
    ensures GetItemRec(RequestItem(endpoint, cluster, command, fields, timed), [2, 0, 0, k])
         == Some(ItemOf(CommandPath(endpoint, cluster, command)).valueList[k])
  {
    PathNumbers(endpoint, cluster, command);
    var cmd := CommandItem(endpoint, cluster, command, fields);
    var path := cmd.valueList[0];
    Down(path, k, k, [], Some(path.valueList[k]));
    assert [k] + [] == [k];
    Down(cmd, 0, 0, [k], Some(path.valueList[k]));
    CommandLookup(endpoint, cluster, command, fields, timed, [0] + [k], Some(path.valueList[k]));
    assert [2, 0] + ([0] + [k]) == [2, 0, 0, k];
  }

  lemma FieldsLookup(endpoint: uint16, cluster: uint32, command: uint32, fields: seq<Item>, timed: bool)
    ensures GetItemRec(RequestItem(endpoint, cluster, command, fields, timed), [2, 0, 1])
            == Some(ListItem(Struct(1), fields))
  {
    PathNumbers(endpoint, cluster, command);
    var cmd := CommandItem(endpoint, cluster, command, fields);
    Down(cmd, 1, 1, [], Some(cmd.valueList[1]));
    CommandLookup(endpoint, cluster, command, fields, timed, [1] + [], Some(cmd.valueList[1]));
    assert [2, 0] + ([1] + []) == [2, 0, 1];
  }

  /** For every balanced payload the request carries exactly the numbers and the items it was built from. */
  lemma RequestLookups(endpoint: uint16, cluster: uint32, command: uint32, payload: seq<byte>, timed: bool,
                       fields: seq<Item>)
    requires Balanced(payload, fields)
    ensures var d := DecodeFirst(InvokeTlv(endpoint, cluster, command, payload, timed));
            && d.Got?
            && GetIntRec(d.value, [2, 0, 0, 0]) == Some(endpoint)
            && GetIntRec(d.value, [2, 0, 0, 1]) == Some(cluster)
            && GetIntRec(d.value, [2, 0, 0, 2]) == Some(command)
            && GetItemRec(d.value, [2, 0, 1]).Some?
            && GetItemRec(d.value, [2, 0, 1]).value.valueList == fields
  {
    RequestDecodes(endpoint, cluster, command, payload, timed, fields);
    PathNumbers(endpoint, cluster, command);
    NumberLookup(endpoint, cluster, command, fields, timed, 0);
    NumberLookup(endpoint, cluster, command, fields, timed, 1);
    NumberLookup(endpoint, cluster, command, fields, timed, 2);
    FieldsLookup(endpoint, cluster, command, fields, timed);
  }

  /** Beside the command there are the two flags, no suppressed response and whether it is timed, and the revision 10.
      */
  lemma RequestFlags(endpoint: uint16, cluster: uint32, command: uint32, payload: seq<byte>, timed: bool,
                     fields: seq<Item>)
    requires Balanced(payload, fields)
    ensures var d := DecodeFirst(InvokeTlv(endpoint, cluster, command, payload, timed));
            && d.Got? && |d.value.valueList| == 4
            && GetItemRec(d.value, [0]) == Some(Item(0, TypeBool, 8, false, 0, [], [], []))
            && GetItemRec(d.value, [1]) == Some(Item(1, TypeBool, if timed then 9 else 8, timed, 0, [], [], []))
            && GetIntRec(d.value, [0xff]) == Some(10)
  {
    RequestDecodes(endpoint, cluster, command, payload, timed, fields);
    var request := RequestItem(endpoint, cluster, command, fields, timed);
    var items := request.valueList;
    Down(request, 0, 0, [], Some(items[0]));
    Down(request, 1, 1, [], Some(items[1]));
    Down(request, 3, 0xff, [], Some(items[3]));
    assert [0] + [] == [0] && [1] + [] == [1] && [0xff] + [] == [0xff];
    Pow256Values();
  }

  // ----- building the request

  method EncodeIMInvokeRequest(
    endpoint: uint16, cluster: uint32, command: uint32, payload: seq<byte>, timed: bool, exchange: uint16)
    returns (data: seq<byte>)
    ensures data == InvokeRequest(endpoint, cluster, command, payload, timed, exchange)
  {
    var tlv := new TLVBuffer();
    tlv.WriteAnonStruct();
    tlv.WriteBool(0, false);
    tlv.WriteBool(1, timed);
    tlv.WriteArray(2);
    assert tlv.data == Start(timed);
    WriteCommand(tlv, endpoint, cluster, command, payload);
    WriteEnds(tlv);
    assert tlv.data == InvokeTlv(endpoint, cluster, command, payload, timed);
    var buffer := new Buffer([]);
    var prot := new ProtocolMessageHeader(InvokeHeader(exchange));
    prot.Encode(buffer);
    buffer.Write(tlv.data);
    data := buffer.unread;
  }

  method WriteEnds(tlv: TLVBuffer)
    modifies tlv
    ensures tlv.data == old(tlv.data) + Ends()
  {
    tlv.WriteStructEnd();
    tlv.WriteStructEnd();
    tlv.WriteUInt(0xff, 4, 10);
    tlv.WriteStructEnd();
  }

  method WriteCommand(tlv: TLVBuffer, endpoint: uint16, cluster: uint32, command: uint32, payload: seq<byte>)
    modifies tlv
    ensures tlv.data == old(tlv.data) + Command(endpoint, cluster, command, payload)
  {
    tlv.WriteAnonStruct();
    WritePath(tlv, endpoint, cluster, command);
    tlv.WriteStruct(1);
    tlv.WriteRaw(payload);
    tlv.WriteStructEnd();
  }

  method WritePath(tlv: TLVBuffer, endpoint: uint16, cluster: uint32, command: uint32)
    modifies tlv
    ensures tlv.data == old(tlv.data) + Encode(CommandPath(endpoint, cluster, command))
  {
    tlv.WriteList(0);
    tlv.WriteUInt(0, 5, endpoint);
    tlv.WriteUInt(1, 6, cluster);
    tlv.WriteUInt(2, 6, command);
    tlv.WriteStructEnd();
    PathBytes(endpoint, cluster, command);
  }

  lemma PathBytes(endpoint: uint16, cluster: uint32, command: uint32)
    ensures Encode(CommandPath(endpoint, cluster, command)) ==
            EncodeHead(List(0)) + EncodeUInt(0, 5, endpoint)
            + EncodeUInt(1, 6, cluster) + EncodeUInt(2, 6, command) + END
  {
    var ts := [UInt(0, 5, endpoint), UInt(1, 6, cluster), UInt(2, 6, command)];
    assert ts[1..][1..] == [ts[2]];
    assert EncodeAll(ts) == Encode(ts[0]) + (Encode(ts[1]) + EncodeAll(ts[1..][1..]));
    assert EncodeAll([ts[2]]) == Encode(ts[2]) + EncodeAll([]);
  }

  // ----- invoke responses

  /** The int that a uint64 converts to. */
  function ToInt64(n: uint64): int {
    if n <= MAX_INT64 then n else n - TWO_TO_THE_64
  }

  function ParseImInvokeResponse(resp: Item): int {
    match GetItemRec(resp, [1, 0, 1, 1, 0])
    case None => -1
    case Some(common) =>
      if ToInt64(common.valueInt) == 0 then 0
      else
        match GetItemRec(resp, [1, 0, 1, 1, 1])
        case None => -1
        case Some(cluster) => ToInt64(cluster.valueInt)
  }

  const DATA: byte := 0
  const STATUS: byte := 1

  /** The answer to an invoke request: for one command, its path and fields with data or with a status. */
  function AnswerTree(kind: byte, suppress: bool, path: seq<Tree>, fields: seq<Tree>): Tree {
    Container(AnonStruct, [
      Bool(0, suppress),
      Container(Array(1), [Container(AnonStruct, [CommandAnswer(kind, path, fields)])])])
  }

  function CommandAnswer(kind: byte, path: seq<Tree>, fields: seq<Tree>): Tree {
    Container(Struct(kind), [Container(List(0), path), Container(Struct(1), fields)])
  }

  function ResponseTree(suppress: bool, path: seq<Tree>, status: seq<Tree>): Tree {
    AnswerTree(STATUS, suppress, path, status)
  }

  lemma OneItem(t: Tree)
    ensures ItemsOf([t]) == [ItemOf(t)]
    ensures AllRepresentable([t]) <==> Representable(t)
  {
    assert [t][1..] == [];
    assert ItemsOf([]) == [] && AllRepresentable([]);
  }

  lemma TwoItems(t: Tree, u: Tree)
    ensures ItemsOf([t, u]) == [ItemOf(t), ItemOf(u)]
    ensures AllRepresentable([t, u]) <==> Representable(t) && Representable(u)
  {
    assert [t, u][1..] == [u];
    OneItem(u);
  }

  lemma AnswerRepresentable(kind: byte, suppress: bool, path: seq<Tree>, fields: seq<Tree>)
    requires AllRepresentable(path) && AllRepresentable(fields)
    ensures Representable(AnswerTree(kind, suppress, path, fields))
  {
    var answer := CommandAnswer(kind, path, fields);
    TwoItems(Container(List(0), path), Container(Struct(1), fields));
    OneItem(answer);
    OneItem(Container(AnonStruct, [answer]));
    TwoItems(Bool(0, suppress), Container(Array(1), [Container(AnonStruct, [answer])]));
  }

  /** A lookup of a field in an answer is the lookup of its tag among the fields. */
  lemma FieldLookup(kind: byte, suppress: bool, path: seq<Tree>, fields: seq<Tree>, tag: int)
    ensures GetItemRec(ItemOf(AnswerTree(kind, suppress, path, fields)), [1, 0, kind, 1, tag]) ==
            GetItemRec(ItemOf(Container(Struct(1), fields)), [tag])
  {
    var found := GetItemRec(ItemOf(Container(Struct(1), fields)), [tag]);
    FieldOfCommand(kind, path, fields, tag);
    CommandOfAnswer(kind, suppress, path, fields, [1] + [tag], found);
    assert [1, 0, kind] + ([1] + [tag]) == [1, 0, kind, 1, tag];
  }

  lemma FieldOfCommand(kind: byte, path: seq<Tree>, fields: seq<Tree>, tag: int)
    ensures GetItemRec(ItemOf(CommandAnswer(kind, path, fields)), [1] + [tag]) ==
            GetItemRec(ItemOf(Container(Struct(1), fields)), [tag])
  {
    var list, struct := Container(List(0), path), Container(Struct(1), fields);
    TwoItems(list, struct);
    Down(ItemOf(CommandAnswer(kind, path, fields)), 1, 1, [tag], GetItemRec(ItemOf(struct), [tag]));
  }

  lemma CommandOfAnswer(kind: byte, suppress: bool, path: seq<Tree>, fields: seq<Tree>, q: seq<int>,
                        found: Option<Item>)
    requires GetItemRec(ItemOf(CommandAnswer(kind, path, fields)), q) == found
    ensures GetItemRec(ItemOf(AnswerTree(kind, suppress, path, fields)), [1, 0, kind] + q) == found
  {
    var answer := CommandAnswer(kind, path, fields);
    var command := Container(AnonStruct, [answer]);
    var commands := Container(Array(1), [command]);
    OneItem(answer);
    Down(ItemOf(command), 0, kind, q, found);
    OneItem(command);
    Down(ItemOf(commands), 0, 0, [kind] + q, found);
    TwoItems(Bool(0, suppress), commands);
    Down(ItemOf(AnswerTree(kind, suppress, path, fields)), 1, 1, [0] + ([kind] + q), found);
    assert [1] + ([0] + ([kind] + q)) == [1, 0, kind] + q;
  }

  /** What two status fields are taken for. */
  function StatusResult(common: Option<uint64>, cluster: Option<uint64>): int {
    if common.None? then -1
    else if common.value == 0 then 0
    else if cluster.None? then -1
    else ToInt64(cluster.value)
  }

  /** The number of the first field with the tag. */
  function StatusNumber(status: seq<Tree>, tag: int): Option<uint64> {
    GetIntRec(ItemOf(Container(Struct(1), status)), [tag])
  }

  /** A response on the wire is taken for what its two status fields are. */
  lemma ResponseOnWire(suppress: bool, path: seq<Tree>, status: seq<Tree>)
    requires AllRepresentable(path) && AllRepresentable(status)
    ensures var d := DecodeFirst(Encode(ResponseTree(suppress, path, status)));
            d.Got? && ParseImInvokeResponse(d.value) == StatusResult(StatusNumber(status, 0), StatusNumber(status, 1))
  {
    var t := ResponseTree(suppress, path, status);
    AnswerRepresentable(STATUS, suppress, path, status);
    MessageRoundTrip(t);
    FieldLookup(STATUS, suppress, path, status, 0);
    FieldLookup(STATUS, suppress, path, status, 1);
    ParseByLookups(ItemOf(t), GetIntRec(ItemOf(t), [1, 0, 1, 1, 0]), GetIntRec(ItemOf(t), [1, 0, 1, 1, 1]));
  }

  lemma ParseByLookups(resp: Item, common: Option<uint64>, cluster: Option<uint64>)
    requires GetIntRec(resp, [1, 0, 1, 1, 0]) == common && GetIntRec(resp, [1, 0, 1, 1, 1]) == cluster
    ensures ParseImInvokeResponse(resp) == StatusResult(common, cluster)
  {
  }

  function CommonStatus(n: uint64): Tree {
    UInt(0, 7, n)
  }

  function ClusterStatus(n: uint64): Tree {
    UInt(1, 7, n)
  }

  lemma BothNumbers(common: uint64, cluster: uint64)
    ensures StatusNumber([CommonStatus(common), ClusterStatus(cluster)], 0) == Some(common)
    ensures StatusNumber([CommonStatus(common), ClusterStatus(cluster)], 1) == Some(cluster)
    ensures AllRepresentable([CommonStatus(common), ClusterStatus(cluster)])
  {
    var a, b := CommonStatus(common), ClusterStatus(cluster);
    var fields := ItemOf(Container(Struct(1), [a, b]));
    TwoItems(a, b);
    Pow256Values();
    Down(fields, 0, 0, [], Some(ItemOf(a)));
    Down(fields, 1, 1, [], Some(ItemOf(b)));
    assert [0] + [] == [0] && [1] + [] == [1];
  }

  lemma CommonNumber(n: uint64)
    ensures StatusNumber([CommonStatus(n)], 0) == Some(n) && AllRepresentable([CommonStatus(n)])
  {
    var fields := ItemOf(Container(Struct(1), [CommonStatus(n)]));
    OneItem(CommonStatus(n));
    Pow256Values();
    Down(fields, 0, 0, [], Some(ItemOf(CommonStatus(n))));
    assert [0] + [] == [0];
  }

  /** A field that is no integer counts as the number zero. */
  lemma NoIntegerIsZero(t: Tree, more: seq<Tree>)
    requires !t.UInt? && ItemOf(t).tag == 0
    ensures StatusNumber([t] + more, 0) == Some(0)
  {
    var fields := ItemOf(Container(Struct(1), [t] + more));
    assert ItemsOf([t] + more) == [ItemOf(t)] + ItemsOf(([t] + more)[1..]);
    Down(fields, 0, 0, [], Some(ItemOf(t)));
    assert [0] + [] == [0];
  }

  /** A response counts as success if and only if its common status is zero, or it has one and its cluster status is
      zero, so also when the common status is a failure. */
  lemma ResponseSuccessIff(suppress: bool, path: seq<Tree>, status: seq<Tree>)
    requires AllRepresentable(path) && AllRepresentable(status)
    ensures var d := DecodeFirst(Encode(ResponseTree(suppress, path, status)));
            var common, cluster := StatusNumber(status, 0), StatusNumber(status, 1);
            && d.Got?
            && (ParseImInvokeResponse(d.value) == 0 <==> common == Some(0) || (common.Some? && cluster == Some(0)))
  {
    ResponseOnWire(suppress, path, status);
  }

  /** Such a response: a failing common status, and a zero cluster status. */
  lemma FailureTakenForSuccess()
    ensures var d := DecodeFirst(Encode(ResponseTree(false, [], [CommonStatus(1), ClusterStatus(0)])));
            d.Got? && ParseImInvokeResponse(d.value) == 0
            && GetIntRec(d.value, [1, 0, 1, 1, 0]) == Some(1)
  {
    var status := [CommonStatus(1), ClusterStatus(0)];
    BothNumbers(1, 0);
    ResponseSuccessIff(false, [], status);
    AnswerRepresentable(STATUS, false, [], status);
    MessageRoundTrip(ResponseTree(false, [], status));
    FieldLookup(STATUS, false, [], status, 0);
  }
}
