/** Two endpoints and the datagrams between them: what every step keeps, over runs of any length. */
module Network {
  import opened Bytes
  import opened Options
  import opened Messages
  import opened ChannelSpec
  import opened Sequences

  datatype Party = Controller | Device

  function Peer(x: Party): Party {
    if x == Controller then Device else Controller
  }

  /** A datagram in flight, and the number of the peer's call of Send that it came out of, if it did. */
  datatype Datagram = Datagram(bytes: seq<byte>, origin: Option<nat>)

  /** A message that was accepted: its protocol header, its message counter, its payload, and where it came from. */
  datatype Taken = Taken(p: ProtocolHeader, counter: uint32, payload: seq<byte>, origin: Option<nat>)

  /** One endpoint: its channel, the datagrams on their way to it, and the history of what it did. */
  datatype Side = Side(
    chan: Channel,
    inFlight: seq<Datagram>,
    calls: seq<seq<byte>>,   // the data of every call of Send, acknowledgements included
    counters: seq<uint32>,   // and the message counter that the call used
    accepted: seq<Taken>)

  datatype World = World(controller: Side, device: Side)

  function Of(w: World, x: Party): Side {
    if x == Controller then w.controller else w.device
  }

  function With(w: World, x: Party, s: Side): World {
    if x == Controller then w.(controller := s) else w.(device := s)
  }

  /** The network may reorder, lose and duplicate datagrams, and make them up. */
  datatype Step =
    | Submit(x: Party, data: seq<byte>)
    | Deliver(x: Party, i: nat)
    | Lose(x: Party, i: nat)
    | Duplicate(x: Party, i: nat)
    | Inject(x: Party, bytes: seq<byte>)

  predicate Enabled(w: World, st: Step) {
    match st
    case Submit(_, _) | Inject(_, _) => true
    case Deliver(x, i) => i < |Of(w, x).inFlight|
    case Lose(x, i) => i < |Of(w, x).inFlight|
    case Duplicate(x, i) => i < |Of(w, x).inFlight|
  }

  function Without<T>(s: seq<T>, i: nat): seq<T>
    requires i < |s|
  {
    s[..i] + s[i + 1..]
  }

  /** One call of Send at x: the counter advances even when nothing goes out. */
  function AfterSend(aes: Aes, w: World, x: Party, data: seq<byte>): World {
    var s, counter := Of(w, x), Next(Of(w, x).chan.counter);
    var s' := s.(chan := s.chan.(counter := counter), calls := s.calls + [data], counters := s.counters + [counter]);
    var w' := With(w, x, s');
    match Send(aes, s.chan, data)
    case Sent(bytes) =>
      var other := Of(w', Peer(x));
      With(w', Peer(x), other.(inFlight := other.inFlight + [Datagram(bytes, Some(|s.calls|))]))
    case _ => w'
  }

  /** One datagram taken in at x: an accepted message is acknowledged, everything else is dropped. */
  function AfterDeliver(aes: Aes, w: World, x: Party, i: nat): World
    requires i < |Of(w, x).inFlight|
  {
    var s := Of(w, x);
    var left := s.(inFlight := Without(s.inFlight, i));
    match Process(aes, s.chan, s.inFlight[i].bytes)
    case Rejected => With(w, x, left)
    case StandaloneAck(_) => With(w, x, left)
    case Accepted(h, p, payload) =>
      AfterTake(aes, With(w, x, left), x, Taken(p, h.messageCounter, payload, s.inFlight[i].origin))
  }

  /** Recording an accepted message, and acknowledging it. */
  function AfterTake(aes: Aes, w: World, x: Party, t: Taken): World {
    var s := Of(w, x);
    AfterSend(aes, With(w, x, s.(accepted := s.accepted + [t])), x, AckMessage(t.p, t.counter))
  }

  function Apply(aes: Aes, w: World, st: Step): World
    requires Enabled(w, st)
  {
    match st
    case Submit(x, data) => AfterSend(aes, w, x, data)
    case Deliver(x, i) => AfterDeliver(aes, w, x, i)
    case Lose(x, i) => var s := Of(w, x); With(w, x, s.(inFlight := Without(s.inFlight, i)))
    case Duplicate(x, i) => var s := Of(w, x); With(w, x, s.(inFlight := s.inFlight + [s.inFlight[i]]))
    case Inject(x, bytes) => var s := Of(w, x); With(w, x, s.(inFlight := s.inFlight + [Datagram(bytes, None)]))
  }

  ghost predicate IsRun(aes: Aes, w: World, steps: seq<Step>)
    decreases |steps|
  {
    |steps| == 0 || (Enabled(w, steps[0]) && IsRun(aes, Apply(aes, w, steps[0]), steps[1..]))
  }

  function Run(aes: Aes, w: World, steps: seq<Step>): World
    requires IsRun(aes, w, steps)
    decreases |steps|
  {
    if |steps| == 0 then w else Run(aes, Apply(aes, w, steps[0]), steps[1..])
  }

  // ----- what every run keeps

  function CounterAfter(start: uint32, n: nat): uint32 {
    (start + n) % TWO_TO_THE_32
  }

  lemma NextCounter(start: uint32, n: nat)
    ensures Next(CounterAfter(start, n)) == CounterAfter(start, n + 1)
  {
  }

  ghost predicate MirroredWorld(w: World) {
    Mirrored(w.controller.chan, w.device.chan) && Mirrored(w.device.chan, w.controller.chan)
  }

  /** A world in which nothing has happened yet. */
  ghost predicate Initial(w: World) {
    && MirroredWorld(w)
    && forall x: Party :: var s := Of(w, x);
         s.inFlight == [] && s.calls == [] && s.counters == [] && s.accepted == []
  }

  /** The history of one endpoint whose channel started as start: its counters are consecutive, and it has accepted
      no standalone acknowledgement. */
  ghost predicate SideOk(start: Channel, s: Side) {
    && SameButCounter(start, s.chan)
    && |s.calls| == |s.counters|
    && (forall k :: 0 <= k < |s.counters| ==> s.counters[k] == CounterAfter(start.counter, k + 1))
    && s.chan.counter == CounterAfter(start.counter, |s.counters|)
    && (forall k :: 0 <= k < |s.accepted| ==> !IsStandaloneAck(s.accepted[k].p))
  }

  ghost predicate WorldOk(w0: World, w: World) {
    MirroredWorld(w0) && forall x: Party :: SideOk(Of(w0, x).chan, Of(w, x))
  }

  lemma SameKeysMirrored(w0: World, w: World)
    requires WorldOk(w0, w)
    ensures MirroredWorld(w)
  {
    assert SideOk(Of(w0, Controller).chan, Of(w, Controller));
    assert SideOk(Of(w0, Device).chan, Of(w, Device));
  }

  lemma SendKeepsSide(aes: Aes, w0: World, w: World, x: Party, data: seq<byte>)
    requires WorldOk(w0, w)
    ensures WorldOk(w0, AfterSend(aes, w, x, data))
  {
    var s, start := Of(w, x), Of(w0, x).chan;
    NextCounter(start.counter, |s.counters|);
    var w' := AfterSend(aes, w, x, data);
    assert SideOk(start, s);
    assert SideOk(start, Of(w', x));
    assert SideOk(Of(w0, Peer(x)).chan, Of(w, Peer(x)));
    assert SideOk(Of(w0, Peer(x)).chan, Of(w', Peer(x)));
  }

  lemma StepKeepsWorld(aes: Aes, w0: World, w: World, st: Step)
    requires WorldOk(w0, w) && Enabled(w, st)
    ensures WorldOk(w0, Apply(aes, w, st))
  {
    match st {
      case Submit(x, data) => SendKeepsSide(aes, w0, w, x, data);
      case Deliver(x, i) => DeliverKeepsWorld(aes, w0, w, x, i);
      case Lose(x, i) => FlightKeepsWorld(w0, w, x, Without(Of(w, x).inFlight, i));
      case Duplicate(x, i) => FlightKeepsWorld(w0, w, x, Of(w, x).inFlight + [Of(w, x).inFlight[i]]);
      case Inject(x, bytes) => FlightKeepsWorld(w0, w, x, Of(w, x).inFlight + [Datagram(bytes, None)]);
    }
  }

  lemma FlightKeepsWorld(w0: World, w: World, x: Party, inFlight: seq<Datagram>)
    requires WorldOk(w0, w)
    ensures WorldOk(w0, With(w, x, Of(w, x).(inFlight := inFlight)))
  {
    assert SideOk(Of(w0, Controller).chan, Of(w, Controller));
    assert SideOk(Of(w0, Device).chan, Of(w, Device));
  }

  lemma DeliverKeepsWorld(aes: Aes, w0: World, w: World, x: Party, i: nat)
    requires WorldOk(w0, w) && i < |Of(w, x).inFlight|
    ensures WorldOk(w0, AfterDeliver(aes, w, x, i))
  {
    var s := Of(w, x);
    var left := s.(inFlight := Without(s.inFlight, i));
    FlightKeepsWorld(w0, w, x, left.inFlight);
    var processed := Process(aes, s.chan, s.inFlight[i].bytes);
    if processed.Accepted? {
      var t := Taken(processed.p, processed.h.messageCounter, processed.payload, s.inFlight[i].origin);
      TakeKeepsWorld(aes, w0, With(w, x, left), x, t);
    }
  }

  lemma TakeKeepsWorld(aes: Aes, w0: World, w: World, x: Party, t: Taken)
    requires WorldOk(w0, w) && !IsStandaloneAck(t.p)
    ensures WorldOk(w0, AfterTake(aes, w, x, t))
  {
    var s, ack := Of(w, x), AckMessage(t.p, t.counter);
    var taken := s.(accepted := s.accepted + [t]);
    assert SideOk(Of(w0, x).chan, s);
    assert SideOk(Of(w0, x).chan, taken);
    assert SideOk(Of(w0, Peer(x)).chan, Of(w, Peer(x)));
    SendKeepsSide(aes, w0, With(w, x, taken), x, ack);
  }

  /** Whatever the network does, over every run: consecutive counters, and no acknowledgement is accepted. */
  lemma {:induction false} RunKeepsWorld(aes: Aes, w0: World, w: World, steps: seq<Step>)
    requires WorldOk(w0, w) && IsRun(aes, w, steps)
    ensures WorldOk(w0, Run(aes, w, steps))
    decreases |steps|
  {
    if |steps| > 0 {
      StepKeepsWorld(aes, w0, w, steps[0]);
      RunKeepsWorld(aes, w0, Apply(aes, w, steps[0]), steps[1..]);
    }
  }

  // ----- what is said, and what is on its way

  /** A call of Send: for a message of the application, or to acknowledge a message. */
  datatype Utterance = Message(data: seq<byte>) | Acknowledgement(of: Taken)

  function DataOf(u: Utterance): seq<byte> {
    match u
    case Message(data) => data
    case Acknowledgement(t) => AckMessage(t.p, t.counter)
  }

  /** What a step makes x say: what is submitted, and one acknowledgement of each message that is accepted. */
  function StepSays(aes: Aes, w: World, st: Step, x: Party): seq<Utterance>
    requires Enabled(w, st)
  {
    if st.x != x then []
    else
      match st
      case Submit(_, data) => [Message(data)]
      case Deliver(_, i) =>
        var d := Of(w, x).inFlight[i];
        (match Process(aes, Of(w, x).chan, d.bytes)
         case Accepted(h, p, payload) => [Acknowledgement(Taken(p, h.messageCounter, payload, d.origin))]
         case _ => [])
      case _ => []
  }

  function Says(aes: Aes, w: World, steps: seq<Step>, x: Party): seq<Utterance>
    requires IsRun(aes, w, steps)
    decreases |steps|
  {
    if |steps| == 0 then [] else StepSays(aes, w, steps[0], x) + Says(aes, Apply(aes, w, steps[0]), steps[1..], x)
  }

  function AllData(us: seq<Utterance>): seq<seq<byte>> {
    FlatMap(u => [DataOf(u)], us)
  }

  /** The messages that are acknowledged. */
  function Acknowledged(us: seq<Utterance>): seq<Taken> {
    FlatMap(MessageOf, us)
  }

  function MessageOf(u: Utterance): seq<Taken> {
    if u.Acknowledgement? then [u.of] else []
  }

  /** x has called Send for these utterances, and accepted the messages that they acknowledge. */
  ghost predicate Said(s: Side, us: seq<Utterance>, s': Side) {
    s'.calls == s.calls + AllData(us) && s'.accepted == s.accepted + Acknowledged(us)
  }

  lemma StepSaid(aes: Aes, w: World, st: Step, x: Party)
    requires Enabled(w, st)
    ensures Said(Of(w, x), StepSays(aes, w, st, x), Of(Apply(aes, w, st), x))
  {
    var us := StepSays(aes, w, st, x);
    if us == [] {
      SaidNothing(Of(w, x));
    } else {
      assert us == [us[0]];
      FlatMapOne(u => [DataOf(u)], us[0]);
      FlatMapOne(MessageOf, us[0]);
    }
  }

  lemma SaidNothing(s: Side)
    ensures Said(s, [], s)
  {
    assert AllData([]) == [] && Acknowledged([]) == [];
  }

  lemma SaidConcat(s: Side, us: seq<Utterance>, s1: Side, us': seq<Utterance>, s2: Side)
    requires Said(s, us, s1) && Said(s1, us', s2)
    ensures Said(s, us + us', s2)
  {
    FlatMapConcat(u => [DataOf(u)], us, us');
    FlatMapConcat(MessageOf, us, us');
    assert s.calls + (AllData(us) + AllData(us')) == s.calls + AllData(us) + AllData(us');
    assert s.accepted + (Acknowledged(us) + Acknowledged(us')) == s.accepted + Acknowledged(us) + Acknowledged(us');
  }

  /** The calls of Send over a run: the messages submitted, and for every accepted message, in order, exactly one
      acknowledgement of it. */
  lemma {:induction false} RunSaid(aes: Aes, w: World, steps: seq<Step>, x: Party)
    requires IsRun(aes, w, steps)
    ensures Said(Of(w, x), Says(aes, w, steps, x), Of(Run(aes, w, steps), x))
    decreases |steps|
  {
    if |steps| == 0 {
      SaidNothing(Of(w, x));
    } else {
      var w1 := Apply(aes, w, steps[0]);
      StepSaid(aes, w, steps[0], x);
      RunSaid(aes, w1, steps[1..], x);
      SaidConcat(Of(w, x), StepSays(aes, w, steps[0], x), Of(w1, x), Says(aes, w1, steps[1..], x),
                 Of(Run(aes, w, steps), x));
    }
  }

  lemma {:induction false} AllDataLength(us: seq<Utterance>)
    ensures |AllData(us)| == |us|
  {
    if |us| > 0 {
      AllDataLength(us[..|us| - 1]);
    }
  }

  /** From a world in which nothing has happened: call k is for utterance k, under counter k + 1 after the start. */
  lemma RunAcknowledges(aes: Aes, w0: World, steps: seq<Step>, x: Party)
    requires Initial(w0) && IsRun(aes, w0, steps)
    ensures var s, us := Of(Run(aes, w0, steps), x), Says(aes, w0, steps, x);
            && s.calls == AllData(us) && s.accepted == Acknowledged(us)
            && |s.counters| == |AllData(us)| == |us|
            && (forall k :: 0 <= k < |us| ==> s.counters[k] == CounterAfter(Of(w0, x).chan.counter, k + 1))
            && (forall k :: 0 <= k < |s.accepted| ==> !IsStandaloneAck(s.accepted[k].p))
  {
    var us := Says(aes, w0, steps, x);
    AllDataLength(us);
    InitialOk(w0);
    RunSaid(aes, w0, steps, x);
    RunKeepsWorld(aes, w0, w0, steps);
    assert SideOk(Of(w0, x).chan, Of(Run(aes, w0, steps), x));
    assert [] + AllData(us) == AllData(us) && [] + Acknowledged(us) == Acknowledged(us);
  }

  /** The datagrams that a step puts on their way to y: those that its peer sends, copies, and made-up ones. */
  function StepPuts(aes: Aes, w: World, st: Step, y: Party): seq<Datagram>
    requires Enabled(w, st)
  {
    var s, us := Of(w, Peer(y)), StepSays(aes, w, st, Peer(y));
    if |us| > 0 then
      match Send(aes, s.chan, DataOf(us[0]))
      case Sent(bytes) => [Datagram(bytes, Some(|s.calls|))]
      case _ => []
    else if st.x != y then []
    else
      match st
      case Duplicate(_, i) => [Of(w, y).inFlight[i]]
      case Inject(_, bytes) => [Datagram(bytes, None)]
      case _ => []
  }

  /** The datagram that a step takes off its way to y. */
  function StepRemoves(w: World, st: Step, y: Party): seq<Datagram>
    requires Enabled(w, st)
  {
    if st.x == y && (st.Deliver? || st.Lose?) then [Of(w, y).inFlight[st.i]] else []
  }

  function Puts(aes: Aes, w: World, steps: seq<Step>, y: Party): seq<Datagram>
    requires IsRun(aes, w, steps)
    decreases |steps|
  {
    if |steps| == 0 then [] else StepPuts(aes, w, steps[0], y) + Puts(aes, Apply(aes, w, steps[0]), steps[1..], y)
  }

  function Removes(aes: Aes, w: World, steps: seq<Step>, y: Party): seq<Datagram>
    requires IsRun(aes, w, steps)
    decreases |steps|
  {
    if |steps| == 0 then [] else StepRemoves(w, steps[0], y) + Removes(aes, Apply(aes, w, steps[0]), steps[1..], y)
  }

  ghost predicate Balance(before: seq<Datagram>, puts: seq<Datagram>, removes: seq<Datagram>, after: seq<Datagram>) {
    multiset(after) + multiset(removes) == multiset(before) + multiset(puts)
  }

  lemma BalanceRemoved(ds: seq<Datagram>, i: nat)
    requires i < |ds|
    ensures Balance(ds, [], [ds[i]], Without(ds, i))
  {
    assert ds == ds[..i] + ([ds[i]] + ds[i + 1..]);
  }

  lemma BalancePut(ds: seq<Datagram>, puts: seq<Datagram>)
    ensures Balance(ds, puts, [], ds + puts)
  {
  }

  lemma StepFlight(aes: Aes, w: World, st: Step, y: Party)
    requires Enabled(w, st)
    ensures var ds, ds' := Of(w, y).inFlight, Of(Apply(aes, w, st), y).inFlight;
            if st.x == y && (st.Deliver? || st.Lose?) then ds' == Without(ds, st.i) && StepPuts(aes, w, st, y) == []
            else ds' == ds + StepPuts(aes, w, st, y)
  {
  }

  lemma StepConserves(aes: Aes, w: World, st: Step, y: Party)
    requires Enabled(w, st)
    ensures Balance(Of(w, y).inFlight, StepPuts(aes, w, st, y), StepRemoves(w, st, y),
                    Of(Apply(aes, w, st), y).inFlight)
  {
    StepFlight(aes, w, st, y);
    if st.x == y && (st.Deliver? || st.Lose?) {
      BalanceRemoved(Of(w, y).inFlight, st.i);
    } else {
      BalancePut(Of(w, y).inFlight, StepPuts(aes, w, st, y));
    }
  }

  lemma BalanceConcat(a: seq<Datagram>, p: seq<Datagram>, r: seq<Datagram>, b: seq<Datagram>,
                      p': seq<Datagram>, r': seq<Datagram>, c: seq<Datagram>)
    requires Balance(a, p, r, b) && Balance(b, p', r', c)
    ensures Balance(a, p + p', r + r', c)
  {
    var ma, mp, mr, mb := multiset(a), multiset(p), multiset(r), multiset(b);
    var mp', mr', mc := multiset(p'), multiset(r'), multiset(c);
    calc {
      multiset(c) + multiset(r + r');
      mc + mr' + mr;
      mb + mp' + mr;
      mb + mr + mp';
      ma + mp + mp';
      multiset(a) + multiset(p + p');
    }
  }

  /** Over a run nothing gets onto its way or off it but what the steps put there and take away: what is in flight
      at the end, with what was delivered or lost, is what was there and what was sent, copied or made up. */
  lemma {:induction false} RunConserves(aes: Aes, w: World, steps: seq<Step>, y: Party)
    requires IsRun(aes, w, steps)
    ensures Balance(Of(w, y).inFlight, Puts(aes, w, steps, y), Removes(aes, w, steps, y),
                    Of(Run(aes, w, steps), y).inFlight)
    decreases |steps|
  {
    if |steps| == 0 {
      BalancePut(Of(w, y).inFlight, []);
      assert Of(w, y).inFlight + [] == Of(w, y).inFlight;
    } else {
      var w1 := Apply(aes, w, steps[0]);
      StepConserves(aes, w, steps[0], y);
      RunConserves(aes, w1, steps[1..], y);
      BalanceConcat(Of(w, y).inFlight, StepPuts(aes, w, steps[0], y), StepRemoves(w, steps[0], y), Of(w1, y).inFlight,
                    Puts(aes, w1, steps[1..], y), Removes(aes, w1, steps[1..], y), Of(Run(aes, w, steps), y).inFlight);
    }
  }

  /** In every world that a run leads to, a delivery puts exactly one datagram on its way back when it accepts a
      message, and none otherwise; the other side reads it as an acknowledgement of that message and will not
      answer it. */
  lemma DeliverAcknowledgesOnce(aes: Aes, w0: World, steps: seq<Step>, x: Party, i: nat)
    requires Initial(w0) && IsRun(aes, w0, steps)
    requires i < |Of(Run(aes, w0, steps), x).inFlight|
    ensures var w := Run(aes, w0, steps);
            var w', back := Apply(aes, w, Deliver(x, i)), Of(w, Peer(x)).inFlight;
            match Process(aes, Of(w, x).chan, Of(w, x).inFlight[i].bytes)
            case Accepted(h, p, _) =>
              && |Of(w', Peer(x)).inFlight| == |back| + 1 && back <= Of(w', Peer(x)).inFlight
              && Process(aes, Of(w', Peer(x)).chan, Of(w', Peer(x)).inFlight[|back|].bytes)
                 == StandaloneAck(AckHeader(p, h.messageCounter))
            case _ => Of(w', Peer(x)) == Of(w, Peer(x)) && Of(w', x).calls == Of(w, x).calls
  {
    InitialOk(w0);
    RunKeepsWorld(aes, w0, w0, steps);
    var w := Run(aes, w0, steps);
    SameKeysMirrored(w0, w);
    var s, other := Of(w, x), Of(w, Peer(x));
    var processed := Process(aes, s.chan, s.inFlight[i].bytes);
    if processed.Accepted? {
      AckComesThrough(aes, s.chan, other.chan, processed.p, processed.h.messageCounter);
    }
  }

  // ----- what is accepted was sent

  /** The channel as it is before its k-th call of Send. */
  function AtCall(start: Channel, k: nat): Channel {
    start.(counter := CounterAfter(start.counter, k))
  }

  /** The bytes came out of the k-th call. */
  ghost predicate SentBy(aes: Aes, start: Channel, data: seq<byte>, k: nat, bytes: seq<byte>) {
    Send(aes, AtCall(start, k), data) == Sent(bytes)
  }

  /** The accepted message is what the data of the k-th call says, under the counter of that call. */
  ghost predicate SaidBy(start: Channel, data: seq<byte>, k: nat, t: Taken) {
    && t.counter == CounterAfter(start.counter, k + 1)
    && Interpret(WireHeader(AtCall(start, k)), data) == Accepted(WireHeader(AtCall(start, k)), t.p, t.payload)
  }

  ghost predicate FlightOk(aes: Aes, start: Channel, calls: seq<seq<byte>>, d: Datagram) {
    d.origin.Some? ==> d.origin.value < |calls| && SentBy(aes, start, calls[d.origin.value], d.origin.value, d.bytes)
  }

  /** Data fits the receive buffer together with a header and a tag. */
  predicate FitsBuffer(data: seq<byte>) {
    |data| + 32 <= RECEIVE_BUFFER
  }

  ghost predicate TakenOk(start: Channel, calls: seq<seq<byte>>, t: Taken) {
    t.origin.Some? ==>
      && t.origin.value < |calls|
      && (FitsBuffer(calls[t.origin.value]) ==> SaidBy(start, calls[t.origin.value], t.origin.value, t))
  }

  ghost predicate Genuine(aes: Aes, start: Channel, calls: seq<seq<byte>>, y: Side) {
    && (forall i :: 0 <= i < |y.inFlight| ==> FlightOk(aes, start, calls, y.inFlight[i]))
    && (forall i :: 0 <= i < |y.accepted| ==> TakenOk(start, calls, y.accepted[i]))
  }

  ghost predicate GenuineWorld(aes: Aes, w0: World, w: World) {
    && WorldOk(w0, w)
    && Genuine(aes, w0.controller.chan, w.controller.calls, w.device)
    && Genuine(aes, w0.device.chan, w.device.calls, w.controller)
  }

  lemma GenuineGrows(aes: Aes, start: Channel, calls: seq<seq<byte>>, data: seq<byte>, y: Side)
    requires Genuine(aes, start, calls, y)
    ensures Genuine(aes, start, calls + [data], y)
  {
    forall i | 0 <= i < |y.inFlight| ensures FlightOk(aes, start, calls + [data], y.inFlight[i]) {
      assert FlightOk(aes, start, calls, y.inFlight[i]);
    }
    forall i | 0 <= i < |y.accepted| ensures TakenOk(start, calls + [data], y.accepted[i]) {
      assert TakenOk(start, calls, y.accepted[i]);
    }
  }

  lemma SendIsGenuine(aes: Aes, w0: World, w: World, x: Party, data: seq<byte>)
    requires GenuineWorld(aes, w0, w)
    ensures GenuineWorld(aes, w0, AfterSend(aes, w, x, data))
  {
    SendKeepsSide(aes, w0, w, x, data);
    var s, start := Of(w, x), Of(w0, x).chan;
    var other, n := Of(w, Peer(x)), |s.calls|;
    assert SideOk(start, s);
    assert s.chan == AtCall(start, n);
    GenuineGrows(aes, start, s.calls, data, other);
    var sent := Send(aes, s.chan, data);
    if sent.Sent? {
      assert FlightOk(aes, start, s.calls + [data], Datagram(sent.datagram, Some(n)));
    }
  }

  /** What comes out of one of the peer's calls is accepted as what that call was given. */
  lemma SentIsSaid(aes: Aes, start: Channel, data: seq<byte>, k: nat, y: Channel, bytes: seq<byte>)
    requires Mirrored(start, y) && SentBy(aes, start, data, k, bytes) && FitsBuffer(data)
    requires Process(aes, y, bytes).Accepted?
    ensures var r := Process(aes, y, bytes);
            SaidBy(start, data, k, Taken(r.p, r.h.messageCounter, r.payload, Some(k)))
  {
    SendSucceeds(aes, AtCall(start, k), data);
    EndToEnd(aes, AtCall(start, k), y, data);
    NextCounter(start.counter, k);
  }

  /** Rearranging what is in flight. */
  lemma FlightIsGenuine(aes: Aes, w0: World, w: World, x: Party, inFlight: seq<Datagram>)
    requires GenuineWorld(aes, w0, w)
    requires forall d :: d in inFlight ==> d.origin.None? || d in Of(w, x).inFlight
    ensures GenuineWorld(aes, w0, With(w, x, Of(w, x).(inFlight := inFlight)))
  {
    FlightKeepsWorld(w0, w, x, inFlight);
  }

  lemma TakeIsGenuine(aes: Aes, w0: World, w: World, x: Party, t: Taken)
    requires GenuineWorld(aes, w0, w) && !IsStandaloneAck(t.p)
    requires TakenOk(Of(w0, Peer(x)).chan, Of(w, Peer(x)).calls, t)
    ensures GenuineWorld(aes, w0, AfterTake(aes, w, x, t))
  {
    var s, ack := Of(w, x), AckMessage(t.p, t.counter);
    var taken := s.(accepted := s.accepted + [t]);
    assert SideOk(Of(w0, x).chan, s);
    assert SideOk(Of(w0, x).chan, taken);
    assert SideOk(Of(w0, Peer(x)).chan, Of(w, Peer(x)));
    SendIsGenuine(aes, w0, With(w, x, taken), x, ack);
  }

  lemma DeliverIsGenuine(aes: Aes, w0: World, w: World, x: Party, i: nat)
    requires GenuineWorld(aes, w0, w) && i < |Of(w, x).inFlight|
    ensures GenuineWorld(aes, w0, AfterDeliver(aes, w, x, i))
  {
    var s, start, calls := Of(w, x), Of(w0, Peer(x)).chan, Of(w, Peer(x)).calls;
    var d := s.inFlight[i];
    var left := With(w, x, s.(inFlight := Without(s.inFlight, i)));
    FlightIsGenuine(aes, w0, w, x, Without(s.inFlight, i));
    var processed := Process(aes, s.chan, d.bytes);
    if processed.Accepted? {
      var t := Taken(processed.p, processed.h.messageCounter, processed.payload, d.origin);
      assert FlightOk(aes, start, calls, d);
      assert SideOk(Of(w0, x).chan, s);
      if d.origin.Some? && FitsBuffer(calls[d.origin.value]) {
        SentIsSaid(aes, start, calls[d.origin.value], d.origin.value, s.chan, d.bytes);
      }
      TakeIsGenuine(aes, w0, left, x, t);
    }
  }

  lemma StepIsGenuine(aes: Aes, w0: World, w: World, st: Step)
    requires GenuineWorld(aes, w0, w) && Enabled(w, st)
    ensures GenuineWorld(aes, w0, Apply(aes, w, st))
  {
    match st {
      case Submit(x, data) => SendIsGenuine(aes, w0, w, x, data);
      case Deliver(x, i) => DeliverIsGenuine(aes, w0, w, x, i);
      case Lose(x, i) => FlightIsGenuine(aes, w0, w, x, Without(Of(w, x).inFlight, i));
      case Duplicate(x, i) => FlightIsGenuine(aes, w0, w, x, Of(w, x).inFlight + [Of(w, x).inFlight[i]]);
      case Inject(x, bytes) => FlightIsGenuine(aes, w0, w, x, Of(w, x).inFlight + [Datagram(bytes, None)]);
    }
  }

  lemma {:induction false} RunIsGenuine(aes: Aes, w0: World, w: World, steps: seq<Step>)
    requires GenuineWorld(aes, w0, w) && IsRun(aes, w, steps)
    ensures GenuineWorld(aes, w0, Run(aes, w, steps))
    decreases |steps|
  {
    if |steps| > 0 {
      StepIsGenuine(aes, w0, w, steps[0]);
      RunIsGenuine(aes, w0, Apply(aes, w, steps[0]), steps[1..]);
    }
  }

  /** In every run, each accepted message that came out of a call of the peer's Send is the protocol header and
      the payload that this call was given, under that call's counter, if they fit the receive buffer. */
  lemma AcceptedWasSent(aes: Aes, w0: World, steps: seq<Step>, x: Party, i: nat)
    requires Initial(w0) && IsRun(aes, w0, steps)
    requires i < |Of(Run(aes, w0, steps), x).accepted|
    ensures var w := Run(aes, w0, steps);
            TakenOk(Of(w0, Peer(x)).chan, Of(w, Peer(x)).calls, Of(w, x).accepted[i])
  {
    InitialOk(w0);
    RunIsGenuine(aes, w0, w0, steps);
  }

  lemma InitialOk(w0: World)
    requires Initial(w0)
    ensures WorldOk(w0, w0)
    ensures forall aes: Aes :: GenuineWorld(aes, w0, w0)
  {
    var c, d := Of(w0, Controller), Of(w0, Device);
    assert c.inFlight == [] && d.inFlight == [];
  }

  // ----- nonces

  lemma CountersDiffer(start: uint32, i: nat, j: nat)
    requires i < j < i + TWO_TO_THE_32
    ensures CounterAfter(start, i) != CounterAfter(start, j)
  {
  }

  /** In a run in which an endpoint calls Send at most 2^32 times, no nonce is used twice. */
  lemma NoncesDistinct(aes: Aes, w0: World, steps: seq<Step>, x: Party, i: nat, j: nat)
    requires Initial(w0) && IsRun(aes, w0, steps)
    requires i < j < |Of(Run(aes, w0, steps), x).counters| <= TWO_TO_THE_32
    ensures var s := Of(Run(aes, w0, steps), x);
            MakeNonce(s.counters[i], s.chan.localNode) != MakeNonce(s.counters[j], s.chan.localNode)
  {
    InitialOk(w0);
    RunKeepsWorld(aes, w0, w0, steps);
    var s := Of(Run(aes, w0, steps), x);
    assert SideOk(Of(w0, x).chan, s);
    CountersDiffer(Of(w0, x).chan.counter, i + 1, j + 1);
    NonceInjective(s.counters[i], s.counters[j], s.chan.localNode);
  }

  // ----- draining

  /** A message that will be acknowledged counts twice. */
  function Weight(aes: Aes, c: Channel, d: Datagram): nat {
    if Process(aes, c, d.bytes).Accepted? then 2 else 1
  }

  function Load(aes: Aes, c: Channel, ds: seq<Datagram>): nat {
    if |ds| == 0 then 0 else Weight(aes, c, ds[0]) + Load(aes, c, ds[1..])
  }

  function Measure(aes: Aes, w: World): nat {
    Load(aes, w.controller.chan, w.controller.inFlight) + Load(aes, w.device.chan, w.device.inFlight)
  }

  /** What a datagram weighs does not depend on the receiver's counter. */
  lemma {:induction false} LoadSameKeys(aes: Aes, c: Channel, c': Channel, ds: seq<Datagram>)
    requires SameButCounter(c, c')
    ensures Load(aes, c, ds) == Load(aes, c', ds)
  {
    if |ds| > 0 {
      WeightSameKeys(aes, c, c', ds[0]);
      LoadSameKeys(aes, c, c', ds[1..]);
    }
  }

  lemma WeightSameKeys(aes: Aes, c: Channel, c': Channel, d: Datagram)
    requires SameButCounter(c, c')
    ensures Weight(aes, c, d) == Weight(aes, c', d)
  {
    ProcessSameKeys(aes, c, c'.counter, d.bytes);
  }

  lemma {:induction false} LoadConcat(aes: Aes, c: Channel, a: seq<Datagram>, b: seq<Datagram>)
    ensures Load(aes, c, a + b) == Load(aes, c, a) + Load(aes, c, b)
  {
    if |a| == 0 {
      assert a + b == b;
    } else {
      assert (a + b)[1..] == a[1..] + b;
      LoadConcat(aes, c, a[1..], b);
    }
  }

  lemma LoadOne(aes: Aes, c: Channel, d: Datagram)
    ensures Load(aes, c, [d]) == Weight(aes, c, d)
  {
    var ds: seq<Datagram> := [d];
    assert |ds[1..]| == 0;
  }

  lemma LoadWithout(aes: Aes, c: Channel, ds: seq<Datagram>, i: nat)
    requires i < |ds|
    ensures Load(aes, c, Without(ds, i)) + Weight(aes, c, ds[i]) == Load(aes, c, ds)
  {
    assert ds == ds[..i] + ([ds[i]] + ds[i + 1..]);
    LoadConcat(aes, c, ds[..i], [ds[i]] + ds[i + 1..]);
    LoadConcat(aes, c, [ds[i]], ds[i + 1..]);
    LoadConcat(aes, c, ds[..i], ds[i + 1..]);
    LoadOne(aes, c, ds[i]);
  }

  lemma LoadAppend(aes: Aes, c: Channel, ds: seq<Datagram>, d: Datagram)
    ensures Load(aes, c, ds + [d]) == Load(aes, c, ds) + Weight(aes, c, d)
  {
    LoadConcat(aes, c, ds, [d]);
    LoadOne(aes, c, d);
  }

  predicate IsNetworkStep(st: Step) {
    st.Deliver? || st.Lose?
  }

  lemma DeliverDrains(aes: Aes, w: World, x: Party, i: nat)
    requires MirroredWorld(w) && i < |Of(w, x).inFlight|
    ensures var w' := AfterDeliver(aes, w, x, i); MirroredWorld(w') && Measure(aes, w') < Measure(aes, w)
  {
    var s, other := Of(w, x), Of(w, Peer(x));
    LoadWithout(aes, s.chan, s.inFlight, i);
    var processed := Process(aes, s.chan, s.inFlight[i].bytes);
    if processed.Accepted? {
      AckLoad(aes, s, other, processed.p, processed.h.messageCounter);
      LoadSameKeys(aes, s.chan, s.chan.(counter := Next(s.chan.counter)), Without(s.inFlight, i));
    }
  }

  /** An acknowledgement is sent, and weighs one. */
  lemma AckLoad(aes: Aes, s: Side, other: Side, p: ProtocolHeader, counter: uint32)
    requires Mirrored(s.chan, other.chan)
    ensures var sent := Send(aes, s.chan, AckMessage(p, counter));
            && sent.Sent?
            && Load(aes, other.chan, other.inFlight + [Datagram(sent.datagram, Some(|s.calls|))])
               == Load(aes, other.chan, other.inFlight) + 1
  {
    AckComesThrough(aes, s.chan, other.chan, p, counter);
    LoadAppend(aes, other.chan, other.inFlight,
               Datagram(Send(aes, s.chan, AckMessage(p, counter)).datagram, Some(|s.calls|)));
  }

  /** Without new application messages, every step of the network lowers the measure: the acknowledgement
      of an accepted message weighs less than the message, because its receiver will not acknowledge it. */
  lemma NetworkStepDrains(aes: Aes, w: World, st: Step)
    requires MirroredWorld(w) && Enabled(w, st) && IsNetworkStep(st)
    ensures var w' := Apply(aes, w, st); MirroredWorld(w') && Measure(aes, w') < Measure(aes, w)
  {
    if st.Deliver? {
      DeliverDrains(aes, w, st.x, st.i);
    } else {
      LoadWithout(aes, Of(w, st.x).chan, Of(w, st.x).inFlight, st.i);
    }
  }

  lemma {:induction false} LoadZero(aes: Aes, c: Channel, ds: seq<Datagram>)
    ensures Load(aes, c, ds) == 0 <==> ds == []
  {
  }

  /** The network drains: a run without new application messages is no longer than the measure, and as long
      as the measure is not zero, something is in flight and can be delivered. */
  lemma {:induction false} NetworkDrains(aes: Aes, w: World, steps: seq<Step>)
    requires MirroredWorld(w) && IsRun(aes, w, steps)
    requires forall k :: 0 <= k < |steps| ==> IsNetworkStep(steps[k])
    ensures |steps| + Measure(aes, Run(aes, w, steps)) <= Measure(aes, w)
    ensures Measure(aes, Run(aes, w, steps)) > 0 <==> exists x: Party :: Enabled(Run(aes, w, steps), Deliver(x, 0))
    decreases |steps|
  {
    if |steps| > 0 {
      NetworkStepDrains(aes, w, steps[0]);
      NetworkDrains(aes, Apply(aes, w, steps[0]), steps[1..]);
    } else {
      LoadZero(aes, w.controller.chan, w.controller.inFlight);
      LoadZero(aes, w.device.chan, w.device.inFlight);
      assert Enabled(w, Deliver(Controller, 0)) <==> w.controller.inFlight != [];
      assert Enabled(w, Deliver(Device, 0)) <==> w.device.inFlight != [];
    }
  }
}

/** One call of Receive is a sequence of deliveries. */
module ReceiveSteps {
  import opened Bytes
  import opened Options
  import opened Messages
  import opened ChannelSpec
  import opened SecureChannels
  import opened Network

  function BytesOf(ds: seq<Datagram>): (r: seq<seq<byte>>)
    ensures |r| == |ds|
    ensures forall i :: 0 <= i < |ds| ==> r[i] == ds[i].bytes
  {
    seq(|ds|, i requires 0 <= i < |ds| => ds[i].bytes)
  }

  /** What taking in some datagrams does to an endpoint and to its peer, when it sends at most one acknowledgement. */
  ghost predicate TakesIn(aes: Aes, s: Side, peer: Side, consumed: nat, ack: Option<seq<byte>>, s': Side, peer': Side) {
    && consumed <= |s.inFlight| && s'.inFlight == s.inFlight[consumed..]
    && match ack
       case None => s'.(inFlight := s.inFlight) == s && peer' == peer
       case Some(data) =>
         && s'.chan == s.chan.(counter := Next(s.chan.counter))
         && s'.calls == s.calls + [data]
         && BytesOf(peer'.inFlight) == BytesOf(peer.inFlight) + SentDatagrams(aes, s.chan, data)
  }

  lemma TakesInMore(aes: Aes, s: Side, peer: Side, consumed: nat, ack: Option<seq<byte>>, s': Side, peer': Side)
    requires |s.inFlight| > 0 && TakesIn(aes, s.(inFlight := s.inFlight[1..]), peer, consumed, ack, s', peer')
    ensures TakesIn(aes, s, peer, consumed + 1, ack, s', peer')
  {
  }

  /** The first datagram in flight is delivered. */
  function DeliverFirst(aes: Aes, x: Party): World -> World {
    w => if |Of(w, x).inFlight| > 0 then AfterDeliver(aes, w, x, 0) else w
  }

  function Iterate(f: World -> World, w: World, n: nat): World
    decreases n
  {
    if n == 0 then w else Iterate(f, f(w), n - 1)
  }

  ghost predicate IsDelivery(aes: Aes, w: World, x: Party, w': World)
    requires |Of(w, x).inFlight| > 0
  {
    var s := Of(w, x);
    match Process(aes, s.chan, s.inFlight[0].bytes)
    case Accepted(h, p, _) =>
      TakesIn(aes, s, Of(w, Peer(x)), 1, Some(AckMessage(p, h.messageCounter)), Of(w', x), Of(w', Peer(x)))
    case _ => w' == With(w, x, s.(inFlight := s.inFlight[1..]))
  }

  lemma BytesOfMore(ds: seq<Datagram>, d: Datagram)
    ensures BytesOf(ds + [d]) == BytesOf(ds) + [d.bytes]
  {
  }

  /** A call of Send puts its datagram, if there is one, behind those on their way to the peer. */
  lemma SendPuts(aes: Aes, w: World, x: Party, data: seq<byte>)
    ensures var w' := AfterSend(aes, w, x, data);
            var s, s', other, other' := Of(w, x), Of(w', x), Of(w, Peer(x)), Of(w', Peer(x));
            && s'.chan == s.chan.(counter := Next(s.chan.counter))
            && s'.calls == s.calls + [data] && s'.inFlight == s.inFlight
            && BytesOf(other'.inFlight) == BytesOf(other.inFlight) + SentDatagrams(aes, s.chan, data)
  {
    var s, other := Of(w, x), Of(w, Peer(x));
    var sent := Send(aes, s.chan, data);
    if sent.Sent? {
      BytesOfMore(other.inFlight, Datagram(sent.datagram, Some(|s.calls|)));
    }
  }

  lemma DeliverFirstIsDelivery(aes: Aes, w: World, x: Party)
    requires |Of(w, x).inFlight| > 0
    ensures IsDelivery(aes, w, x, DeliverFirst(aes, x)(w))
  {
    var s := Of(w, x);
    assert Without(s.inFlight, 0) == s.inFlight[1..];
    var processed := Process(aes, s.chan, s.inFlight[0].bytes);
    if processed.Accepted? {
      var t := Taken(processed.p, processed.h.messageCounter, processed.payload, s.inFlight[0].origin);
      var left := s.(inFlight := s.inFlight[1..], accepted := s.accepted + [t]);
      SendPuts(aes, With(w, x, left), x, AckMessage(t.p, t.counter));
    }
  }

  lemma {:induction false} ReceiveIterates(aes: Aes, w: World, x: Party, f: World -> World, run: ReceiveRun)
    requires forall v: World :: |Of(v, x).inFlight| > 0 ==> IsDelivery(aes, v, x, f(v))
    requires run == RunReceive(aes, Of(w, x).chan, BytesOf(Of(w, x).inFlight))
    ensures var w' := Iterate(f, w, run.consumed);
            TakesIn(aes, Of(w, x), Of(w, Peer(x)), run.consumed, run.ack, Of(w', x), Of(w', Peer(x)))
    decreases |Of(w, x).inFlight|
  {
    var s := Of(w, x);
    if |s.inFlight| > 0 {
      assert IsDelivery(aes, w, x, f(w));
      assert BytesOf(s.inFlight)[1..] == BytesOf(s.inFlight[1..]);
      if Process(aes, s.chan, s.inFlight[0].bytes).StandaloneAck? {
        var left, run1 := f(w), RunReceive(aes, s.chan, BytesOf(s.inFlight[1..]));
        assert left == With(w, x, s.(inFlight := s.inFlight[1..]));
        ReceiveIterates(aes, left, x, f, run1);
        var w' := Iterate(f, left, run1.consumed);
        TakesInMore(aes, s, Of(w, Peer(x)), run1.consumed, run1.ack, Of(w', x), Of(w', Peer(x)));
      } else {
        LastDelivery(aes, w, x, f, run);
      }
    }
  }

  /** A delivery that ends the call. */
  lemma LastDelivery(aes: Aes, w: World, x: Party, f: World -> World, run: ReceiveRun)
    requires |Of(w, x).inFlight| > 0 && IsDelivery(aes, w, x, f(w))
    requires run == RunReceive(aes, Of(w, x).chan, BytesOf(Of(w, x).inFlight))
    requires !Process(aes, Of(w, x).chan, Of(w, x).inFlight[0].bytes).StandaloneAck?
    ensures var w' := Iterate(f, w, run.consumed);
            TakesIn(aes, Of(w, x), Of(w, Peer(x)), run.consumed, run.ack, Of(w', x), Of(w', Peer(x)))
  {
    assert run.consumed == 1;
    assert Iterate(f, w, 1) == Iterate(f, f(w), 0);
  }

  /** A call of Receive at one endpoint does to the world what delivering the datagrams that it takes in does: the
      same counter, the same acknowledgement in the history and on its way to the peer, the rest left in flight. */
  lemma ReceiveIsDeliveries(aes: Aes, w: World, x: Party)
    ensures var run := RunReceive(aes, Of(w, x).chan, BytesOf(Of(w, x).inFlight));
            var w' := Iterate(DeliverFirst(aes, x), w, run.consumed);
            TakesIn(aes, Of(w, x), Of(w, Peer(x)), run.consumed, run.ack, Of(w', x), Of(w', Peer(x)))
  {
    var f := DeliverFirst(aes, x);
    forall v: World | |Of(v, x).inFlight| > 0 ensures IsDelivery(aes, v, x, f(v)) {
      DeliverFirstIsDelivery(aes, v, x);
    }
    ReceiveIterates(aes, w, x, f, RunReceive(aes, Of(w, x).chan, BytesOf(Of(w, x).inFlight)));
  }
}
