/** Conversations over a channel: question after question, each put after the answer to the one before. */
module Conversations {
  import opened Bytes
  import opened Options
  import opened Sequences
  import opened Messages
  import opened ChannelSpec
  import opened SecureChannels

  /** How a conversation ends. */
  datatype Flow = Done | Error | Panic

  /** What the last answer leads to. */
  datatype Move = GoOn | GiveUp | Crash

  /** What to do after some answers: on which channel the next question is put, which it is, and whether it is put
      at all. The counter of the channel is the one that the question before has left, except that it starts over at
      the question number restart. The counter in front of question number mark is kept. */
  datatype Script = Script(
    ask: Asker,
    length: nat,
    channel: seq<DecodedGeneric> -> Channel,
    request: seq<DecodedGeneric> -> seq<byte>,
    judge: seq<DecodedGeneric> -> Move,
    restart: nat,
    mark: nat)

  datatype State = State(answers: seq<DecodedGeneric>, counter: uint32, kept: uint32, incoming: seq<seq<byte>>)

  // ----- one question and its answer

  datatype Exchange = Exchange(outcome: Outcome, counter: uint32, incoming: seq<seq<byte>>, ev: seq<Event>)

  /** A call of Send whose error is ignored, and a call of Receive; too much data makes sealing panic. */
  function Ask(aes: Aes, c: Channel, incoming: seq<seq<byte>>, request: seq<byte>): Exchange {
    var c' := c.(counter := Next(c.counter));
    if Send(aes, c, request).SendPanicked? then Exchange(ReceivePanicked, c'.counter, incoming, SentEvents(c, request))
    else
      var run := RunReceive(aes, c', incoming);
      Exchange(run.outcome, if run.ack.Some? then Next(c'.counter) else c'.counter, incoming[run.consumed..],
               SentEvents(c, request) + ReceiveEvents(c', run))
  }

  /** How a question is put and answered. */
  type Asker = (Channel, seq<seq<byte>>, seq<byte>) -> Exchange

  function Asking(aes: Aes): Asker {
    (c, incoming, request) => Ask(aes, c, incoming, request)
  }

  method AskQuestion(sc: SecureChannel, request: seq<byte>) returns (r: Outcome)
    requires sc.udp != null
    modifies sc`counter, sc.udp
    ensures var x := Ask(sc.aes, old(sc.State()), old(sc.udp.incoming), request);
            && r == x.outcome && sc.State() == old(sc.State()).(counter := x.counter)
            && sc.udp.incoming == x.incoming && sc.udp.trace == old(sc.udp.trace) + x.ev
            && sc.udp.sent == old(sc.udp.sent) + Wire(sc.aes, x.ev)
  {
    ghost var c, base, wire := sc.State(), sc.udp.trace, sc.udp.sent;
    WireOfSend(sc.aes, c, request);
    var sent := sc.Send(request);
    if sent.SendPanicked? {
      return ReceivePanicked;
    }
    ghost var run := RunReceive(sc.aes, sc.State(), sc.udp.incoming);
    ghost var more := ReceiveEvents(sc.State(), run);
    WireOfReceive(sc.aes, sc.State(), run);
    r := sc.Receive();
    Regrouped(base, SentEvents(c, request), more);
    Regrouped(wire, SentDatagrams(sc.aes, c, request), Wire(sc.aes, more));
    WireConcat(sc.aes, SentEvents(c, request), more);
  }

  lemma Regrouped<T>(a: seq<T>, b: seq<T>, c: seq<T>)
    ensures a + b + c == a + (b + c)
  {
  }

  /** Events whose datagrams went out continue a record. */
  lemma WireMore(aes: Aes, trace: seq<Event>, sent: seq<seq<byte>>, ev: seq<Event>)
    requires sent == Wire(aes, trace)
    ensures sent + Wire(aes, ev) == Wire(aes, trace + ev)
  {
    WireConcat(aes, trace, ev);
  }

  // ----- the whole conversation

  function ChannelOf(s: Script, st: State): Channel {
    s.channel(st.answers).(counter := st.counter)
  }

  /** The state after an answer. */
  function After(s: Script, st: State, out: DecodedGeneric, x: Exchange): State {
    var k := |st.answers| + 1;
    var counter := if k == s.restart then 0 else x.counter;
    State(st.answers + [out], counter, if k == s.mark then counter else st.kept, x.incoming)
  }

  /** The events of every question that was put, how it ended, and the state in which it did. */
  datatype Run = Run(parts: seq<seq<Event>>, r: Flow, end: State)

  function Prepended(parts: seq<seq<Event>>, run: Run): Run {
    run.(parts := parts + run.parts)
  }

  function Converse(s: Script, st: State): Run
    requires |st.answers| < s.length
    decreases s.length - |st.answers|
  {
    var x := s.ask(ChannelOf(s, st), st.incoming, s.request(st.answers));
    match x.outcome
    case ReceiveFailed => Run([x.ev], Error, st.(counter := x.counter, incoming := x.incoming))
    case ReceivePanicked => Run([x.ev], Panic, st.(counter := x.counter, incoming := x.incoming))
    case Returned(out) =>
      var st' := After(s, st, out, x);
      match s.judge(st'.answers)
      case GiveUp => Run([x.ev], Error, st')
      case Crash => Run([x.ev], Panic, st')
      case GoOn =>
        if |st'.answers| == s.length then Run([x.ev], Done, st') else Prepended([x.ev], Converse(s, st'))
  }

  /** All events in order. */
  function Flat(parts: seq<seq<Event>>): seq<Event> {
    FlatMap((part: seq<Event>) => part, parts)
  }

  lemma FlatConcat(a: seq<seq<Event>>, b: seq<seq<Event>>)
    ensures Flat(a + b) == Flat(a) + Flat(b)
  {
    FlatMapConcat((part: seq<Event>) => part, a, b);
  }

  lemma FlatOne(part: seq<Event>)
    ensures Flat([part]) == part
  {
    FlatMapOne((p: seq<Event>) => p, part);
  }

  // ----- conversations held step by step

  /** From st the conversation goes on as from st', or ends there, after these parts. */
  ghost predicate Reaches(s: Script, st: State, parts: seq<seq<Event>>, st': State, goesOn: bool, r: Flow) {
    && |st.answers| < s.length
    && if goesOn then |st'.answers| < s.length && Converse(s, st) == Prepended(parts, Converse(s, st'))
       else Converse(s, st) == Run(parts, r, st')
  }

  lemma ReachesThrough(s: Script, st: State, parts: seq<seq<Event>>, st1: State, parts': seq<seq<Event>>,
                       st2: State, goesOn: bool, r: Flow)
    requires Reaches(s, st, parts, st1, true, Done) && Reaches(s, st1, parts', st2, goesOn, r)
    ensures Reaches(s, st, parts + parts', st2, goesOn, r)
  {
    if goesOn {
      PrependedTwice(parts, parts', Converse(s, st2));
    }
  }

  lemma PrependedTwice(parts: seq<seq<Event>>, parts': seq<seq<Event>>, run: Run)
    ensures Prepended(parts, Prepended(parts', run)) == Prepended(parts + parts', run)
  {
    assert parts + (parts' + run.parts) == parts + parts' + run.parts;
  }

  function FlowOf(m: Move): Flow {
    match m case GoOn => Done case GiveUp => Error case Crash => Panic
  }

  /** The state after a question. */
  function AfterAsking(s: Script, st: State, x: Exchange): State {
    match x.outcome
    case Returned(out) => After(s, st, out, x)
    case _ => st.(counter := x.counter, incoming := x.incoming)
  }

  function Verdict(s: Script, st: State, outcome: Outcome): Flow {
    match outcome
    case ReceiveFailed => Error
    case ReceivePanicked => Panic
    case Returned(out) => FlowOf(s.judge(st.answers + [out]))
  }

  lemma AskReaches(s: Script, st: State, x: Exchange)
    requires |st.answers| < s.length
    requires x == s.ask(ChannelOf(s, st), st.incoming, s.request(st.answers))
    ensures var r := Verdict(s, st, x.outcome);
            Reaches(s, st, [x.ev], AfterAsking(s, st, x), r.Done? && |st.answers| + 1 < s.length, r)
  {
  }

  // ----- what every conversation keeps

  /** An acknowledgement of something. */
  ghost predicate IsAck(data: seq<byte>) {
    exists p: ProtocolHeader, counter: uint32 :: data == AckMessage(p, counter)
  }

  /** The question, at most one acknowledgement, and the answer if there is one, in this order and on one channel. */
  ghost predicate PartShape(c: Channel, request: seq<byte>, part: seq<Event>) {
    && 0 < |part| <= 3 && part[0].SentEvent? && SameButCounter(c, part[0].chan) && part[0].data == request
    && (forall i :: 0 < i < |part| && part[i].SentEvent? ==>
          i == 1 && SameButCounter(c, part[i].chan) && IsAck(part[i].data))
    && (forall i :: 0 <= i < |part| && part[i].GotEvent? ==> i == |part| - 1)
  }

  lemma {:induction false} AckIsAck(aes: Aes, c: Channel, incoming: seq<seq<byte>>)
    ensures var r := RunReceive(aes, c, incoming); r.ack.Some? ==> IsAck(r.ack.value)
  {
    if |incoming| > 0 && Process(aes, c, incoming[0]).StandaloneAck? {
      AckIsAck(aes, c, incoming[1..]);
    }
  }

  lemma AskShape(aes: Aes, c: Channel, incoming: seq<seq<byte>>, request: seq<byte>)
    ensures PartShape(c, request, Ask(aes, c, incoming, request).ev)
  {
    var c' := c.(counter := Next(c.counter));
    AckIsAck(aes, c', incoming);
    BothShape(c, c', request, RunReceive(aes, c', incoming));
  }

  lemma BothShape(c: Channel, c': Channel, request: seq<byte>, run: ReceiveRun)
    requires SameButCounter(c, c') && (run.ack.Some? ==> IsAck(run.ack.value))
    ensures PartShape(c, request, SentEvents(c, request) + ReceiveEvents(c', run))
    ensures PartShape(c, request, SentEvents(c, request))
  {
  }

  /** The events of the question that follows these answers. */
  ghost predicate IsPart(s: Script, answers: seq<DecodedGeneric>, part: seq<Event>) {
    PartShape(s.channel(answers), s.request(answers), part)
  }

  /** From n answers on: a question after every answer to the one before, up to the last, whose answer may be missing;
      the answers to all questions but the last were such that the conversation goes on. */
  ghost predicate InOrder(s: Script, n: nat, run: Run) {
    var answers, m := run.end.answers, n + |run.parts|;
    && n < m && |answers| <= m <= |answers| + 1 && m <= s.length
    && (forall k :: n <= k < m ==> IsPart(s, answers[..k], run.parts[k - n]))
    && (forall j :: n < j < m ==> s.judge(answers[..j]).GoOn?)
    && (run.r.Done? <==> |answers| == s.length && s.judge(answers).GoOn?)
    && (|answers| == m ==> run.r == FlowOf(s.judge(answers)))
  }

  lemma {:induction false} RunInOrder(s: Script, st: State)
    requires Regular(s.ask) && |st.answers| < s.length
    ensures InOrder(s, |st.answers|, Converse(s, st))
    ensures st.answers <= Converse(s, st).end.answers
    decreases s.length - |st.answers|
  {
    var c, request, n := ChannelOf(s, st), s.request(st.answers), |st.answers|;
    var x := s.ask(c, st.incoming, request);
    var st', r := AfterAsking(s, st, x), Verdict(s, st, x.outcome);
    assert RegularAt(s.ask, c, st.incoming, request);
    AskReaches(s, st, x);
    if r.Done? && n + 1 < s.length {
      RunInOrder(s, st');
      assert Converse(s, st').end.answers[..n + 1] == st'.answers;
      LaterInOrder(s, st.answers, x.ev, Converse(s, st'));
    } else {
      LastInOrder(s, st, x.ev, st', r, x.outcome);
    }
  }

  /** The last question. */
  lemma LastInOrder(s: Script, st: State, part: seq<Event>, end: State, r: Flow, outcome: Outcome)
    requires |st.answers| < s.length && IsPart(s, st.answers, part)
    requires end.answers == if outcome.Returned? then st.answers + [outcome.out] else st.answers
    requires r == Verdict(s, st, outcome) && (r.Done? ==> |st.answers| + 1 == s.length)
    ensures InOrder(s, |st.answers|, Run([part], r, end)) && st.answers <= end.answers
  {
    assert end.answers[..|st.answers|] == st.answers;
  }

  lemma LaterInOrder(s: Script, before: seq<DecodedGeneric>, part: seq<Event>, run: Run)
    requires InOrder(s, |before| + 1, run) && before < run.end.answers
    requires IsPart(s, before, part) && s.judge(run.end.answers[..|before| + 1]).GoOn?
    ensures InOrder(s, |before|, Prepended([part], run))
  {
    var n, parts, answers := |before|, [part] + run.parts, run.end.answers;
    forall k | n <= k < n + |parts| ensures IsPart(s, answers[..k], parts[k - n]) {
      if k > n {
        assert parts[k - n] == run.parts[k - (n + 1)];
      } else {
        assert answers[..k] == before;
      }
    }
  }

  /** What every question has in common: its shape, one or two calls of Send with consecutive counters, and the counter
      after them. */
  ghost predicate RegularAt(ask: Asker, c: Channel, incoming: seq<seq<byte>>, request: seq<byte>) {
    var x := ask(c, incoming, request);
    && PartShape(c, request, x.ev)
    && Numbered(x.ev, c.counter) && x.counter == Advanced(c.counter, |Counters(x.ev)|)
    && 1 <= |Counters(x.ev)| <= 2
  }

  ghost predicate Regular(ask: Asker) {
    forall c: Channel, incoming: seq<seq<byte>>, request: seq<byte> :: RegularAt(ask, c, incoming, request)
  }

  lemma AskingIsRegular(aes: Aes)
    ensures Regular(Asking(aes))
  {
    forall c: Channel, incoming: seq<seq<byte>>, request: seq<byte>
      ensures RegularAt(Asking(aes), c, incoming, request)
    {
      AskShape(aes, c, incoming, request);
      AskNumbered(aes, c, incoming, request);
    }
  }

  // ----- counters

  function CounterOf(e: Event): seq<uint32> {
    match e
    case SentEvent(_, _) => [e.Counter()]
    case GotEvent(_) => []
  }

  /** The counters of all calls of Send. */
  function Counters(ev: seq<Event>): seq<uint32> {
    FlatMap(CounterOf, ev)
  }

  /** The counter after n calls of Send. */
  function Advanced(start: uint32, n: nat): uint32 {
    if n == 0 then start else Next(Advanced(start, n - 1))
  }

  lemma AdvancedOnce(start: uint32)
    ensures Advanced(start, 0) == start && Advanced(start, 1) == Next(start)
  {
    assert Advanced(start, 0) == start;
  }

  lemma {:induction false} AdvancedTwice(start: uint32, m: nat, n: nat)
    ensures Advanced(Advanced(start, m), n) == Advanced(start, m + n)
  {
    if n > 0 {
      AdvancedTwice(start, m, n - 1);
    }
  }

  lemma {:induction false} AdvancedSmall(n: nat)
    requires n < TWO_TO_THE_32
    ensures Advanced(0, n) == n
  {
    if n > 0 {
      AdvancedSmall(n - 1);
    }
  }

  lemma NextInjective(a: uint32, b: uint32)
    ensures Next(a) == Next(b) <==> a == b
  {
  }

  ghost predicate Consecutive(counters: seq<uint32>, start: uint32) {
    forall i :: 0 <= i < |counters| ==> counters[i] == Advanced(start, i + 1)
  }

  /** Every call of Send uses the counter of the one before plus one; the first one that after start. */
  ghost predicate Numbered(ev: seq<Event>, start: uint32) {
    Consecutive(Counters(ev), start)
  }

  lemma ConsecutiveConcat(a: seq<uint32>, b: seq<uint32>, start: uint32)
    requires Consecutive(a, start) && Consecutive(b, Advanced(start, |a|))
    ensures Consecutive(a + b, start)
  {
    forall i | 0 <= i < |a + b| ensures (a + b)[i] == Advanced(start, i + 1) {
      if i >= |a| {
        AdvancedTwice(start, |a|, i - |a| + 1);
      }
    }
  }

  lemma NumberedConcat(a: seq<Event>, b: seq<Event>, start: uint32)
    requires Numbered(a, start) && Numbered(b, Advanced(start, |Counters(a)|))
    ensures Numbered(a + b, start) && |Counters(a + b)| == |Counters(a)| + |Counters(b)|
  {
    FlatMapConcat(CounterOf, a, b);
    ConsecutiveConcat(Counters(a), Counters(b), start);
  }

  lemma SentNumbered(c: Channel, data: seq<byte>)
    ensures Counters(SentEvents(c, data)) == [Next(c.counter)] && Numbered(SentEvents(c, data), c.counter)
  {
    FlatMapOne(CounterOf, SentEvent(c, data));
    AdvancedOnce(c.counter);
  }

  lemma GotUncounted(outcome: Outcome)
    ensures Counters(GotEvents(outcome)) == []
  {
    if outcome.Returned? {
      FlatMapOne(CounterOf, GotEvent(outcome.out));
    } else {
      FlatMapNone(CounterOf);
    }
  }

  /** A call of Receive makes at most one call of Send. */
  lemma ReceiveNumbered(c: Channel, run: ReceiveRun)
    ensures Counters(ReceiveEvents(c, run)) == if run.ack.Some? then [Next(c.counter)] else []
    ensures Numbered(ReceiveEvents(c, run), c.counter)
  {
    var acks := if run.ack.Some? then SentEvents(c, run.ack.value) else [];
    if run.ack.Some? {
      SentNumbered(c, run.ack.value);
    } else {
      FlatMapNone(CounterOf);
    }
    GotUncounted(run.outcome);
    FlatMapConcat(CounterOf, acks, GotEvents(run.outcome));
    assert Counters(acks) + [] == Counters(acks);
  }

  /** A call of Send, and a call of Receive after it. */
  lemma BothNumbered(c: Channel, request: seq<byte>, run: ReceiveRun)
    ensures var ev := SentEvents(c, request) + ReceiveEvents(c.(counter := Next(c.counter)), run);
            Numbered(ev, c.counter) && |Counters(ev)| == if run.ack.Some? then 2 else 1
  {
    SentNumbered(c, request);
    AdvancedOnce(c.counter);
    ReceiveNumbered(c.(counter := Next(c.counter)), run);
    NumberedConcat(SentEvents(c, request), ReceiveEvents(c.(counter := Next(c.counter)), run), c.counter);
  }

  lemma NextTwice(counter: uint32)
    ensures Next(Next(counter)) == Advanced(counter, 2)
  {
    AdvancedOnce(counter);
  }

  /** The calls of Send of a question, one or two, and the counter after them. */
  lemma AskNumbered(aes: Aes, c: Channel, incoming: seq<seq<byte>>, request: seq<byte>)
    ensures var x := Ask(aes, c, incoming, request);
            && Numbered(x.ev, c.counter) && x.counter == Advanced(c.counter, |Counters(x.ev)|)
            && 1 <= |Counters(x.ev)| <= 2
  {
    AdvancedOnce(c.counter);
    NextTwice(c.counter);
    if Send(aes, c, request).SendPanicked? {
      SentNumbered(c, request);
    } else {
      BothNumbered(c, request, RunReceive(aes, c.(counter := Next(c.counter)), incoming));
    }
  }

  lemma CountersAround(ev: seq<Event>, i: nat)
    requires i < |ev| && ev[i].SentEvent?
    ensures Counters(ev) == Counters(ev[..i]) + ([ev[i].Counter()] + Counters(ev[i + 1..]))
  {
    assert ev == ev[..i] + ([ev[i]] + ev[i + 1..]);
    FlatMapConcat(CounterOf, ev[..i], [ev[i]] + ev[i + 1..]);
    FlatMapConcat(CounterOf, [ev[i]], ev[i + 1..]);
    FlatMapOne(CounterOf, ev[i]);
  }

  /** A call of Send follows on those in front of it. */
  lemma CounterAt(ev: seq<Event>, i: nat, start: uint32)
    requires i < |ev| && ev[i].SentEvent? && Numbered(ev, start)
    ensures ev[i].Counter() == Advanced(start, |Counters(ev[..i])| + 1)
    ensures |Counters(ev[..i])| < |Counters(ev)|
  {
    CountersAround(ev, i);
    assert Counters(ev)[|Counters(ev[..i])|] == ev[i].Counter();
  }

  /** As long as there are not too many, the counter of a later call is greater. */
  lemma CountersOrdered(ev: seq<Event>, i: nat, j: nat)
    requires i < j < |ev| && ev[i].SentEvent? && ev[j].SentEvent?
    requires Numbered(ev, 0) && |Counters(ev)| < TWO_TO_THE_32
    ensures ev[i].Counter() < ev[j].Counter()
  {
    CounterAt(ev, i, 0);
    CounterAt(ev, j, 0);
    CountersAround(ev[..j], i);
    assert ev[..j][..i] == ev[..i];
    AdvancedSmall(|Counters(ev[..i])| + 1);
    AdvancedSmall(|Counters(ev[..j])| + 1);
  }

  /** The first call of Send of a part follows on those in front of it. */
  lemma CounterOfPart(parts: seq<seq<Event>>, i: nat, start: uint32)
    requires i < |parts| && parts[i] != [] && parts[i][0].SentEvent?
    requires Numbered(Flat(parts), start)
    ensures parts[i][0].Counter() == Advanced(start, |Counters(Flat(parts[..i]))| + 1)
    ensures |Counters(Flat(parts[..i]))| < |Counters(Flat(parts))|
  {
    FlatAround(parts, i);
    CounterAt(Flat(parts), |Flat(parts[..i])|, start);
  }

  lemma FlatAround(parts: seq<seq<Event>>, i: nat)
    requires i < |parts| && parts[i] != []
    ensures var front, all := Flat(parts[..i]), Flat(parts);
            |front| < |all| && all[..|front|] == front && all[|front|] == parts[i][0]
  {
    assert parts == parts[..i] + ([parts[i]] + parts[i + 1..]);
    FlatConcat(parts[..i], [parts[i]] + parts[i + 1..]);
    FlatConcat([parts[i]], parts[i + 1..]);
    FlatOne(parts[i]);
  }

  /** One more call of Send continues the numbering if and only if its channel has the last counter. */
  lemma OneMore(ev: seq<Event>, c: Channel, data: seq<byte>, start: uint32)
    requires Numbered(ev, start)
    ensures Numbered(ev + SentEvents(c, data), start) <==> c.counter == Advanced(start, |Counters(ev)|)
  {
    SentNumbered(c, data);
    FlatMapConcat(CounterOf, ev, SentEvents(c, data));
    ConsecutiveOne(Counters(ev), Next(c.counter), start);
    AdvancedNext(start, |Counters(ev)|, c.counter);
  }

  lemma ConsecutiveOne(a: seq<uint32>, x: uint32, start: uint32)
    requires Consecutive(a, start)
    ensures Consecutive(a + [x], start) <==> x == Advanced(start, |a| + 1)
  {
    assert (a + [x])[|a|] == x;
  }

  lemma AdvancedNext(start: uint32, n: nat, counter: uint32)
    ensures Next(counter) == Advanced(start, n + 1) <==> counter == Advanced(start, n)
  {
    NextInjective(counter, Advanced(start, n));
  }

  /** From the question where the counter starts over, all calls of Send are consecutive. */
  ghost predicate Counted(st: State, run: Run) {
    && Numbered(Flat(run.parts), st.counter)
    && run.end.counter == Advanced(st.counter, |Counters(Flat(run.parts))|)
    && |Counters(Flat(run.parts))| <= 2 * |run.parts|
  }

  lemma {:induction false} RunCounted(s: Script, st: State)
    requires Regular(s.ask)
    requires s.restart <= |st.answers| < s.length
    ensures Counted(st, Converse(s, st))
    decreases s.length - |st.answers|
  {
    var x := s.ask(ChannelOf(s, st), st.incoming, s.request(st.answers));
    assert RegularAt(s.ask, ChannelOf(s, st), st.incoming, s.request(st.answers));
    FlatOne(x.ev);
    if x.outcome.Returned? {
      var st' := After(s, st, x.outcome.out, x);
      if s.judge(st'.answers).GoOn? && |st'.answers| < s.length {
        RunCounted(s, st');
        CountedLater(st, x.ev, st', Converse(s, st'));
      }
    }
  }

  lemma CountedLater(st: State, part: seq<Event>, st': State, run: Run)
    requires Numbered(part, st.counter) && st'.counter == Advanced(st.counter, |Counters(part)|)
    requires |Counters(part)| <= 2 && Counted(st', run)
    ensures Counted(st, Prepended([part], run))
  {
    FlatOne(part);
    FlatConcat([part], run.parts);
    NumberedConcat(part, Flat(run.parts), st.counter);
    AdvancedTwice(st.counter, |Counters(part)|, |Counters(Flat(run.parts))|);
  }

  /** The counter that is kept is the one that the questions in front of the mark have left. */
  lemma {:induction false} RunKeeps(s: Script, st: State)
    requires Regular(s.ask)
    requires s.restart <= |st.answers| < s.length
    requires |st.answers| < s.mark <= |Converse(s, st).end.answers|
    ensures var run, j := Converse(s, st), s.mark - |st.answers|;
            && j <= |run.parts|
            && run.end.kept == Advanced(st.counter, |Counters(Flat(run.parts[..j]))|)
    decreases s.length - |st.answers|
  {
    var c, request := ChannelOf(s, st), s.request(st.answers);
    var x := s.ask(c, st.incoming, request);
    var st' := AfterAsking(s, st, x);
    assert RegularAt(s.ask, c, st.incoming, request);
    AskReaches(s, st, x);
    if |st.answers| + 1 == s.mark {
      KeptAtMark(s, st, x);
    } else {
      RunKeeps(s, st');
      KeptLater(st.counter, x.ev, Converse(s, st').parts, s.mark - |st.answers| - 1);
    }
  }

  lemma KeptAtMark(s: Script, st: State, x: Exchange)
    requires s.restart <= |st.answers| < s.length && |st.answers| + 1 == s.mark
    requires x == s.ask(ChannelOf(s, st), st.incoming, s.request(st.answers)) && x.outcome.Returned?
    ensures var run := Converse(s, st);
            |run.parts| >= 1 && run.parts[..1] == [x.ev] && Flat(run.parts[..1]) == x.ev && run.end.kept == x.counter
  {
    var st' := AfterAsking(s, st, x);
    AskReaches(s, st, x);
    FlatOne(x.ev);
    if Verdict(s, st, x.outcome).Done? && |st'.answers| < s.length {
      KeptStays(s, st');
    }
  }

  lemma KeptLater(counter: uint32, part: seq<Event>, later: seq<seq<Event>>, j: nat)
    requires j <= |later|
    ensures Advanced(Advanced(counter, |Counters(part)|), |Counters(Flat(later[..j]))|) ==
            Advanced(counter, |Counters(Flat(([part] + later)[..j + 1]))|)
  {
    CountersOfMore(part, later, j);
    AdvancedTwice(counter, |Counters(part)|, |Counters(Flat(later[..j]))|);
  }

  lemma CountersOfMore(part: seq<Event>, later: seq<seq<Event>>, j: nat)
    requires j <= |later|
    ensures Counters(Flat(([part] + later)[..j + 1])) == Counters(part) + Counters(Flat(later[..j]))
  {
    assert ([part] + later)[..j + 1] == [part] + later[..j];
    FlatOne(part);
    FlatConcat([part], later[..j]);
    FlatMapConcat(CounterOf, part, Flat(later[..j]));
  }

  lemma {:induction false} KeptStays(s: Script, st: State)
    requires s.mark <= |st.answers| < s.length
    ensures Converse(s, st).end.kept == st.kept
    decreases s.length - |st.answers|
  {
    var x := s.ask(ChannelOf(s, st), st.incoming, s.request(st.answers));
    AskReaches(s, st, x);
    if Verdict(s, st, x.outcome).Done? && |st.answers| + 1 < s.length {
      KeptStays(s, AfterAsking(s, st, x));
    }
  }

  /** The first n parts, or all if there are fewer, are numbered from a counter on. */
  ghost predicate Started(n: nat, counter: uint32, parts: seq<seq<Event>>) {
    Numbered(Flat(parts[..Min(|parts|, n)]), counter)
  }

  /** Up to the question where the counter starts over, all calls of Send are consecutive as well. */
  lemma {:induction false} RunStarts(s: Script, st: State)
    requires Regular(s.ask)
    requires |st.answers| < s.restart && |st.answers| < s.length
    ensures Started(s.restart - |st.answers|, st.counter, Converse(s, st).parts)
    decreases s.length - |st.answers|
  {
    var x := s.ask(ChannelOf(s, st), st.incoming, s.request(st.answers));
    var st' := AfterAsking(s, st, x);
    assert RegularAt(s.ask, ChannelOf(s, st), st.incoming, s.request(st.answers));
    AskReaches(s, st, x);
    if Verdict(s, st, x.outcome).Done? && |st.answers| + 1 < s.length {
      if |st'.answers| < s.restart {
        RunStarts(s, st');
        StartsLater(st.counter, x.ev, Converse(s, st').parts, s.restart - |st'.answers|);
      } else {
        StartsAlone(st.counter, x.ev, Converse(s, st').parts);
      }
    } else {
      StartsOnly(s.restart - |st.answers|, st.counter, x.ev);
    }
  }

  lemma StartsOnly(n: nat, counter: uint32, part: seq<Event>)
    requires n > 0 && Numbered(part, counter)
    ensures Started(n, counter, [part])
  {
    assert [part][..1] == [part];
    FlatOne(part);
  }

  lemma StartsLater(counter: uint32, part: seq<Event>, later: seq<seq<Event>>, j: nat)
    requires Numbered(part, counter)
    requires Started(j, Advanced(counter, |Counters(part)|), later)
    ensures Started(j + 1, counter, [part] + later)
  {
    var k := Min(|later|, j);
    assert ([part] + later)[..k + 1] == [part] + later[..k];
    FlatOne(part);
    FlatConcat([part], later[..k]);
    NumberedConcat(part, Flat(later[..k]), counter);
  }

  lemma StartsAlone(counter: uint32, part: seq<Event>, later: seq<seq<Event>>)
    requires Numbered(part, counter)
    ensures Started(1, counter, [part] + later)
  {
    assert ([part] + later)[..1] == [part];
    FlatOne(part);
  }

  /** These parts are numbered from 1 on, with at most two calls of Send each, and this is the counter after them. */
  ghost predicate CountedFromZero(parts: seq<seq<Event>>, counter: uint32) {
    && Numbered(Flat(parts), 0) && counter == Advanced(0, |Counters(Flat(parts))|)
    && |Counters(Flat(parts))| <= 2 * |parts|
  }

  /** The parts from the question on where the counter starts over, and those of them in front of the mark. */
  ghost predicate Restarted(s: Script, n: nat, run: Run)
    requires n <= s.restart < s.mark
  {
    var j, m := s.restart - n, s.mark - n;
    |run.parts| > j ==>
      && CountedFromZero(run.parts[j..], run.end.counter)
      && (s.mark <= |run.end.answers| ==>
            m <= |run.parts| && run.end.kept == Advanced(0, |Counters(Flat(run.parts[j..m]))|))
  }

  lemma {:induction false} RunRestarts(s: Script, st: State)
    requires Regular(s.ask)
    requires |st.answers| <= s.restart < s.mark && |st.answers| < s.length
    requires |st.answers| == s.restart ==> st.counter == 0
    ensures Restarted(s, |st.answers|, Converse(s, st))
    decreases s.length - |st.answers|
  {
    if |st.answers| == s.restart {
      RestartsHere(s, st);
    } else {
      var x := s.ask(ChannelOf(s, st), st.incoming, s.request(st.answers));
      var st', r := AfterAsking(s, st, x), Verdict(s, st, x.outcome);
      AskReaches(s, st, x);
      if r.Done? && |st.answers| + 1 < s.length {
        RunRestarts(s, st');
        RestartsLater(s, |st.answers|, x.ev, Converse(s, st'), Converse(s, st));
      } else {
        NotRestarted(s, |st.answers|, Converse(s, st));
      }
    }
  }

  lemma NotRestarted(s: Script, n: nat, run: Run)
    requires n < s.restart < s.mark && |run.parts| == 1
    ensures Restarted(s, n, run)
  {
  }

  lemma RestartsHere(s: Script, st: State)
    requires Regular(s.ask)
    requires |st.answers| == s.restart < s.mark && |st.answers| < s.length && st.counter == 0
    ensures Restarted(s, |st.answers|, Converse(s, st))
  {
    var run := Converse(s, st);
    RunCounted(s, st);
    if s.mark <= |run.end.answers| {
      RunKeeps(s, st);
      assert run.parts[0..s.mark - s.restart] == run.parts[..s.mark - s.restart];
    }
    assert run.parts[0..] == run.parts;
  }

  lemma RestartsLater(s: Script, n: nat, part: seq<Event>, later: Run, run: Run)
    requires n < s.restart < s.mark && Restarted(s, n + 1, later) && run == Prepended([part], later)
    ensures Restarted(s, n, run)
  {
    var j, m := s.restart - n, s.mark - n;
    if |later.parts| >= j {
      Dropped(part, later.parts, j);
      if m <= |later.parts| + 1 {
        Cut(part, later.parts, j, m);
      }
    }
  }

  lemma Dropped<T>(x: T, later: seq<T>, j: nat)
    requires 0 < j <= |later| + 1
    ensures ([x] + later)[j..] == later[j - 1..]
  {
  }

  lemma Cut<T>(x: T, later: seq<T>, j: nat, m: nat)
    requires 0 < j <= m <= |later| + 1
    ensures ([x] + later)[j..m] == later[j - 1..m - 1]
  {
  }

  // ----- when a conversation is done

  /** Datagram by datagram: every question can be sealed, and after any number of standalone acknowledgements a message
      arrives that is taken in, can be decoded, and lets the conversation go on. */
  predicate Succeeds(aes: Aes, s: Script, answers: seq<DecodedGeneric>, incoming: seq<seq<byte>>)
    requires |answers| < s.length
    decreases s.length - |answers|, |incoming|
  {
    var c := s.channel(answers);
    && !Send(aes, c, s.request(answers)).SendPanicked?
    && |incoming| > 0
    && match Process(aes, c, incoming[0])
       case Rejected => false
       case StandaloneAck(_) => Succeeds(aes, s, answers, incoming[1..])
       case Accepted(h, p, payload) =>
         match Finish(h, p, payload)
         case Returned(out) =>
           && s.judge(answers + [out]).GoOn?
           && (|answers| + 1 == s.length || Succeeds(aes, s, answers + [out], incoming[1..]))
         case _ => false
  }

  /** What a call of Receive takes in does not depend on the channel's counter. */
  lemma {:induction false} ReceiveSameKeys(aes: Aes, c: Channel, counter: uint32, incoming: seq<seq<byte>>)
    ensures RunReceive(aes, c.(counter := counter), incoming) == RunReceive(aes, c, incoming)
  {
    if |incoming| > 0 {
      ProcessSameKeys(aes, c, counter, incoming[0]);
      ReceiveSameKeys(aes, c, counter, incoming[1..]);
    }
  }

  /** The answer that a call of Receive returns, and what arrives after it, tell whether the rest succeeds. */
  lemma {:induction false} SucceedsByReceiving(aes: Aes, s: Script, answers: seq<DecodedGeneric>,
                                               incoming: seq<seq<byte>>)
    requires |answers| < s.length
    ensures var run := RunReceive(aes, s.channel(answers), incoming);
            Succeeds(aes, s, answers, incoming) <==>
              && !Send(aes, s.channel(answers), s.request(answers)).SendPanicked?
              && run.outcome.Returned? && s.judge(answers + [run.outcome.out]).GoOn?
              && (|answers| + 1 == s.length || Succeeds(aes, s, answers + [run.outcome.out], incoming[run.consumed..]))
    decreases |incoming|
  {
    if |incoming| > 0 && Process(aes, s.channel(answers), incoming[0]).StandaloneAck? {
      var run := RunReceive(aes, s.channel(answers), incoming[1..]);
      SucceedsByReceiving(aes, s, answers, incoming[1..]);
      assert incoming[1..][run.consumed..] == incoming[run.consumed + 1..];
    }
  }

  /** Nor does it depend on the counter whether sealing panics. */
  lemma SendSameKeys(aes: Aes, c: Channel, counter: uint32, data: seq<byte>)
    ensures Send(aes, c.(counter := counter), data).SendPanicked? <==> Send(aes, c, data).SendPanicked?
  {
  }

  lemma AskParts(aes: Aes, c: Channel, incoming: seq<seq<byte>>, request: seq<byte>)
    ensures var x, run := Ask(aes, c, incoming, request), RunReceive(aes, c.(counter := Next(c.counter)), incoming);
            if Send(aes, c, request).SendPanicked? then x.outcome.ReceivePanicked? && x.incoming == incoming
            else x.outcome == run.outcome && x.incoming == incoming[run.consumed..]
  {
  }

  lemma AskByReceiving(aes: Aes, c: Channel, counter: uint32, incoming: seq<seq<byte>>, request: seq<byte>)
    ensures var x, run := Ask(aes, c.(counter := counter), incoming, request), RunReceive(aes, c, incoming);
            if Send(aes, c, request).SendPanicked? then x.outcome.ReceivePanicked? && x.incoming == incoming
            else x.outcome == run.outcome && x.incoming == incoming[run.consumed..]
  {
    var c' := c.(counter := counter);
    SendSameKeys(aes, c, counter, request);
    AskParts(aes, c', incoming, request);
    assert c'.(counter := Next(counter)) == c.(counter := Next(counter));
    ReceiveSameKeys(aes, c, Next(counter), incoming);
  }

  /** A conversation is done if and only if what arrives makes it so. */
  lemma {:induction false} DoneIffSucceeds(aes: Aes, s: Script, st: State)
    requires s.ask == Asking(aes) && |st.answers| < s.length
    ensures Converse(s, st).r.Done? <==> Succeeds(aes, s, st.answers, st.incoming)
    decreases s.length - |st.answers|
  {
    var x := s.ask(ChannelOf(s, st), st.incoming, s.request(st.answers));
    AskByReceiving(aes, s.channel(st.answers), st.counter, st.incoming, s.request(st.answers));
    SucceedsByReceiving(aes, s, st.answers, st.incoming);
    if x.outcome.Returned? {
      var st' := After(s, st, x.outcome.out, x);
      if s.judge(st'.answers).GoOn? && |st'.answers| < s.length {
        DoneIffSucceeds(aes, s, st');
      }
    }
  }

  // ----- how far a conversation gets, and where it panics

  /** What has arrived, from the first datagram on that is no standalone acknowledgement. */
  function AfterAcks(aes: Aes, c: Channel, incoming: seq<seq<byte>>): seq<seq<byte>> {
    if |incoming| > 0 && Process(aes, c, incoming[0]).StandaloneAck? then AfterAcks(aes, c, incoming[1..]) else incoming
  }

  /** What a datagram is as an answer. */
  function TakenAs(aes: Aes, c: Channel, datagram: seq<byte>): Outcome {
    match Process(aes, c, datagram)
    case Accepted(h, p, payload) => Finish(h, p, payload)
    case _ => ReceiveFailed
  }

  datatype Answer = Answer(outcome: Outcome, rest: seq<seq<byte>>)

  /** The answer among what arrives, and what comes after it. */
  function AnswerIn(aes: Aes, c: Channel, incoming: seq<seq<byte>>): Answer {
    var w := AfterAcks(aes, c, incoming);
    if |w| == 0 then Answer(ReceiveFailed, []) else Answer(TakenAs(aes, c, w[0]), w[1..])
  }

  lemma {:induction false} ReceiveAnswers(aes: Aes, c: Channel, incoming: seq<seq<byte>>)
    ensures var run := RunReceive(aes, c, incoming);
            AnswerIn(aes, c, incoming) == Answer(run.outcome, incoming[run.consumed..])
  {
    if |incoming| > 0 && Process(aes, c, incoming[0]).StandaloneAck? {
      var run := RunReceive(aes, c, incoming[1..]);
      ReceiveAnswers(aes, c, incoming[1..]);
      assert incoming[1..][run.consumed..] == incoming[run.consumed + 1..];
    }
  }

  /** The answer to the question after some answers, among what arrives. */
  type Listener = (seq<DecodedGeneric>, seq<seq<byte>>) -> Answer

  /** A question that cannot be sealed panics. */
  function Heard(aes: Aes, c: Channel, request: seq<byte>, incoming: seq<seq<byte>>): Answer {
    if Send(aes, c, request).SendPanicked? then Answer(ReceivePanicked, incoming) else AnswerIn(aes, c, incoming)
  }

  /** In the clear everything can be sent. */
  lemma ClearHeard(aes: Aes, c: Channel, request: seq<byte>, incoming: seq<seq<byte>>)
    requires c.encryptKey == []
    ensures Heard(aes, c, request, incoming) == AnswerIn(aes, c, incoming)
  {
  }

  lemma AskHeard(aes: Aes, c: Channel, counter: uint32, incoming: seq<seq<byte>>, request: seq<byte>)
    ensures var x := Ask(aes, c.(counter := counter), incoming, request);
            Answer(x.outcome, x.incoming) == Heard(aes, c, request, incoming)
  {
    AskByReceiving(aes, c, counter, incoming, request);
    ReceiveAnswers(aes, c, incoming);
  }

  function Listening(aes: Aes, s: Script): Listener {
    (answers, incoming) => Heard(aes, s.channel(answers), s.request(answers), incoming)
  }

  ghost predicate HearsAt(listen: Listener, s: Script, st: State) {
    var x := s.ask(ChannelOf(s, st), st.incoming, s.request(st.answers));
    Answer(x.outcome, x.incoming) == listen(st.answers, st.incoming)
  }

  ghost predicate Hears(listen: Listener, s: Script) {
    forall st: State :: HearsAt(listen, s, st)
  }

  lemma ListeningHears(aes: Aes, s: Script)
    requires s.ask == Asking(aes)
    ensures Hears(Listening(aes, s), s)
  {
    forall st: State ensures HearsAt(Listening(aes, s), s, st) {
      AskHeard(aes, s.channel(st.answers), st.counter, st.incoming, s.request(st.answers));
    }
  }

  /** The answers to the first k questions, and what arrives after them. */
  datatype Arrival = Arrival(answers: seq<DecodedGeneric>, rest: seq<seq<byte>>)

  /** None if one of the answers does not let the conversation go on. */
  function Arrive(listen: Listener, s: Script, answers: seq<DecodedGeneric>, incoming: seq<seq<byte>>, k: nat)
    : (r: Option<Arrival>)
    ensures |answers| <= k && r.Some? ==> |r.value.answers| == k && answers <= r.value.answers
    decreases k - |answers|
  {
    if |answers| >= k then Some(Arrival(answers, incoming))
    else
      var answer := listen(answers, incoming);
      match answer.outcome
      case Returned(out) =>
        if s.judge(answers + [out]).GoOn? then Arrive(listen, s, answers + [out], answer.rest, k) else None
      case _ => None
  }

  /** The answer cannot be decoded, or what comes of it panics. */
  predicate PanicsOver(listen: Listener, s: Script, a: Arrival) {
    match listen(a.answers, a.rest).outcome
    case ReceiveFailed => false
    case ReceivePanicked => true
    case Returned(out) => s.judge(a.answers + [out]).Crash?
  }

  /** A conversation gets to question k if and only if the answers to those before it arrive. */
  lemma {:induction false} ArriveReaches(listen: Listener, s: Script, st: State, k: nat)
    returns (parts: seq<seq<Event>>, st': State)
    requires Hears(listen, s) && |st.answers| <= k < s.length
    ensures |st'.answers| < s.length
    ensures match Arrive(listen, s, st.answers, st.incoming, k)
            case None => |Converse(s, st).parts| <= k - |st.answers|
            case Some(a) =>
              && Converse(s, st) == Prepended(parts, Converse(s, st')) && |parts| == k - |st.answers|
              && a == Arrival(st'.answers, st'.incoming)
    decreases k - |st.answers|
  {
    parts, st' := [], st;
    var x := s.ask(ChannelOf(s, st), st.incoming, s.request(st.answers));
    if |st.answers| == k {
      assert [] + Converse(s, st).parts == Converse(s, st).parts;
    } else {
      assert HearsAt(listen, s, st);
      AskReaches(s, st, x);
      if Verdict(s, st, x.outcome).Done? {
        parts, st' := ArriveReaches(listen, s, AfterAsking(s, st, x), k);
        PrependedTwice([x.ev], parts, Converse(s, st'));
        parts := [x.ev] + parts;
      }
    }
  }

  /** It is done if and only if the answers to all questions arrive. */
  lemma {:induction false} ArriveDone(listen: Listener, s: Script, st: State)
    requires Hears(listen, s) && |st.answers| < s.length
    ensures var run, arrived := Converse(s, st), Arrive(listen, s, st.answers, st.incoming, s.length);
            if run.r.Done? then arrived == Some(Arrival(run.end.answers, run.end.incoming)) else arrived.None?
    decreases s.length - |st.answers|
  {
    var x := s.ask(ChannelOf(s, st), st.incoming, s.request(st.answers));
    assert HearsAt(listen, s, st);
    AskReaches(s, st, x);
    if Verdict(s, st, x.outcome).Done? && |st.answers| + 1 < s.length {
      ArriveDone(listen, s, AfterAsking(s, st, x));
    }
  }

  lemma PanicsFirst(listen: Listener, s: Script, st: State)
    requires Hears(listen, s) && |st.answers| < s.length
    ensures var run := Converse(s, st);
            && run.parts != []
            && (|run.parts| == 1 && run.r.Panic? <==> PanicsOver(listen, s, Arrival(st.answers, st.incoming)))
  {
    var x := s.ask(ChannelOf(s, st), st.incoming, s.request(st.answers));
    assert HearsAt(listen, s, st);
    AskReaches(s, st, x);
  }

  /** A conversation panics at question k if and only if it gets there, and then panics over what arrives. */
  lemma PanicsAtQuestion(aes: Aes, s: Script, st: State, k: nat)
    requires s.ask == Asking(aes) && |st.answers| <= k < s.length
    ensures var run, arrived := Converse(s, st), Arrive(Listening(aes, s), s, st.answers, st.incoming, k);
            |run.parts| == k - |st.answers| + 1 && run.r.Panic? <==>
            arrived.Some? && PanicsOver(Listening(aes, s), s, arrived.value)
  {
    ListeningHears(aes, s);
    var parts, st' := ArriveReaches(Listening(aes, s), s, st, k);
    if Arrive(Listening(aes, s), s, st.answers, st.incoming, k).Some? {
      PanicsFirst(Listening(aes, s), s, st');
    }
  }
}
