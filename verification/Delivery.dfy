/** What arrives at the other end of a link, whatever portions are written and read. */
module Delivery {
  import opened Framing
  import opened Throttling
  import opened Connection
  import opened Egress
  import opened Wrappers

  // ---------------------------------------------------------------------------------------
  // The byte stream of a link
  // ---------------------------------------------------------------------------------------

  function Joined(parts: seq<Bytes>): Bytes {
    if parts == [] then [] else parts[0] + Joined(parts[1..])
  }

  function Framed(a: Assembler, messages: seq<Message>): (parts: seq<Bytes>)
    ensures |parts| == |messages|
  {
    seq(|messages|, i requires 0 <= i < |messages| => Frame(a, messages[i].data))
  }

  /** The messages as they go over the wire. */
  function Frames(a: Assembler, messages: seq<Message>): Bytes {
    Joined(Framed(a, messages))
  }

  lemma {:induction false} JoinedConcat(p: seq<Bytes>, q: seq<Bytes>)
    ensures Joined(p + q) == Joined(p) + Joined(q)
  {
    if p == [] {
      assert p + q == q;
    } else {
      JoinedConcat(p[1..], q);
      assert (p + q)[1..] == p[1..] + q;
      AppendAssociative(p[0], Joined(p[1..]), Joined(q));
    }
  }

  lemma FramesConcat(a: Assembler, m: seq<Message>, n: seq<Message>)
    ensures Frames(a, m + n) == Frames(a, m) + Frames(a, n)
  {
    assert Framed(a, m + n) == Framed(a, m) + Framed(a, n);
    JoinedConcat(Framed(a, m), Framed(a, n));
  }

  lemma FramesFirst(a: Assembler, messages: seq<Message>)
    requires messages != []
    ensures Frames(a, messages) == Frame(a, messages[0].data) + Frames(a, messages[1..])
  {
    assert Framed(a, messages)[1..] == Framed(a, messages[1..]);
  }

  /** The bytes of the packet being sent that are not written yet. */
  function Unsent(s: Sender): Bytes {
    if s.sending.Some? && !s.sending.value.IsSendCompleted() then s.sending.value.data[s.sending.value.sendingPos..]
    else []
  }

  /** The messages that were popped and not loaded yet. */
  function Outstanding(l: Link): seq<Message>
    requires |l.received| <= |l.popped|
  {
    l.popped[|l.received|..]
  }

  ghost predicate AllFresh(a: Assembler, queue: seq<Packet>) {
    forall i | 0 <= i < |queue| :: queue[i].sendingPos == 0 && |queue[i].data| <= a.maxDataLen
  }

  ghost predicate SenderOk(a: Assembler, s: Sender) {
    && AllFresh(a, s.queues.high) && AllFresh(a, s.queues.normal) && AllFresh(a, s.queues.low)
    && (s.sending.Some? ==> !s.sending.value.IsSendCompleted())
  }

  /**
   What was received is a prefix of what was popped, and the bytes that follow are the frames of
   the rest, up to the point where the sender was closed.
   */
  ghost predicate StreamOk(a: Assembler, l: Link) {
    && |l.received| <= |l.popped|
    && (forall i | 0 <= i < |l.received| :: l.received[i] == l.popped[i].data)
    && (forall m | m in l.popped :: |m.data| <= a.maxDataLen)
    && l.recvBuf + l.wire + Unsent(l.sender) <= Frames(a, Outstanding(l))
    && (l.open ==> l.recvBuf + l.wire + Unsent(l.sender) == Frames(a, Outstanding(l)))
  }

  // ---------------------------------------------------------------------------------------
  // Writing
  // ---------------------------------------------------------------------------------------

  lemma NextBytesAndRest(s: Sender, room: nat)
    requires s.sending.Some?
    ensures NextBytes(s.sending.value, room) + Unsent(s.(sending := Some(Advanced(s.sending.value, room)))) == Unsent(s)
  {
  }

  /** Popping a packet puts its frame at the end of what is to be written. */
  lemma PoppedUnsent(a: Assembler, s: Sender)
    requires a.Valid() && SenderOk(a, s)
    ensures SenderOk(a, Popped(a, s))
    ensures Unsent(Popped(a, s)) == Unsent(s) + Frames(a, Starting(s))
    ensures forall m | m in Starting(s) :: |m.data| <= a.maxDataLen
  {
    if ToPop(s).Some? {
      var frame := Frame(a, s.queues.At(ToPop(s).value)[0].data);
      FramesFirst(a, Starting(s));
      assert Frames(a, Starting(s)) == frame + [] == frame;
      assert frame[0..] == frame;
    }
  }

  /** The bytes written and those still to write are what there was, and the frame of a new packet. */
  lemma WriteNextUnsent(a: Assembler, s: Sender, c: Counters, room: Option<nat>)
    requires a.Valid() && SenderOk(a, s) && WriteNext(a, s, c, room).Some?
    ensures var r := WriteNext(a, s, c, room).value;
            && SenderOk(a, r.sender) && r.status != Oversized
            && r.bytes + Unsent(r.sender) == Unsent(s) + Frames(a, Starting(s))
  {
    var s1 := Popped(a, s);
    PoppedUnsent(a, s);
    if s1.sending.Some? && room.Some? {
      NextBytesAndRest(s1, room.value);
    }
  }

  lemma WriteKeepsStream(a: Assembler, l: Link, c: Counters, room: Option<nat>)
    requires a.Valid() && SenderOk(a, l.sender) && StreamOk(a, l) && l.open && WriteStep(a, l, c, room).Some?
    ensures var l1 := WriteStep(a, l, c, room).value.link; SenderOk(a, l1.sender) && StreamOk(a, l1)
  {
    var l1 := WriteStep(a, l, c, room).value.link;
    WriteNextUnsent(a, l.sender, c, room);
    PoppedUnsent(a, l.sender);
    assert Outstanding(l1) == Outstanding(l) + Starting(l.sender);
    FramesConcat(a, Outstanding(l), Starting(l.sender));
    var bytes := WriteNext(a, l.sender, c, room).value.bytes;
    Moved(l.recvBuf, l.wire, bytes, Unsent(l1.sender), Unsent(l.sender), Frames(a, Starting(l.sender)));
  }

  lemma Moved(buf: Bytes, wire: Bytes, bytes: Bytes, after: Bytes, before: Bytes, frame: Bytes)
    requires bytes + after == before + frame
    ensures buf + (wire + bytes) + after == buf + wire + before + frame
  {
    AppendAssociative(buf, wire, bytes);
    AppendAssociative(buf + wire, bytes, after);
    AppendAssociative(buf + wire, before, frame);
  }

  // ---------------------------------------------------------------------------------------
  // Reading
  // ---------------------------------------------------------------------------------------

  /** A stream that starts with two frames starts with one. */
  lemma SameFrame(a: Assembler, d: Bytes, x: Bytes, e: Bytes, y: Bytes)
    requires a.Valid() && |d| < Pow256(a.lenBytes) && |e| < Pow256(a.lenBytes)
    requires Frame(a, d) + x <= Frame(a, e) + y
    ensures d == e && x <= y
  {
    var whole := Frame(a, e) + y;
    var z := whole[|Frame(a, d) + x|..];
    assert whole == Frame(a, d) + (x + z);
    LoadFrame(a, d, x + z);
    LoadFrame(a, e, y);
  }

  /** What is loaded from the stream of outstanding messages is the first of them. */
  lemma LoadFirst(a: Assembler, buf: Bytes, rest: Bytes, messages: seq<Message>)
    requires a.Valid() && (forall m | m in messages :: |m.data| <= a.maxDataLen)
    requires buf + rest <= Frames(a, messages) && Loaded(a, buf).Some?
    ensures messages != [] && Loaded(a, buf).value == messages[0].data
    ensures Left(a, buf) + rest <= Frames(a, messages[1..])
    ensures buf + rest == Frames(a, messages) ==> Left(a, buf) + rest == Frames(a, messages[1..])
  {
    var data := Loaded(a, buf).value;
    FrameLoaded(a, buf);
    AppendAssociative(Frame(a, data), Left(a, buf), rest);
    assert |Frames(a, messages)| >= |buf| > 0;
    FramesFirst(a, messages);
    assert messages[0] in messages;
    SameFrame(a, data, Left(a, buf) + rest, messages[0].data, Frames(a, messages[1..]));
  }

  /** Taking bytes in moves them from the wire to the buffer. */
  lemma TakenInStream(a: Assembler, l: Link, bytes: Bytes)
    requires StreamOk(a, l) && bytes <= l.wire
    ensures StreamOk(a, l.(wire := l.wire[|bytes|..], recvBuf := l.recvBuf + bytes))
  {
    var rest := l.wire[|bytes|..];
    assert l.wire == bytes + rest;
    AppendAssociative(l.recvBuf, bytes, rest);
  }

  lemma LoadKeepsStream(a: Assembler, l: Link)
    requires a.Valid() && StreamOk(a, l) && Loaded(a, l.recvBuf).Some?
    ensures StreamOk(a, l.(recvBuf := Left(a, l.recvBuf), received := l.received + [Loaded(a, l.recvBuf).value]))
  {
    var l1 := l.(recvBuf := Left(a, l.recvBuf), received := l.received + [Loaded(a, l.recvBuf).value]);
    var rest := l.wire + Unsent(l.sender);
    AppendAssociative(l.recvBuf, l.wire, Unsent(l.sender));
    LoadFirst(a, l.recvBuf, rest, Outstanding(l));
    assert Outstanding(l1) == Outstanding(l)[1..];
    AppendAssociative(l1.recvBuf, l.wire, Unsent(l.sender));
  }

  lemma ReadKeepsStream(a: Assembler, l: Link, inputs: seq<Read>)
    requires a.Valid() && StreamOk(a, l)
    ensures StreamOk(a, ReadStep(a, l, inputs))
  {
    var bytes := TakenIn(inputs);
    if bytes <= l.wire {
      var l1 := l.(wire := l.wire[|bytes|..], recvBuf := l.recvBuf + bytes);
      TakenInStream(a, l, bytes);
      if Loaded(a, l1.recvBuf).Some? {
        LoadKeepsStream(a, l1);
      }
    }
  }

  /** Every packet a buffer holds. */
  function LoadAll(a: Assembler, buf: Bytes): seq<Bytes>
    requires a.Valid()
    decreases |buf|
  {
    if Loaded(a, buf).None? then [] else [Loaded(a, buf).value] + LoadAll(a, Left(a, buf))
  }

  function Payloads(messages: seq<Message>): (p: seq<Bytes>)
    ensures |p| == |messages|
  {
    seq(|messages|, i requires 0 <= i < |messages| => messages[i].data)
  }

  lemma LoadAllFirst(a: Assembler, data: Bytes, rest: Bytes)
    requires a.Valid() && |data| <= a.maxDataLen
    ensures LoadAll(a, Frame(a, data) + rest) == [data] + LoadAll(a, rest)
  {
    LoadFrame(a, data, rest);
  }

  lemma PayloadsSplit(messages: seq<Message>, k: nat)
    requires k <= |messages|
    ensures Payloads(messages) == Payloads(messages[..k]) + Payloads(messages[k..])
  {
  }

  lemma {:induction false} LoadAllFrames(a: Assembler, messages: seq<Message>)
    requires a.Valid() && (forall m | m in messages :: |m.data| <= a.maxDataLen)
    ensures LoadAll(a, Frames(a, messages)) == Payloads(messages)
  {
    if messages != [] {
      assert messages[0] in messages;
      FramesFirst(a, messages);
      LoadAllFirst(a, messages[0].data, Frames(a, messages[1..]));
      LoadAllFrames(a, messages[1..]);
      PayloadsSplit(messages, 1);
      assert Payloads(messages[..1]) == [messages[0].data];
    }
  }

  // ---------------------------------------------------------------------------------------
  // Order
  // ---------------------------------------------------------------------------------------

  function OfPriority(messages: seq<Message>, priority: Priority): seq<Bytes> {
    if messages == [] then []
    else
      var rest := OfPriority(messages[..|messages| - 1], priority);
      var last := messages[|messages| - 1];
      if last.priority == priority then rest + [last.data] else rest
  }

  function Waiting(queue: seq<Packet>): (w: seq<Bytes>)
    ensures |w| == |queue|
  {
    seq(|queue|, i requires 0 <= i < |queue| => queue[i].data)
  }

  /** Each priority is first in, first out: what was sent is what was popped and what waits. */
  ghost predicate InOrder(l: Link, priority: Priority) {
    && OfPriority(l.popped, priority) <= OfPriority(l.sent, priority)
    && (l.open ==>
          OfPriority(l.sent, priority) == OfPriority(l.popped, priority) + Waiting(l.sender.queues.At(priority)))
  }

  lemma OfPriorityAppend(messages: seq<Message>, m: Message, priority: Priority)
    ensures OfPriority(messages + [m], priority)
         == OfPriority(messages, priority) + (if m.priority == priority then [m.data] else [])
  {
  }

  lemma SendKeepsOrder(a: Assembler, l: Link, c: Counters, data: Bytes, priority: Priority, any: Priority)
    requires l.open && InOrder(l, any)
    ensures InOrder(SendStep(a, l, c, data, priority).link, any)
  {
  }

  /** What a write leaves in the queues. */
  lemma WriteNextQueues(a: Assembler, s: Sender, c: Counters, room: Option<nat>)
    requires WriteNext(a, s, c, room).Some?
    ensures WriteNext(a, s, c, room).value.sender.queues == Popped(a, s).queues
  {
  }

  lemma WriteKeepsOrder(a: Assembler, l: Link, c: Counters, room: Option<nat>, any: Priority)
    requires l.open && InOrder(l, any) && WriteStep(a, l, c, room).Some?
    ensures InOrder(WriteStep(a, l, c, room).value.link, any)
  {
    var l1 := WriteStep(a, l, c, room).value.link;
    WriteNextQueues(a, l.sender, c, room);
    if ToPop(l.sender).None? {
      assert l.popped + [] == l.popped;
    } else {
      PopKeepsOrder(l, l1, ToPop(l.sender).value, any);
    }
  }

  /** Popping the first packet of a queue moves its message from the waiting to the popped. */
  lemma PopKeepsOrder(l: Link, l1: Link, priority: Priority, any: Priority)
    requires l.open && InOrder(l, any) && l.sender.queues.At(priority) != []
    requires l1.open && l1.sent == l.sent
    requires var queue := l.sender.queues.At(priority);
             && l1.sender.queues == l.sender.queues.With(priority, queue[1..])
             && l1.popped == l.popped + [Message(queue[0].data, priority)]
    ensures InOrder(l1, any)
  {
    var queue := l.sender.queues.At(priority);
    OfPriorityAppend(l.popped, Message(queue[0].data, priority), any);
    assert Waiting(queue) == [queue[0].data] + Waiting(queue[1..]);
  }

  /** One priority goes before another. */
  predicate Above(q: Priority, p: Priority) {
    (q == High && p != High) || (q == Normal && p == Low)
  }

  /** Everything of the priority that was sent has left the queues. */
  predicate AllPopped(l: Link, priority: Priority) {
    OfPriority(l.sent, priority) == OfPriority(l.popped, priority)
  }

  /** At most one message is popped, and none of a higher priority was waiting. */
  ghost predicate PopsHighest(l: Link, l1: Link) {
    || l1.popped == l.popped
    || (&& |l1.popped| == |l.popped| + 1 && l.popped <= l1.popped
        && forall q: Priority | Above(q, l1.popped[|l.popped|].priority) :: AllPopped(l, q))
  }

  /** A write on an open link with nothing being sent pops a message unless none is waiting. */
  ghost predicate PopsWhenWaiting(l: Link, l1: Link) {
    l.open && l.sender.sending.None? && l1.popped == l.popped ==> forall q: Priority :: AllPopped(l, q)
  }

  lemma NoneWaiting(l: Link, priority: Priority)
    requires InOrder(l, priority) && l.open
    ensures AllPopped(l, priority) <==> l.sender.queues.At(priority) == []
  {
    var popped, waiting := OfPriority(l.popped, priority), Waiting(l.sender.queues.At(priority));
    assert |popped + waiting| == |popped| + |waiting|;
  }

  lemma StartsHighest(s: Sender)
    requires Starting(s) != []
    ensures |Starting(s)| == 1
    ensures forall q: Priority | Above(q, Starting(s)[0].priority) :: s.queues.At(q) == []
  {
  }

  lemma StartsNothing(s: Sender, q: Priority)
    requires s.sending.None? && Starting(s) == []
    ensures s.queues.At(q) == []
  {
  }

  lemma WritePopsHighest(a: Assembler, l: Link, c: Counters, room: Option<nat>)
    requires l.open && InOrder(l, High) && InOrder(l, Normal) && InOrder(l, Low) && WriteStep(a, l, c, room).Some?
    ensures var l1 := WriteStep(a, l, c, room).value.link; PopsHighest(l, l1) && PopsWhenWaiting(l, l1)
  {
    var l1 := WriteStep(a, l, c, room).value.link;
    var starting := Starting(l.sender);
    assert l1.popped == l.popped + starting;
    forall q: Priority
      ensures AllPopped(l, q) <==> l.sender.queues.At(q) == []
    {
      NoneWaiting(l, q);
    }
    if starting != [] {
      StartsHighest(l.sender);
      assert l1.popped[|l.popped|] == starting[0];
    } else if l.sender.sending.None? {
      forall q: Priority
        ensures l.sender.queues.At(q) == []
      {
        StartsNothing(l.sender, q);
      }
    }
  }

  // ---------------------------------------------------------------------------------------
  // Runs
  // ---------------------------------------------------------------------------------------

  ghost predicate LinkOk(a: Assembler, l: Link) {
    && SenderOk(a, l.sender) && StreamOk(a, l)
    && InOrder(l, High) && InOrder(l, Normal) && InOrder(l, Low)
  }

  ghost predicate LinksOk(a: Assembler, links: seq<Link>) {
    forall i | 0 <= i < |links| :: LinkOk(a, links[i])
  }

  ghost predicate WorldOk(a: Assembler, w: World) {
    Balanced(w) && LinksOk(a, w.links)
  }

  lemma PutKeepsLinks(a: Assembler, links: seq<Link>, i: nat, l: Link)
    requires i < |links| && LinksOk(a, links) && LinkOk(a, l)
    ensures LinksOk(a, links[i := l])
  {
  }

  lemma OpenKeepsLinks(a: Assembler, links: seq<Link>)
    requires LinksOk(a, links)
    ensures LinksOk(a, links + [NEW_LINK])
  {
  }

  lemma SendKeepsLink(a: Assembler, l: Link, c: Counters, data: Bytes, priority: Priority)
    requires LinkOk(a, l) && l.open
    ensures LinkOk(a, SendStep(a, l, c, data, priority).link)
  {
    SendKeepsOrder(a, l, c, data, priority, High);
    SendKeepsOrder(a, l, c, data, priority, Normal);
    SendKeepsOrder(a, l, c, data, priority, Low);
  }

  lemma WriteKeepsLink(a: Assembler, l: Link, c: Counters, room: Option<nat>)
    requires a.Valid() && LinkOk(a, l) && l.open && WriteStep(a, l, c, room).Some?
    ensures LinkOk(a, WriteStep(a, l, c, room).value.link)
  {
    WriteKeepsStream(a, l, c, room);
    WriteKeepsOrder(a, l, c, room, High);
    WriteKeepsOrder(a, l, c, room, Normal);
    WriteKeepsOrder(a, l, c, room, Low);
  }

  lemma ReadKeepsLink(a: Assembler, l: Link, inputs: seq<Read>)
    requires a.Valid() && LinkOk(a, l)
    ensures LinkOk(a, ReadStep(a, l, inputs))
  {
    ReadKeepsStream(a, l, inputs);
    ReadKeepsSender(a, l, inputs);
  }

  lemma ReadKeepsSender(a: Assembler, l: Link, inputs: seq<Read>)
    ensures var l1 := ReadStep(a, l, inputs);
            l1.sender == l.sender && l1.open == l.open && l1.sent == l.sent && l1.popped == l.popped
  {
  }

  lemma CloseKeepsLink(a: Assembler, l: Link, c: Counters)
    requires LinkOk(a, l) && CloseStep(l, c).Some?
    ensures LinkOk(a, CloseStep(l, c).value.link)
  {
  }

  lemma StepKeepsLinks(a: Assembler, w: World, e: Event)
    requires a.Valid() && LinksOk(a, w.links) && Next(a, w, e).Some?
    ensures LinksOk(a, Next(a, w, e).value.links)
  {
    match e {
      case Initialize(_, _, _) =>
      case Open =>
        OpenKeepsLinks(a, w.links);
      case Send(i, data, priority) =>
        if CanUse(w, i) {
          SendKeepsLink(a, w.links[i], w.counters, data, priority);
          PutKeepsLinks(a, w.links, i, SendStep(a, w.links[i], w.counters, data, priority).link);
        }
      case Write(i, room) =>
        if CanUse(w, i) {
          WriteKeepsLink(a, w.links[i], w.counters, room);
          PutKeepsLinks(a, w.links, i, WriteStep(a, w.links[i], w.counters, room).value.link);
        }
      case Readable(i, inputs) =>
        if i < |w.links| {
          ReadKeepsLink(a, w.links[i], inputs);
          PutKeepsLinks(a, w.links, i, ReadStep(a, w.links[i], inputs));
        }
      case Close(i) =>
        if CanUse(w, i) {
          CloseKeepsLink(a, w.links[i], w.counters);
          PutKeepsLinks(a, w.links, i, CloseStep(w.links[i], w.counters).value.link);
        }
    }
  }

  /** Every event keeps the accounts balanced and the links in order. */
  lemma StepKeeps(a: Assembler, w: World, e: Event)
    requires a.Valid() && WorldOk(a, w)
    ensures Next(a, w, e).Some? && WorldOk(a, Next(a, w, e).value)
  {
    StepBalanced(a, w, e);
    StepKeepsLinks(a, w, e);
  }

  function Run(a: Assembler, w: World, events: seq<Event>): Option<World>
    decreases events
  {
    if events == [] then Some(w)
    else
      var next := Next(a, w, events[0]);
      if next.None? then None else Run(a, next.value, events[1..])
  }

  lemma {:induction false} RunKeeps(a: Assembler, w: World, events: seq<Event>)
    requires a.Valid() && WorldOk(a, w)
    ensures Run(a, w, events).Some? && WorldOk(a, Run(a, w, events).value)
    decreases events
  {
    if events != [] {
      StepKeeps(a, w, events[0]);
      RunKeeps(a, Next(a, w, events[0]).value, events[1..]);
    }
  }

  /** Everything written has arrived at the other end. */
  predicate AllArrived(l: Link) {
    l.open && l.wire == [] && l.sender.sending.None?
  }

  /**
   A link receives, whatever portions are written and read, a prefix of the messages in the order
   they were popped, and each priority is popped in the order it was sent. Once every byte has
   arrived, the buffer holds exactly the messages still to be loaded.
   */
  ghost predicate Delivers(a: Assembler, l: Link)
    requires a.Valid()
  {
    && l.received <= Payloads(l.popped)
    && (forall priority: Priority :: OfPriority(l.popped, priority) <= OfPriority(l.sent, priority))
    && (l.open && l.sender.queues == NO_QUEUES ==>
          forall priority: Priority :: OfPriority(l.popped, priority) == OfPriority(l.sent, priority))
    && (AllArrived(l) ==> l.received + LoadAll(a, l.recvBuf) == Payloads(l.popped))
  }

  lemma ReceivedInOrder(a: Assembler, l: Link)
    requires StreamOk(a, l)
    ensures l.received == Payloads(l.popped[..|l.received|]) && l.received <= Payloads(l.popped)
  {
  }

  lemma ArrivedInFull(a: Assembler, l: Link)
    requires a.Valid() && StreamOk(a, l) && AllArrived(l)
    ensures l.received + LoadAll(a, l.recvBuf) == Payloads(l.popped)
  {
    assert l.recvBuf + l.wire + Unsent(l.sender) == l.recvBuf;
    LoadAllFrames(a, Outstanding(l));
    ReceivedInOrder(a, l);
    PayloadsSplit(l.popped, |l.received|);
  }

  lemma LinkDelivers(a: Assembler, l: Link)
    requires a.Valid() && LinkOk(a, l)
    ensures Delivers(a, l)
  {
    ReceivedInOrder(a, l);
    forall priority: Priority
      ensures InOrder(l, priority)
    {
    }
    if AllArrived(l) {
      ArrivedInFull(a, l);
    }
  }

  /**
   An event changes only the link it names and pops, from that one, by priority. A write pops
   something unless nothing waits.
   */
  ghost predicate PopsInOrder(w: World, w1: World, e: Event) {
    && |w.links| <= |w1.links|
    && (forall i | 0 <= i < |w.links| :: PopsHighest(w.links[i], w1.links[i]))
    && (e.Write? && e.link < |w.links| ==> PopsWhenWaiting(w.links[e.link], w1.links[e.link]))
    && (!e.Initialize? && !e.Open? ==>
          |w1.links| == |w.links| && forall i | 0 <= i < |w.links| && i != e.link :: w1.links[i] == w.links[i])
  }

  lemma StepPopsInOrder(a: Assembler, w: World, e: Event)
    requires LinksOk(a, w.links) && Next(a, w, e).Some?
    ensures PopsInOrder(w, Next(a, w, e).value, e)
  {
    if e.Write? && CanUse(w, e.link) {
      WritePopsHighest(a, w.links[e.link], w.counters, e.room);
    }
    if e.Readable? && e.link < |w.links| {
      ReadKeepsSender(a, w.links[e.link], e.inputs);
    }
  }

  /** The worlds before and after event `k` of a run. */
  ghost predicate PopsInOrderAt(a: Assembler, events: seq<Event>, k: nat)
    requires k < |events|
  {
    var before, after := Run(a, START, events[..k]), Run(a, START, events[..k + 1]);
    before.Some? && after.Some? && PopsInOrder(before.value, after.value, events[k])
  }

  lemma RunPopsInOrder(a: Assembler, events: seq<Event>, k: nat)
    requires a.Valid() && k < |events|
    ensures PopsInOrderAt(a, events, k)
  {
    var first, e := events[..k], events[k];
    assert events[..k + 1] == first + [e];
    RunKeeps(a, START, first);
    RunLonger(a, first, e);
    StepKeeps(a, Run(a, START, first).value, e);
    StepPopsInOrder(a, Run(a, START, first).value, e);
  }

  lemma RunLonger(a: Assembler, events: seq<Event>, e: Event)
    requires Run(a, START, events).Some?
    ensures Run(a, START, events + [e]) == Next(a, Run(a, START, events).value, e)
  {
    RunConcat(a, START, events, [e]);
    var w := Run(a, START, events).value;
    assert [e][1..] == [];
    assert Next(a, w, e).Some? ==> Run(a, Next(a, w, e).value, []) == Next(a, w, e);
  }

  /**
   In every run the counters are those of the live packets, every link delivers, and every event
   pops by priority.
   */
  lemma EveryRunDelivers(a: Assembler, events: seq<Event>)
    requires a.Valid()
    ensures Run(a, START, events).Some? && Balanced(Run(a, START, events).value)
    ensures forall l | l in Run(a, START, events).value.links :: Delivers(a, l)
    ensures forall k | 0 <= k < |events| :: PopsInOrderAt(a, events, k)
  {
    RunKeeps(a, START, events);
    forall k | 0 <= k < |events|
      ensures PopsInOrderAt(a, events, k)
    {
      RunPopsInOrder(a, events, k);
    }
    forall l | l in Run(a, START, events).value.links
      ensures Delivers(a, l)
    {
      LinkDelivers(a, l);
    }
  }

  // ---------------------------------------------------------------------------------------
  // What one send and one write do
  // ---------------------------------------------------------------------------------------

  /** The packet fits into what the queues of all links may hold together. */
  predicate FitsIn(w: World, data: Bytes) {
    TotalSize(w.links, true) + TotalSize(w.links, false) + |data| <= w.counters.capacity
  }

  /** A message is accepted exactly when it has data, is not too long, and fits in with all that is queued. */
  lemma SendLogsIff(a: Assembler, w: World, i: nat, data: Bytes, priority: Priority)
    requires Balanced(w) && CanUse(w, i)
    ensures var w1 := Next(a, w, Send(i, data, priority)).value;
            if data != [] && |data| <= a.maxDataLen && FitsIn(w, data) then
              && w1.links[i].sent == w.links[i].sent + [Message(data, priority)]
              && TotalSize(w1.links, priority == High) == TotalSize(w.links, priority == High) + |data|
              && TotalSize(w1.links, priority != High) == TotalSize(w.links, priority != High)
            else w1 == w
    ensures var status := StatusOfSend(a, w.counters, data, priority);
            && (status == OversizedPacket <==> data != [] && |data| > a.maxDataLen)
            && (status == QueueFull <==> data != [] && |data| <= a.maxDataLen && !FitsIn(w, data))
  {
    var l, after := w.links[i], SendStep(a, w.links[i], w.counters, data, priority);
    BalancedCovers(w, i);
    SendAccounted(a, l, w.counters, data, priority);
    TotalSizeUpdate(w.links, i, after.link, true);
    TotalSizeUpdate(w.links, i, after.link, false);
    if IsQueued(a, w.counters, data, priority) {
      EnqueuedExactly(w.counters, |data|, priority == High);
    } else {
      assert w.links[i := l] == w.links;
    }
  }

  /** A write puts as much on the wire as the socket takes, of what is left and of the next frame. */
  lemma WriteProgress(a: Assembler, l: Link, c: Counters, room: nat)
    requires a.Valid() && SenderOk(a, l.sender) && WriteStep(a, l, c, Some(room)).Some?
    ensures var l1 := WriteStep(a, l, c, Some(room)).value.link;
            var pending := Unsent(l.sender) + Frames(a, Starting(l.sender));
            l1.wire == l.wire + (if room < |pending| then pending[..room] else pending)
  {
    PoppedUnsent(a, l.sender);
    var s1 := Popped(a, l.sender);
    if s1.sending.Some? {
      WrittenBytes(s1, room);
    }
  }

  /** A write is complete exactly when the socket takes all of it, and ongoing otherwise. */
  lemma WriteCompleteIff(a: Assembler, s: Sender, c: Counters, room: nat)
    requires a.Valid() && SenderOk(a, s) && WriteNext(a, s, c, Some(room)).Some?
    ensures var status := WriteNext(a, s, c, Some(room)).value.status;
            && (status == Complete <==> |Unsent(s) + Frames(a, Starting(s))| <= room)
            && (status == Ongoing <==> |Unsent(s) + Frames(a, Starting(s))| > room)
  {
    PoppedUnsent(a, s);
    if Popped(a, s).sending.Some? {
      WrittenBytes(Popped(a, s), room);
    }
  }

  lemma WrittenBytes(s: Sender, room: nat)
    requires s.sending.Some?
    ensures NextBytes(s.sending.value, room) == if room < |Unsent(s)| then Unsent(s)[..room] else Unsent(s)
  {
  }

  /** The thresholds lie below each other, and the capacity fits in 64 bits. */
  predicate InRange(c: Counters) {
    0 < c.minThrottle < c.maxThrottle < c.capacity < 0x1_0000_0000_0000_0000
  }

  lemma EventKeepsRange(a: Assembler, w: World, e: Event)
    requires InRange(w.counters) && Next(a, w, e).Some?
    ensures InRange(Next(a, w, e).value.counters)
    ensures !e.Initialize? ==> SameLimits(w.counters, Next(a, w, e).value.counters)
  {
    if e.Close? && CanUse(w, e.link) {
      DropAllKeepsLimits(w.counters, Live(w.links[e.link].sender));
    }
  }

  predicate SameLimits(c: Counters, c1: Counters) {
    c1.capacity == c.capacity && c1.minThrottle == c.minThrottle && c1.maxThrottle == c.maxThrottle
  }

  lemma {:induction false} DropAllKeepsLimits(c: Counters, packets: seq<Packet>)
    ensures DropAll(c, packets).Some? ==> SameLimits(c, DropAll(c, packets).value)
    decreases packets
  {
    if packets != [] && Dropped(c, packets[0]).Some? {
      DropAllKeepsLimits(Dropped(c, packets[0]).value, packets[1..]);
    }
  }

  /** In every run the limits stay in order, and only their configuration changes them. */
  lemma {:induction false} RunKeepsRange(a: Assembler, w: World, events: seq<Event>)
    requires InRange(w.counters) && Run(a, w, events).Some?
    ensures InRange(Run(a, w, events).value.counters)
    decreases events
  {
    if events != [] {
      EventKeepsRange(a, w, events[0]);
      RunKeepsRange(a, Next(a, w, events[0]).value, events[1..]);
    }
  }

  /** New limits, in decimal megabytes, are taken exactly when they are in order and what is queued fits. */
  lemma ConfiguresIff(a: Assembler, w: World, capMb: nat, minMb: nat, maxMb: nat)
    requires Balanced(w)
    ensures var w1 := Next(a, w, Initialize(capMb, minMb, maxMb)).value;
            var queued := TotalSize(w.links, true) + TotalSize(w.links, false);
            if 0 < minMb < maxMb < capMb <= 18446744073709 && queued <= capMb * 1_000_000 then
              && w1.links == w.links
              && w1.counters.capacity == capMb * 1_000_000
              && w1.counters.minThrottle == minMb * 1_000_000
              && w1.counters.maxThrottle == maxMb * 1_000_000
              && w1.counters.queued == w.counters.queued
            else w1 == w
  {
  }

  // ---------------------------------------------------------------------------------------
  // What one read takes in
  // ---------------------------------------------------------------------------------------

  /** The bytes of the inputs that carry data, one after the other. */
  function DataOf(inputs: seq<Read>): Bytes {
    if inputs == [] then [] else (if inputs[0].Data? then inputs[0].bytes else []) + DataOf(inputs[1..])
  }

  /** The read goes on through data and interruptions. */
  predicate IsRead(input: Read) {
    match input
    case Data(bytes) => |bytes| > 0
    case Interrupted => true
    case _ => false
  }

  /** All data up to the first end of the data is taken in, and the read fails only if it ends in a failure. */
  lemma {:induction false} TakesInUpTo(inputs: seq<Read>, k: nat)
    requires k <= |inputs| && (forall i | 0 <= i < k :: IsRead(inputs[i])) && (k < |inputs| ==> !IsRead(inputs[k]))
    ensures TakenIn(inputs) == DataOf(inputs[..k])
    ensures Fails(inputs) <==> k < |inputs| && inputs[k] == Failure
  {
    if k != 0 {
      TakesInUpTo(inputs[1..], k - 1);
      assert inputs[..k][1..] == inputs[1..][..k - 1];
    }
  }

  /**
   A read moves what it took in from the wire to the buffer and then, unless it failed, loads the
   packet the buffer starts with, if that is complete.
   */
  lemma ReadLoadsIff(a: Assembler, l: Link, inputs: seq<Read>, data: Bytes, rest: Bytes)
    requires a.Valid() && TakenIn(inputs) <= l.wire && |data| < Pow256(a.lenBytes)
    requires l.recvBuf + TakenIn(inputs) == Frame(a, data) + rest
    ensures var l1 := ReadStep(a, l, inputs);
            && l1.wire == l.wire[|TakenIn(inputs)|..]
            && (if Fails(inputs) then l1.received == l.received && l1.recvBuf == Frame(a, data) + rest
                else l1.received == l.received + [data] && l1.recvBuf == rest)
  {
    LoadFrame(a, data, rest);
  }

  // ---------------------------------------------------------------------------------------
  // Polling until everything is loaded
  // ---------------------------------------------------------------------------------------

  /** A link after `n` reads that find no data and load what is there. */
  function Polled(a: Assembler, l: Link, n: nat): Link
    decreases n
  {
    if n == 0 then l else Polled(a, ReadStep(a, l, [WouldBlock]), n - 1)
  }

  function Polls(i: nat, n: nat): (events: seq<Event>)
    ensures |events| == n
  {
    if n == 0 then [] else [Readable(i, [WouldBlock])] + Polls(i, n - 1)
  }

  lemma PollLoads(a: Assembler, l: Link)
    ensures var l1 := ReadStep(a, l, [WouldBlock]);
            && l1 == l.(recvBuf := l1.recvBuf, received := l1.received)
            && (Loaded(a, l.recvBuf).None? ==> l1 == l)
            && (Loaded(a, l.recvBuf).Some? ==>
                  l1.recvBuf == Left(a, l.recvBuf) && l1.received == l.received + [Loaded(a, l.recvBuf).value])
  {
    assert TakenIn([WouldBlock]) == [] && !Fails([WouldBlock]);
    assert l.recvBuf + [] == l.recvBuf && l.wire[0..] == l.wire;
  }

  /** One poll moves one packet from what the buffer holds to what was received. */
  lemma PollMoves(a: Assembler, l: Link)
    requires a.Valid()
    ensures var l1 := ReadStep(a, l, [WouldBlock]);
            && l1 == l.(recvBuf := l1.recvBuf, received := l1.received)
            && l1.received + LoadAll(a, l1.recvBuf) == l.received + LoadAll(a, l.recvBuf)
            && (LoadAll(a, l.recvBuf) != [] ==> |LoadAll(a, l1.recvBuf)| < |LoadAll(a, l.recvBuf)|)
  {
    PollLoads(a, l);
    LoadAllStep(a, l.recvBuf);
    if Loaded(a, l.recvBuf).Some? {
      AppendAssociative(l.received, [Loaded(a, l.recvBuf).value], LoadAll(a, Left(a, l.recvBuf)));
    }
  }

  /** Enough polls load everything the buffer holds, and change nothing else. */
  lemma {:induction false} PolledLoadsAll(a: Assembler, l: Link, n: nat)
    requires a.Valid() && n >= |LoadAll(a, l.recvBuf)|
    ensures var l1 := Polled(a, l, n);
            && l1.received == l.received + LoadAll(a, l.recvBuf)
            && l1 == l.(recvBuf := l1.recvBuf, received := l1.received)
    decreases n
  {
    if n != 0 {
      PollMoves(a, l);
      PolledLoadsAll(a, ReadStep(a, l, [WouldBlock]), n - 1);
    }
  }

  lemma LoadAllStep(a: Assembler, buf: Bytes)
    requires a.Valid()
    ensures LoadAll(a, buf)
         == if Loaded(a, buf).None? then [] else [Loaded(a, buf).value] + LoadAll(a, Left(a, buf))
  {
  }

  lemma {:induction false} RunPolls(a: Assembler, w: World, i: nat, n: nat)
    requires i < |w.links|
    ensures Run(a, w, Polls(i, n)) == Some(w.(links := w.links[i := Polled(a, w.links[i], n)]))
    decreases n
  {
    if n != 0 {
      var next := w.(links := w.links[i := ReadStep(a, w.links[i], [WouldBlock])]);
      assert Polls(i, n)[0] == Readable(i, [WouldBlock]) && Polls(i, n)[1..] == Polls(i, n - 1);
      RunPolls(a, next, i, n - 1);
      assert next.links[i := Polled(a, next.links[i], n - 1)] == w.links[i := Polled(a, w.links[i], n)];
    } else {
      assert w.links[i := w.links[i]] == w.links;
    }
  }

  lemma {:induction false} RunConcat(a: Assembler, w: World, first: seq<Event>, second: seq<Event>)
    requires Run(a, w, first).Some?
    ensures Run(a, w, first + second) == Run(a, Run(a, w, first).value, second)
    decreases first
  {
    if first == [] {
      assert first + second == second;
    } else {
      assert (first + second)[1..] == first[1..] + second;
      RunConcat(a, Next(a, w, first[0]).value, first[1..], second);
    }
  }

  /**
   Whenever every byte of a link has arrived, polling it often enough continues the run to a point
   where exactly the messages popped have been received.
   */
  lemma EveryRunCompletes(a: Assembler, events: seq<Event>, i: nat, n: nat)
    requires a.Valid() && Run(a, START, events).Some? && i < |Run(a, START, events).value.links|
    requires AllArrived(Run(a, START, events).value.links[i])
    requires n >= |LoadAll(a, Run(a, START, events).value.links[i].recvBuf)|
    ensures var more := Run(a, START, events + Polls(i, n));
            && more.Some? && i < |more.value.links|
            && more.value.links[i].popped == Run(a, START, events).value.links[i].popped
            && more.value.links[i].received == Payloads(more.value.links[i].popped)
  {
    var w := Run(a, START, events).value;
    EveryRunDelivers(a, events);
    RunConcat(a, START, events, Polls(i, n));
    RunPolls(a, w, i, n);
    PolledLoadsAll(a, w.links[i], n);
    assert w.links[i] in w.links;
  }
}
