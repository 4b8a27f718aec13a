/**
 Runs of any number of connections that share one throttling service. A link is the sending half
 of a connection, the bytes in flight, and the receiving half at the other end.
 */
module Egress {
  import opened Framing
  import opened Throttling
  import opened Connection
  import opened Wrappers

  datatype Message = Message(data: Bytes, priority: Priority)

  /**
   `sent` holds the messages accepted so far, `popped` those taken out of the send queues and
   `received` the packets loaded at the other end.
   */
  datatype Link = Link(
    sender: Sender, wire: Bytes, recvBuf: Bytes, open: bool,
    sent: seq<Message>, popped: seq<Message>, received: seq<Bytes>)

  const NEW_LINK: Link := Link(Sender(NO_QUEUES, None), [], [], true, [], [], [])

  datatype World = World(links: seq<Link>, counters: Counters)

  const START: World := World([], INITIAL)

  // ---------------------------------------------------------------------------------------
  // Steps
  // ---------------------------------------------------------------------------------------

  datatype Event =
    | Initialize(capMb: nat, minMb: nat, maxMb: nat)
    | Open
    | Send(link: nat, data: Bytes, priority: Priority)
    | Write(link: nat, room: Option<nat>)
    | Readable(link: nat, inputs: seq<Read>)
    | Close(link: nat)

  /** A link and the counters after a step. */
  datatype After = After(link: Link, counters: Counters)

  function SendStep(a: Assembler, l: Link, c: Counters, data: Bytes, priority: Priority): After {
    if IsQueued(a, c, data, priority) then
      After(l.(sender := Queued(l.sender, data, priority), sent := l.sent + [Message(data, priority)]),
            Enqueued(c, |data|, priority == High).value)
    else After(l, c)
  }

  /** The message `write_next_from_queue` starts to send. */
  function Starting(s: Sender): seq<Message> {
    match ToPop(s)
    case None => []
    case Some(priority) => [Message(s.queues.At(priority)[0].data, priority)]
  }

  function WriteStep(a: Assembler, l: Link, c: Counters, room: Option<nat>): Option<After> {
    match WriteNext(a, l.sender, c, room)
    case None => None
    case Some(r) =>
      Some(After(l.(sender := r.sender, wire := l.wire + r.bytes, popped := l.popped + Starting(l.sender)), r.counters))
  }

  /** The reads give the bytes in flight in order, in any portions. */
  function ReadStep(a: Assembler, l: Link, inputs: seq<Read>): Link {
    var bytes := TakenIn(inputs);
    if !(bytes <= l.wire) then l
    else
      var l1 := l.(wire := l.wire[|bytes|..], recvBuf := l.recvBuf + bytes);
      if Fails(inputs) || Loaded(a, l1.recvBuf).None? then l1
      else l1.(recvBuf := Left(a, l1.recvBuf), received := l1.received + [Loaded(a, l1.recvBuf).value])
  }

  /** The packets that are accounted for. */
  function Live(s: Sender): seq<Packet> {
    s.queues.All() + (if s.sending.Some? then [s.sending.value] else [])
  }

  function DropAll(c: Counters, packets: seq<Packet>): Option<Counters>
    decreases packets
  {
    if packets == [] then Some(c)
    else
      var c1 := Dropped(c, packets[0]);
      if c1.None? then None else DropAll(c1.value, packets[1..])
  }

  /** The sending half is dropped with all its packets; what is in flight may still arrive. */
  function CloseStep(l: Link, c: Counters): Option<After> {
    match DropAll(c, Live(l.sender))
    case None => None
    case Some(c1) => Some(After(l.(sender := Sender(NO_QUEUES, None), open := false), c1))
  }

  predicate CanUse(w: World, i: nat) {
    i < |w.links| && w.links[i].open
  }

  function Put(w: World, i: nat, after: Option<After>): Option<World>
    requires i < |w.links|
  {
    if after.None? then None
    else Some(World(w.links[i := after.value.link], after.value.counters))
  }

  /**
   One event; an event that does not apply changes nothing. There is no next world when a counter
   would go below zero.
   */
  function Next(a: Assembler, w: World, e: Event): Option<World> {
    match e
    case Initialize(capMb, minMb, maxMb) =>
      if Throttling.Accepted(w.counters, capMb, minMb, maxMb) then
        Some(w.(counters := Initialized(w.counters, capMb, minMb, maxMb)))
      else Some(w)
    case Open => Some(w.(links := w.links + [NEW_LINK]))
    case Send(i, data, priority) =>
      if CanUse(w, i) then Put(w, i, Some(SendStep(a, w.links[i], w.counters, data, priority))) else Some(w)
    case Write(i, room) =>
      if CanUse(w, i) then Put(w, i, WriteStep(a, w.links[i], w.counters, room)) else Some(w)
    case Readable(i, inputs) =>
      if i < |w.links| then Some(w.(links := w.links[i := ReadStep(a, w.links[i], inputs)])) else Some(w)
    case Close(i) =>
      if CanUse(w, i) then Put(w, i, CloseStep(w.links[i], w.counters)) else Some(w)
  }

  // ---------------------------------------------------------------------------------------
  // Accounting
  // ---------------------------------------------------------------------------------------

  /** The sizes of the packets of one class. */
  function Size(packets: seq<Packet>, high: bool): nat {
    if packets == [] then 0
    else (if packets[0].isHighPriority == high then packets[0].throttlingSize else 0) + Size(packets[1..], high)
  }

  function TotalSize(links: seq<Link>, high: bool): nat {
    if links == [] then 0 else Size(Live(links[0].sender), high) + TotalSize(links[1..], high)
  }

  /** The counters hold exactly the live packets, and within the capacity. */
  ghost predicate Balanced(w: World) {
    && w.counters.high == TotalSize(w.links, true)
    && w.counters.low == TotalSize(w.links, false)
    && w.counters.queued == w.counters.high + w.counters.low
    && w.counters.queued <= w.counters.capacity
  }

  lemma {:induction false} SizeConcat(p: seq<Packet>, q: seq<Packet>, high: bool)
    ensures Size(p + q, high) == Size(p, high) + Size(q, high)
  {
    if p == [] {
      assert p + q == q;
    } else {
      SizeConcat(p[1..], q, high);
      assert (p + q)[1..] == p[1..] + q;
    }
  }

  lemma {:induction false} TotalSizeUpdate(links: seq<Link>, i: nat, l: Link, high: bool)
    requires i < |links|
    ensures TotalSize(links[i := l], high) + Size(Live(links[i].sender), high)
         == TotalSize(links, high) + Size(Live(l.sender), high)
  {
    if i == 0 {
      assert links[i := l][1..] == links[1..];
    } else {
      TotalSizeUpdate(links[1..], i - 1, l, high);
      assert links[i := l][1..] == links[1..][i - 1 := l];
    }
  }

  lemma {:induction false} TotalSizeAppend(links: seq<Link>, l: Link, high: bool)
    ensures TotalSize(links + [l], high) == TotalSize(links, high) + Size(Live(l.sender), high)
  {
    if links != [] {
      TotalSizeAppend(links[1..], l, high);
      assert (links + [l])[1..] == links[1..] + [l];
    }
  }

  /** The counters without some of what they hold. */
  function Less(c: Counters, high: nat, low: nat): Counters
    requires high <= c.high && low <= c.low && c.queued == c.high + c.low
  {
    c.(queued := c.queued - high - low, high := c.high - high, low := c.low - low)
  }

  /** Dropping live packets subtracts exactly their sizes, and never takes the branch that resets. */
  lemma {:induction false} DropAllSubtracts(c: Counters, packets: seq<Packet>)
    requires c.queued == c.high + c.low && Size(packets, true) <= c.high && Size(packets, false) <= c.low
    ensures DropAll(c, packets) == Some(Less(c, Size(packets, true), Size(packets, false)))
    ensures packets != [] ==> !TooMuch(c, packets[0].throttlingSize)
    decreases packets
  {
    if packets != [] {
      DropAllSubtracts(Dropped(c, packets[0]).value, packets[1..]);
    }
  }

  function SendingSize(s: Sender, high: bool): nat {
    if s.sending.Some? && s.sending.value.isHighPriority == high then s.sending.value.throttlingSize else 0
  }

  lemma LiveSize(s: Sender, high: bool)
    ensures Size(Live(s), high) == Size(s.queues.high, high) + Size(s.queues.normal, high)
                                 + Size(s.queues.low, high) + SendingSize(s, high)
  {
    var q, sending := s.queues, if s.sending.Some? then [s.sending.value] else [];
    SizeConcat(q.All(), sending, high);
    SizeConcat(q.high + q.normal, q.low, high);
    SizeConcat(q.high, q.normal, high);
  }

  lemma QueuedSize(s: Sender, data: Bytes, priority: Priority, high: bool)
    ensures Size(Live(Queued(s, data, priority)), high)
         == Size(Live(s), high) + (if (priority == High) == high then |data| else 0)
  {
    LiveSize(s, high);
    LiveSize(Queued(s, data, priority), high);
    SizeConcat(s.queues.At(priority), [NewPacket(data, priority)], high);
  }

  lemma PoppedSize(a: Assembler, s: Sender, high: bool)
    ensures Size(Live(Popped(a, s)), high) == Size(Live(s), high)
  {
    LiveSize(s, high);
    LiveSize(Popped(a, s), high);
  }

  /** The counters hold at least the packets of the sender. */
  ghost predicate Covers(c: Counters, s: Sender) {
    && Size(Live(s), true) <= c.high
    && Size(Live(s), false) <= c.low
    && c.queued == c.high + c.low <= c.capacity
  }

  /** The counters changed as the packets of the sender did. */
  ghost predicate Accounted(s: Sender, c: Counters, s1: Sender, c1: Counters) {
    && c1.high + Size(Live(s), true) == c.high + Size(Live(s1), true)
    && c1.low + Size(Live(s), false) == c.low + Size(Live(s1), false)
    && c1.queued == c1.high + c1.low <= c1.capacity
  }

  lemma SendAccounted(a: Assembler, l: Link, c: Counters, data: Bytes, priority: Priority)
    requires Covers(c, l.sender)
    ensures var after := SendStep(a, l, c, data, priority);
            Accounted(l.sender, c, after.link.sender, after.counters)
  {
    if IsQueued(a, c, data, priority) {
      QueuedSize(l.sender, data, priority, true);
      QueuedSize(l.sender, data, priority, false);
      EnqueuedExactly(c, |data|, priority == High);
    }
  }

  lemma EnqueuedExactly(c: Counters, size: nat, high: bool)
    requires Enqueued(c, size, high).Some? && c.queued == c.high + c.low
    ensures var c1 := Enqueued(c, size, high).value;
            && c1.high == c.high + (if high then size else 0) && c1.low == c.low + (if high then 0 else size)
            && c1.queued == c1.high + c1.low <= c1.capacity
  {
  }

  /** Dropping the packet being sent never takes the branch that resets. */
  lemma DropAccounted(s: Sender, c: Counters)
    requires Covers(c, s) && s.sending.Some?
    ensures !TooMuch(c, s.sending.value.throttlingSize) && Dropped(c, s.sending.value).Some?
    ensures Accounted(s, c, s.(sending := None), Dropped(c, s.sending.value).value)
  {
    LiveSize(s, true);
    LiveSize(s, false);
    LiveSize(s.(sending := None), true);
    LiveSize(s.(sending := None), false);
  }

  lemma WritePacketAccounted(s: Sender, c: Counters, room: nat)
    requires Covers(c, s) && s.sending.Some?
    ensures WritePacket(s, c, room).Some?
    ensures var r := WritePacket(s, c, room).value; Accounted(s, c, r.sender, r.counters)
  {
    DropAccounted(s, c);
    var s1 := s.(sending := Some(Advanced(s.sending.value, room)));
    LiveSize(s, true);
    LiveSize(s, false);
    LiveSize(s1, true);
    LiveSize(s1, false);
  }

  lemma WriteNextAccounted(a: Assembler, s: Sender, c: Counters, room: Option<nat>)
    requires Covers(c, s)
    ensures WriteNext(a, s, c, room).Some?
    ensures var r := WriteNext(a, s, c, room).value; Accounted(s, c, r.sender, r.counters)
  {
    var s1 := Popped(a, s);
    PoppedSize(a, s, true);
    PoppedSize(a, s, false);
    if s1.sending.Some? {
      DropAccounted(s1, c);
      if room.Some? {
        WritePacketAccounted(s1, c, room.value);
      }
    }
  }

  lemma CloseAccounted(l: Link, c: Counters)
    requires Covers(c, l.sender)
    ensures CloseStep(l, c).Some?
    ensures var after := CloseStep(l, c).value; Accounted(l.sender, c, after.link.sender, after.counters)
  {
    DropAllSubtracts(c, Live(l.sender));
  }

  lemma BalancedCovers(w: World, i: nat)
    requires Balanced(w) && i < |w.links|
    ensures Covers(w.counters, w.links[i].sender)
  {
    TotalSizeUpdate(w.links, i, NEW_LINK, true);
    TotalSizeUpdate(w.links, i, NEW_LINK, false);
  }

  lemma PutBalanced(w: World, i: nat, after: After)
    requires Balanced(w) && i < |w.links|
    requires Accounted(w.links[i].sender, w.counters, after.link.sender, after.counters)
    ensures Balanced(Put(w, i, Some(after)).value)
  {
    TotalSizeUpdate(w.links, i, after.link, true);
    TotalSizeUpdate(w.links, i, after.link, false);
  }

  /** Every event keeps the counters balanced, and none takes a counter below zero. */
  lemma StepBalanced(a: Assembler, w: World, e: Event)
    requires Balanced(w)
    ensures Next(a, w, e).Some? && Balanced(Next(a, w, e).value)
  {
    match e {
      case Initialize(_, _, _) =>
      case Open =>
        TotalSizeAppend(w.links, NEW_LINK, true);
        TotalSizeAppend(w.links, NEW_LINK, false);
      case Send(i, data, priority) =>
        if CanUse(w, i) {
          BalancedCovers(w, i);
          SendAccounted(a, w.links[i], w.counters, data, priority);
          PutBalanced(w, i, SendStep(a, w.links[i], w.counters, data, priority));
        }
      case Write(i, room) =>
        if CanUse(w, i) {
          BalancedCovers(w, i);
          WriteNextAccounted(a, w.links[i].sender, w.counters, room);
          PutBalanced(w, i, WriteStep(a, w.links[i], w.counters, room).value);
        }
      case Readable(i, inputs) =>
        if i < |w.links| {
          PutBalanced(w, i, After(ReadStep(a, w.links[i], inputs), w.counters));
        }
      case Close(i) =>
        if CanUse(w, i) {
          BalancedCovers(w, i);
          CloseAccounted(w.links[i], w.counters);
          PutBalanced(w, i, CloseStep(w.links[i], w.counters).value);
        }
    }
  }
}
