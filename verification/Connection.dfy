/** One end of a connection: its send queues, the packet being sent and its receive buffer. */
module Connection {
  import opened Framing
  import opened Throttling
  import opened Wrappers

  datatype Priority = High | Normal | Low

  /** A packet, how much of it has been sent, and what it was accounted for when it was created. */
  datatype Packet = Packet(data: Bytes, sendingPos: nat, isHighPriority: bool, throttlingSize: nat) {
    predicate IsSendCompleted() {
      sendingPos >= |data|
    }
  }

  // ---------------------------------------------------------------------------------------
  // The priority queue
  // ---------------------------------------------------------------------------------------

  datatype Queues = Queues(high: seq<Packet>, normal: seq<Packet>, low: seq<Packet>) {

    function At(priority: Priority): seq<Packet> {
      match priority
      case High => high
      case Normal => normal
      case Low => low
    }

    function With(priority: Priority, queue: seq<Packet>): Queues {
      match priority
      case High => this.(high := queue)
      case Normal => this.(normal := queue)
      case Low => this.(low := queue)
    }

    /** The queue `pop_front` takes from. */
    function First(): Option<Priority> {
      if high != [] then Some(High)
      else if normal != [] then Some(Normal)
      else if low != [] then Some(Low)
      else None
    }

    function All(): seq<Packet> {
      high + normal + low
    }
  }

  /** What a connection holds to send. */
  datatype Sender = Sender(queues: Queues, sending: Option<Packet>)

  const NO_QUEUES: Queues := Queues([], [], [])

  // ---------------------------------------------------------------------------------------
  // Sending
  // ---------------------------------------------------------------------------------------

  datatype SendStatus = Accepted | OversizedPacket | QueueFull

  function StatusOfSend(a: Assembler, c: Counters, data: Bytes, priority: Priority): SendStatus {
    if data == [] then Accepted
    else if |data| > a.maxDataLen then OversizedPacket
    else if Enqueued(c, |data|, priority == High).None? then QueueFull
    else Accepted
  }

  /** Whether `send` puts a packet in a queue. */
  predicate IsQueued(a: Assembler, c: Counters, data: Bytes, priority: Priority) {
    data != [] && StatusOfSend(a, c, data, priority) == Accepted
  }

  function NewPacket(data: Bytes, priority: Priority): Packet {
    Packet(data, 0, priority == High, |data|)
  }

  function Queued(s: Sender, data: Bytes, priority: Priority): Sender {
    s.(queues := s.queues.With(priority, s.queues.At(priority) + [NewPacket(data, priority)]))
  }

  // ---------------------------------------------------------------------------------------
  // Writing
  // ---------------------------------------------------------------------------------------

  datatype WriteStatus = Complete | Ongoing | Oversized | SocketError

  /** The queue to pop before writing, when no packet is being sent. */
  function ToPop(s: Sender): Option<Priority> {
    if s.sending.Some? then None else s.queues.First()
  }

  /** The sender once it has a packet to write, if it has any. */
  function Popped(a: Assembler, s: Sender): Sender {
    match ToPop(s)
    case None => s
    case Some(priority) =>
      var queue := s.queues.At(priority);
      Sender(s.queues.With(priority, queue[1..]), Some(queue[0].(data := Frame(a, queue[0].data))))
  }

  /** The next bytes of the packet when the socket takes up to `room` of them. */
  function NextBytes(p: Packet, room: nat): Bytes {
    if p.IsSendCompleted() then []
    else if room < |p.data| - p.sendingPos then p.data[p.sendingPos..p.sendingPos + room]
    else p.data[p.sendingPos..]
  }

  function Advanced(p: Packet, room: nat): Packet {
    p.(sendingPos := p.sendingPos + |NextBytes(p, room)|)
  }

  datatype WriteResult = WriteResult(status: WriteStatus, sender: Sender, counters: Counters, bytes: Bytes)

  /** The end of a packet: it is dropped, which takes it out of the counters. */
  function Dropped(c: Counters, p: Packet): Option<Counters> {
    Dequeued(c, p.throttlingSize, p.isHighPriority)
  }

  /**
   `write_next_from_queue`, when the socket takes up to `room` bytes or fails for want of `room`.
   There is no result when a counter would go below zero.
   */
  function WriteNext(a: Assembler, s: Sender, c: Counters, room: Option<nat>): Option<WriteResult> {
    var s1 := Popped(a, s);
    if s1.sending.None? then Some(WriteResult(Complete, s, c, []))
    else if ToPop(s).Some? && |s.queues.At(ToPop(s).value)[0].data| > a.maxDataLen then
      var c1 := Dropped(c, s1.sending.value);
      if c1.None? then None else Some(WriteResult(Oversized, s1.(sending := None), c1.value, []))
    else if room.None? then Some(WriteResult(SocketError, s1, c, []))
    else WritePacket(s1, c, room.value)
  }

  function WritePacket(s: Sender, c: Counters, room: nat): Option<WriteResult>
    requires s.sending.Some?
  {
    var p := Advanced(s.sending.value, room);
    var bytes := NextBytes(s.sending.value, room);
    if !p.IsSendCompleted() then Some(WriteResult(Ongoing, s.(sending := Some(p)), c, bytes))
    else
      var c1 := Dropped(c, p);
      if c1.None? then None else Some(WriteResult(Complete, s.(sending := None), c1.value, bytes))
  }

  // ---------------------------------------------------------------------------------------
  // Reading
  // ---------------------------------------------------------------------------------------

  /** What one read of the socket gives. */
  datatype Read = Data(bytes: Bytes) | Interrupted | WouldBlock | Failure

  /** Whether `readable` reads on after this. */
  predicate GoesOn(input: Read) {
    input.Interrupted? || (input.Data? && input.bytes != [])
  }

  /** The bytes `readable` takes in, up to the end of the data or the first failure. */
  function TakenIn(inputs: seq<Read>): Bytes {
    if inputs == [] || !GoesOn(inputs[0]) then []
    else (if inputs[0].Data? then inputs[0].bytes else []) + TakenIn(inputs[1..])
  }

  predicate Fails(inputs: seq<Read>) {
    inputs != [] && (inputs[0].Failure? || (GoesOn(inputs[0]) && Fails(inputs[1..])))
  }

  class Connection {
    const assembler: Assembler
    const service: Service
    var recvBuf: Bytes
    var sendQueue: Queues
    var sendingPacket: Option<Packet>

    function View(): Sender
      reads this
    {
      Sender(sendQueue, sendingPacket)
    }

    constructor (assembler: Assembler, service: Service)
      ensures this.assembler == assembler && this.service == service
      ensures recvBuf == [] && View() == Sender(NO_QUEUES, None)
    {
      this.assembler := assembler;
      this.service := service;
      recvBuf := [];
      sendQueue := NO_QUEUES;
      sendingPacket := None;
    }

    /** `send`: an empty packet is dropped without an error. */
    method Send(data: Bytes, priority: Priority) returns (status: SendStatus)
      modifies this`sendQueue, service
      ensures status == StatusOfSend(assembler, old(service.View()), data, priority)
      ensures var queued := IsQueued(assembler, old(service.View()), data, priority);
              && View() == (if queued then Queued(old(View()), data, priority) else old(View()))
              && service.View() == (if queued then Enqueued(old(service.View()), |data|, priority == High).value
                                    else old(service.View()))
    {
      if data != [] {
        if |data| > assembler.maxDataLen {
          return OversizedPacket;
        }
        var size := service.OnEnqueue(|data|, priority == High);
        if size.None? {
          return QueueFull;
        }
        var packet := Packet(data, 0, priority == High, |data|);
        match priority {
          case High => sendQueue := sendQueue.(high := sendQueue.high + [packet]);
          case Normal => sendQueue := sendQueue.(normal := sendQueue.normal + [packet]);
          case Low => sendQueue := sendQueue.(low := sendQueue.low + [packet]);
        }
      }
      return Accepted;
    }

    /** `pop_front` of the send queue. */
    method PopFront() returns (r: Option<Packet>)
      modifies this`sendQueue
      ensures r.None? <==> old(sendQueue).First().None?
      ensures r.None? ==> sendQueue == old(sendQueue)
      ensures r.Some? ==> var p := old(sendQueue).First().value; var queue := old(sendQueue).At(p);
                r.value == queue[0] && sendQueue == old(sendQueue).With(p, queue[1..])
    {
      if sendQueue.high != [] {
        r := Some(sendQueue.high[0]);
        sendQueue := sendQueue.(high := sendQueue.high[1..]);
      } else if sendQueue.normal != [] {
        r := Some(sendQueue.normal[0]);
        sendQueue := sendQueue.(normal := sendQueue.normal[1..]);
      } else if sendQueue.low != [] {
        r := Some(sendQueue.low[0]);
        sendQueue := sendQueue.(low := sendQueue.low[1..]);
      } else {
        r := None;
      }
    }

    /**
     The socket takes up to `room` bytes, or fails when there is no `room`; `bytes` is what it took.
     */
    method WriteNextFromQueue(room: Option<nat>) returns (status: WriteStatus, bytes: Bytes)
      requires assembler.Valid() && WriteNext(assembler, View(), service.View(), room).Some?
      modifies this`sendQueue, this`sendingPacket, service
      ensures WriteResult(status, View(), service.View(), bytes)
           == WriteNext(assembler, old(View()), old(service.View()), room).value
    {
      bytes := [];
      if sendingPacket.None? {
        var item := PopFront();
        if item.None? {
          return Complete, [];
        }
        var packet := item.value;
        var ok, frame := Assemble(assembler, packet.data);
        if !ok {
          var _ := service.OnDequeue(packet.throttlingSize, packet.isHighPriority);
          return Oversized, [];
        }
        sendingPacket := Some(packet.(data := frame));
      }
      if room.None? {
        return SocketError, [];
      }
      var packet := sendingPacket.value;
      bytes := NextBytes(packet, room.value);
      sendingPacket := Some(packet.(sendingPos := packet.sendingPos + |bytes|));
      if sendingPacket.value.IsSendCompleted() {
        var _ := service.OnDequeue(packet.throttlingSize, packet.isHighPriority);
        sendingPacket := None;
        return Complete, bytes;
      }
      return Ongoing, bytes;
    }

    /** `readable`: takes in what the socket has, then loads at most one packet. */
    method Readable(inputs: seq<Read>) returns (failed: bool, packet: Option<Bytes>)
      requires assembler.Valid()
      modifies this`recvBuf
      ensures var buf := old(recvBuf) + TakenIn(inputs);
              && failed == Fails(inputs)
              && packet == (if failed then None else Loaded(assembler, buf))
              && recvBuf == (if failed then buf else Left(assembler, buf))
    {
      var k := 0;
      failed := false;
      while k < |inputs|
        invariant 0 <= k <= |inputs|
        invariant recvBuf + TakenIn(inputs[k..]) == old(recvBuf) + TakenIn(inputs)
        invariant Fails(inputs[k..]) <==> Fails(inputs)
      {
        assert inputs[k..][0] == inputs[k] && inputs[k..][1..] == inputs[k + 1..];
        match inputs[k] {
          case Data(bytes) =>
            if bytes == [] {
              break;
            }
            recvBuf := recvBuf + bytes;
          case Interrupted =>
          case WouldBlock =>
            break;
          case Failure =>
            failed := true;
            return failed, None;
        }
        k := k + 1;
      }
      assert recvBuf == old(recvBuf) + TakenIn(inputs) by {
        assert TakenIn(inputs[k..]) == [];
      }
      packet, recvBuf := Load(assembler, recvBuf);
    }
  }
}
