/**
 Accounting of the bytes that wait in the send queues of all connections.
 */
module Throttling {

  import opened Powers
  import opened Wrappers

  /** The decimal megabyte. */
  const MEGABYTE: nat := 1_000_000
  const USIZE_MAX: nat := TWO_64 - 1

  datatype Counters = Counters(
    capacity: nat, minThrottle: nat, maxThrottle: nat, queued: nat, high: nat, low: nat)

  const INITIAL: Counters := Counters(256 * MEGABYTE, 10 * MEGABYTE, 64 * MEGABYTE, 0, 0, 0)

  /** The thresholds `initialize` accepts; anything else stops the program. */
  predicate Accepted(c: Counters, capMb: nat, minMb: nat, maxMb: nat) {
    capMb > maxMb > minMb > 0 && USIZE_MAX / MEGABYTE >= capMb && c.queued <= capMb * MEGABYTE
  }

  function Initialized(c: Counters, capMb: nat, minMb: nat, maxMb: nat): Counters {
    c.(capacity := capMb * MEGABYTE, minThrottle := minMb * MEGABYTE, maxThrottle := maxMb * MEGABYTE)
  }

  /** `on_enqueue`: nothing when the queue is full. */
  function Enqueued(c: Counters, size: nat, high: bool): Option<Counters> {
    if size > c.capacity || c.queued > c.capacity - size then None
    else if high then Some(c.(queued := c.queued + size, high := c.high + size))
    else Some(c.(queued := c.queued + size, low := c.low + size))
  }

  /** The branch of `on_dequeue` that resets every counter. */
  predicate TooMuch(c: Counters, size: nat) {
    size > c.queued
  }

  /** `on_dequeue`: nothing when a counter would go below zero, which stops the program. */
  function Dequeued(c: Counters, size: nat, high: bool): Option<Counters> {
    if TooMuch(c, size) then Some(c.(queued := 0, high := 0, low := 0))
    else if (if high then c.high else c.low) < size then None
    else if high then Some(c.(queued := c.queued - size, high := c.high - size))
    else Some(c.(queued := c.queued - size, low := c.low - size))
  }

  /** The queue size goes down by the data, but never below zero, and stays the sum of its two parts. */
  lemma DequeuedSaturates(c: Counters, size: nat, high: bool)
    requires c.queued == c.high + c.low && Dequeued(c, size, high).Some?
    ensures var c1 := Dequeued(c, size, high).value;
            c1.queued == (if size > c.queued then 0 else c.queued - size) == c1.high + c1.low
  {
  }

  class Service {
    var queueCapacity: nat
    var minThrottleQueueSize: nat
    var maxThrottleQueueSize: nat
    var curQueueSize: nat
    var highQueueSize: nat
    var lowQueueSize: nat

    function View(): Counters
      reads this
    {
      Counters(queueCapacity, minThrottleQueueSize, maxThrottleQueueSize, curQueueSize, highQueueSize, lowQueueSize)
    }

    constructor ()
      ensures View() == INITIAL
    {
      queueCapacity := 256 * MEGABYTE;
      minThrottleQueueSize := 10 * MEGABYTE;
      maxThrottleQueueSize := 64 * MEGABYTE;
      curQueueSize, highQueueSize, lowQueueSize := 0, 0, 0;
    }

    method Initialize(capMb: nat, minMb: nat, maxMb: nat)
      requires Accepted(View(), capMb, minMb, maxMb)
      modifies this
      ensures View() == Initialized(old(View()), capMb, minMb, maxMb)
    {
      var cap := capMb * MEGABYTE;
      queueCapacity := cap;
      minThrottleQueueSize := minMb * MEGABYTE;
      maxThrottleQueueSize := maxMb * MEGABYTE;
    }

    /** The new queue size, or nothing when the queue is full. */
    method OnEnqueue(dataSize: nat, isHighPriority: bool) returns (r: Option<nat>)
      modifies this
      ensures r.Some? == Enqueued(old(View()), dataSize, isHighPriority).Some?
      ensures View() == if r.Some? then Enqueued(old(View()), dataSize, isHighPriority).value else old(View())
      ensures r.Some? ==> r.value == curQueueSize
    {
      if dataSize > queueCapacity {
        return None;
      }
      if curQueueSize > queueCapacity - dataSize {
        return None;
      }
      curQueueSize := curQueueSize + dataSize;
      if isHighPriority {
        highQueueSize := highQueueSize + dataSize;
      } else {
        lowQueueSize := lowQueueSize + dataSize;
      }
      return Some(curQueueSize);
    }

    /** The updated queue size. */
    method OnDequeue(dataSize: nat, isHighPriority: bool) returns (size: nat)
      requires Dequeued(View(), dataSize, isHighPriority).Some?
      modifies this
      ensures View() == Dequeued(old(View()), dataSize, isHighPriority).value
      ensures size == curQueueSize
    {
      if dataSize > curQueueSize {
        curQueueSize := 0;
        highQueueSize := 0;
        lowQueueSize := 0;
      } else {
        curQueueSize := curQueueSize - dataSize;
        if isHighPriority {
          highQueueSize := highQueueSize - dataSize;
        } else {
          lowQueueSize := lowQueueSize - dataSize;
        }
      }
      return curQueueSize;
    }
  }
}
