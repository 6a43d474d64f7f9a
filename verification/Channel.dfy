/**
The instrumented channel for runs in which each operation ends before the next begins.

Every method performs the source's operations on the fields in the source's order. A ghost timeline
records the clock and the depth after each operation that moved a value, which is what the capacity
marker and the time at capacity are proved against.
*/
module Channel {
  import opened Wrappers

  // The moments at which the depth changed, each with the depth held from then on.
  datatype Timeline = Opened | Moved(before: Timeline, time: nat, depth: nat)

  // A send this long counts as blocked.
  const BLOCKED_NS: nat := 1_000_000

  datatype Received<+T> = Value(value: T) | Empty | Disconnected

  // The clock reading in nanoseconds, never zero: zero means the queue is not full.
  function NowNs(elapsed: nat): nat {
    Max(1, elapsed)
  }

  predicate IsFull(capacity: Option<nat>, depth: nat) {
    capacity.Some? && depth == capacity.value
  }

  /** The summed length of the windows during which the depth was at capacity and which have closed. */
  function FullTime(capacity: Option<nat>, timeline: Timeline): int {
    match timeline
    case Opened => 0
    case Moved(before, time, _) =>
      FullTime(capacity, before) + if before.Moved? && IsFull(capacity, before.depth) then time - before.time else 0
  }

  // Every moment is after the clock's start and no earlier than the one before it.
  predicate Monotone(timeline: Timeline) {
    timeline.Moved? ==>
      timeline.time >= (if timeline.before.Moved? then timeline.before.time else 1) && Monotone(timeline.before)
  }

  function FirstTime(timeline: Timeline): nat {
    match timeline
    case Opened => 0
    case Moved(before, time, _) => if before.Moved? then FirstTime(before) else time
  }

  function HighestDepth(timeline: Timeline): nat {
    match timeline
    case Opened => 0
    case Moved(before, _, depth) => Max(HighestDepth(before), depth)
  }

  /** The time at capacity never exceeds the time that has passed. */
  lemma {:induction false} FullTimeWithinElapsed(capacity: Option<nat>, timeline: Timeline)
    requires Monotone(timeline) && timeline.Moved?
    ensures 0 <= FullTime(capacity, timeline) <= timeline.time - FirstTime(timeline) && FirstTime(timeline) >= 1
  {
    if timeline.before.Moved? { FullTimeWithinElapsed(capacity, timeline.before); }
  }

  // The marker is set exactly while the queue is full, to the moment it became so, and the closed
  // windows are summed.
  ghost predicate Timed(capacity: Option<nat>, depth: nat, since: nat, total: nat, timeline: Timeline) {
    && (since != 0 <==> IsFull(capacity, depth))
    && Monotone(timeline)
    && depth == (if timeline.Moved? then timeline.depth else 0)
    && (since != 0 ==> timeline.Moved? && since == timeline.time)
    && total == FullTime(capacity, timeline)
  }

  // A queue that was not full takes one more: no window closes, and one opens if that fills it.
  lemma TimedByRaise(capacity: Option<nat>, depth: nat, since: nat, total: nat, timeline: Timeline, now: nat)
    requires Timed(capacity, depth, since, total, timeline) && !IsFull(capacity, depth)
    requires (capacity.Some? ==> capacity.value > 0) && now >= 1 && (timeline.Moved? ==> timeline.time <= now)
    ensures Timed(capacity, depth + 1, if IsFull(capacity, depth + 1) then now else 0, total, Moved(timeline, now, depth + 1))
  {
  }

  // One is taken: the window of a full queue closes.
  lemma TimedByLower(capacity: Option<nat>, depth: nat, since: nat, total: nat, timeline: Timeline, now: nat)
    requires Timed(capacity, depth, since, total, timeline) && depth > 0 && (capacity.Some? ==> depth <= capacity.value)
    requires now >= 1 && timeline.Moved? && timeline.time <= now
    ensures since != 0 <==> capacity.Some? && depth >= capacity.value
    ensures Timed(capacity, depth - 1, 0, total + if since != 0 then Max(0, now - since) else 0, Moved(timeline, now, depth - 1))
  {
  }

  class Channel<T> {
    const capacity: Option<nat>
    var queue: seq<T>
    var receiverDropped: bool
    var sendersDropped: bool
    var sent: nat
    var received: nat
    var depth: nat
    var peakDepth: nat
    var capacitySince: nat
    var timeAtCapacity: nat
    var disconnected: nat
    var sendWait: nat
    var receiveWait: nat
    var blockedSends: nat
    ghost var timeline: Timeline
    ghost var highest: nat

    /** What holds between any two operations. */
    ghost predicate Valid()
      reads this
    {
      && (capacity.Some? ==> 0 < capacity.value && |queue| <= capacity.value)
      && depth == |queue| == sent - received
      && peakDepth == highest && depth <= highest
      && Timed(capacity, depth, capacitySince, timeAtCapacity, timeline)
    }

    // The clock has not gone back behind the last moment.
    ghost predicate ClockAt(elapsed: nat)
      reads this
    {
      timeline.Moved? ==> timeline.time <= NowNs(elapsed)
    }

    constructor (capacity: Option<nat>)
      requires capacity.Some? ==> capacity.value > 0
      ensures Valid() && this.capacity == capacity && queue == [] && timeline == Opened && !receiverDropped && !sendersDropped
      ensures sent == received == highest == sendWait == receiveWait == blockedSends == 0
    {
      this.capacity := capacity;
      queue, receiverDropped, sendersDropped := [], false, false;
      sent, received, depth, peakDepth := 0, 0, 0, 0;
      capacitySince, timeAtCapacity, disconnected := 0, 0, 0;
      sendWait, receiveWait, blockedSends := 0, 0, 0;
      timeline, highest := Opened, 0;
    }

    method MarkCapacityIfFull(elapsed: nat)
      modifies this`capacitySince
      ensures capacitySince ==
              if capacity.Some? && depth >= capacity.value && old(capacitySince) == 0 then NowNs(elapsed) else old(capacitySince)
    {
      if capacity.Some? && depth >= capacity.value {
        if capacitySince == 0 {
          capacitySince := NowNs(elapsed);
        }
      }
    }

    // The weak exchange fails `spurious` times though the peak is as expected, then succeeds.
    method UpdatePeak(value: nat, spurious: nat)
      modifies this`peakDepth
      ensures peakDepth == Max(old(peakDepth), value)
    {
      var current := peakDepth;
      var failures := spurious;
      while value > current
        invariant current == old(peakDepth) == peakDepth
        decreases failures, value - current
      {
        if failures == 0 {
          peakDepth := value;
          break;
        } else {
          failures := failures - 1;
          current := peakDepth;
        }
      }
    }

    method DecrementDepth(elapsed: nat)
      modifies this`depth, this`capacitySince, this`timeAtCapacity
      ensures depth == Max(0, old(depth) - 1)
      ensures if capacity.Some? && old(depth) >= capacity.value then
                && capacitySince == 0
                && timeAtCapacity == old(timeAtCapacity) + if old(capacitySince) != 0 then Max(0, NowNs(elapsed) - old(capacitySince)) else 0
              else
                capacitySince == old(capacitySince) && timeAtCapacity == old(timeAtCapacity)
    {
      var previous := depth;
      depth := Max(0, depth - 1);
      if capacity.Some? && previous >= capacity.value {
        var since := capacitySince;
        capacitySince := 0;
        if since != 0 {
          timeAtCapacity := timeAtCapacity + Max(0, NowNs(elapsed) - since);
        }
      }
    }

    // A pushed value is counted twice and its depth published.
    method PushAndCount(value: T, spurious: nat)
      modifies this`queue, this`sent, this`depth, this`peakDepth
      ensures queue == old(queue) + [value] && sent == old(sent) + 1 && depth == old(depth) + 1 && peakDepth == Max(old(peakDepth), depth)
    {
      queue := queue + [value];
      sent := sent + 1;
      depth := depth + 1;
      UpdatePeak(depth, spurious);
    }

    // A successful push: the value, the counters, the peak, and the marker.
    method Deliver(value: T, elapsed: nat, spurious: nat)
      requires Valid() && ClockAt(elapsed) && !IsFull(capacity, |queue|)
      modifies this`queue, this`sent, this`depth, this`peakDepth, this`capacitySince, this`timeline, this`highest
      ensures Valid() && queue == old(queue) + [value] && sent == old(sent) + 1
      ensures highest == Max(old(highest), |queue|) && timeline == Moved(old(timeline), NowNs(elapsed), |queue|)
    {
      assert capacitySince == 0 && (capacity.Some? ==> depth < capacity.value);
      TimedByRaise(capacity, depth, 0, timeAtCapacity, timeline, NowNs(elapsed));
      PushAndCount(value, spurious);
      MarkCapacityIfFull(elapsed);
      highest, timeline := Max(highest, depth), Moved(timeline, NowNs(elapsed), depth);
    }

    // A queue that is full between two operations is marked already.
    method MarkBeforePush(elapsed: nat)
      requires Valid()
      modifies this`capacitySince
      ensures capacitySince == old(capacitySince)
    {
      if capacity.Some? {
        MarkCapacityIfFull(elapsed);
      }
    }

    // A slow send counts as blocked on a bounded channel only.
    method CountWait(wait: nat)
      modifies this`sendWait, this`blockedSends
      ensures sendWait == old(sendWait) + wait
      ensures blockedSends == old(blockedSends) + if capacity.Some? && wait >= BLOCKED_NS then 1 else 0
    {
      sendWait := sendWait + wait;
      if capacity.Some? && wait >= BLOCKED_NS {
        blockedSends := blockedSends + 1;
      }
    }

    /**
    Sends one value. The caller has a sender, and a full queue has no one to empty it, so there is room
    or no receiver is left.
    */
    method Send(value: T, elapsed: nat, spurious: nat, wait: nat) returns (ok: bool)
      requires Valid() && ClockAt(elapsed)
      requires !sendersDropped
      requires receiverDropped || !IsFull(capacity, |queue|)
      modifies this`queue, this`sent, this`depth, this`peakDepth, this`capacitySince, this`disconnected
      modifies this`sendWait, this`blockedSends, this`timeline, this`highest
      ensures Valid()
      ensures ok == !receiverDropped
      ensures !ok ==> disconnected == old(disconnected) + 1 && queue == old(queue) && sent == old(sent) && peakDepth == old(peakDepth)
                      && capacitySince == old(capacitySince) && timeline == old(timeline) && highest == old(highest)
      ensures !ok ==> sendWait == old(sendWait) && blockedSends == old(blockedSends)
      ensures ok ==> sendWait == old(sendWait) + wait
                     && blockedSends == old(blockedSends) + if capacity.Some? && wait >= BLOCKED_NS then 1 else 0
      ensures ok ==> disconnected == old(disconnected) && queue == old(queue) + [value] && sent == old(sent) + 1
                     && highest == Max(old(highest), |queue|) && timeline == Moved(old(timeline), NowNs(elapsed), |queue|)
    {
      MarkBeforePush(elapsed);
      if receiverDropped {
        disconnected := disconnected + 1;
        return false;
      }
      Deliver(value, elapsed, spurious);
      CountWait(wait);
      return true;
    }

    method DropReceiver()
      requires Valid()
      modifies this`receiverDropped
      ensures Valid() && receiverDropped
    {
      receiverDropped := true;
    }

    method DropSenders()
      requires Valid()
      modifies this`sendersDropped
      ensures Valid() && sendersDropped
    {
      sendersDropped := true;
    }

    method CountReceived(elapsed: nat)
      requires depth > 0
      modifies this`received, this`depth, this`capacitySince, this`timeAtCapacity
      ensures received == old(received) + 1 && depth == old(depth) - 1
      ensures if capacity.Some? && old(depth) >= capacity.value then
                && capacitySince == 0
                && timeAtCapacity == old(timeAtCapacity) + if old(capacitySince) != 0 then Max(0, NowNs(elapsed) - old(capacitySince)) else 0
              else
                capacitySince == old(capacitySince) && timeAtCapacity == old(timeAtCapacity)
    {
      received := received + 1;
      DecrementDepth(elapsed);
    }

    // What taking a value off the queue does to everything else.
    method Take(elapsed: nat) returns (value: T)
      requires Valid() && ClockAt(elapsed) && queue != []
      modifies this`queue, this`received, this`depth, this`capacitySince, this`timeAtCapacity, this`timeline
      ensures Valid()
      ensures value == old(queue)[0] && queue == old(queue)[1..] && received == old(received) + 1
      ensures timeline == Moved(old(timeline), NowNs(elapsed), |queue|)
    {
      TimedByLower(capacity, depth, capacitySince, timeAtCapacity, timeline, NowNs(elapsed));
      value := queue[0];
      queue := queue[1..];
      CountReceived(elapsed);
      timeline := Moved(timeline, NowNs(elapsed), depth);
    }

    /** Receives one value; an empty queue has no sender left to fill it. */
    method Recv(elapsed: nat, wait: nat) returns (result: Received<T>)
      requires Valid() && ClockAt(elapsed) && !receiverDropped
      requires queue != [] || sendersDropped
      modifies this`queue, this`received, this`depth, this`capacitySince, this`timeAtCapacity, this`disconnected
      modifies this`receiveWait, this`timeline
      ensures Valid() && receiveWait == old(receiveWait) + wait
      ensures if old(queue) != [] then
                && result == Value(old(queue)[0]) && queue == old(queue)[1..] && received == old(received) + 1
                && disconnected == old(disconnected) && timeline == Moved(old(timeline), NowNs(elapsed), |queue|)
              else
                && result == Disconnected && queue == [] && received == old(received)
                && disconnected == old(disconnected) + 1 && timeline == old(timeline)
    {
      receiveWait := receiveWait + wait;
      if queue == [] {
        disconnected := disconnected + 1;
        return Disconnected;
      }
      var value := Take(elapsed);
      return Value(value);
    }

    /** Receives one value if one is waiting; finding none is counted nowhere. */
    method TryRecv(elapsed: nat) returns (result: Received<T>)
      requires Valid() && ClockAt(elapsed) && !receiverDropped
      modifies this`queue, this`received, this`depth, this`capacitySince, this`timeAtCapacity, this`timeline
      ensures Valid()
      ensures if old(queue) != [] then
                && result == Value(old(queue)[0]) && queue == old(queue)[1..] && received == old(received) + 1
                && timeline == Moved(old(timeline), NowNs(elapsed), |queue|)
              else
                && result == (if sendersDropped then Disconnected else Empty) && queue == [] && received == old(received)
                && timeline == old(timeline)
    {
      if queue == [] {
        return if sendersDropped then Disconnected else Empty;
      }
      var value := Take(elapsed);
      return Value(value);
    }
  }

  /**
  Between operations the capacity marker is set exactly while the depth is at capacity, and the
  accumulated time at capacity is the summed closed full windows, never more than the elapsed time.
  */
  lemma CapacityLaws<T>(channel: Channel<T>)
    requires channel.Valid()
    ensures channel.capacitySince != 0 <==> IsFull(channel.capacity, channel.depth)
    ensures channel.timeAtCapacity == FullTime(channel.capacity, channel.timeline)
    ensures channel.timeline.Opened? ==> channel.timeAtCapacity == 0
    ensures channel.timeline.Moved? ==> channel.timeAtCapacity < channel.timeline.time
  {
    if channel.timeline.Moved? {
      FullTimeWithinElapsed(channel.capacity, channel.timeline);
    }
  }

  // ---- Whole runs ----

  datatype Operation<T> =
    | SendOne(value: T, elapsed: nat, spurious: nat, wait: nat)
    | ReceiveOne(elapsed: nat, wait: nat)
    | TryReceiveOne(elapsed: nat)
    | CloseReceiver
    | CloseSenders

  // What a list of operations comes to, read off the list alone.
  datatype Outline<T> = Outline(pushed: seq<T>, taken: nat, receiverDropped: bool, sendersDropped: bool, timeline: Timeline)

  function Depth<T>(o: Outline<T>): int {
    |o.pushed| - o.taken
  }

  predicate ClockOn<T>(o: Outline<T>, elapsed: nat) {
    o.timeline.Moved? ==> o.timeline.time <= NowNs(elapsed)
  }

  function Noted<T>(o: Outline<T>, elapsed: nat): Outline<T>
    requires o.taken <= |o.pushed|
  {
    o.(timeline := Moved(o.timeline, NowNs(elapsed), Depth(o)))
  }

  /** What an operation does, or none when it would block, its half is gone, or the clock went back. */
  function Operate<T>(capacity: Option<nat>, o: Outline<T>, operation: Operation<T>): (next: Option<Outline<T>>)
    requires o.taken <= |o.pushed|
    ensures next.Some? ==> next.value.taken <= |next.value.pushed|
  {
    match operation
    case SendOne(value, elapsed, _, _) =>
      if o.sendersDropped || !ClockOn(o, elapsed) then None
      else if o.receiverDropped then Some(o)
      else if IsFull(capacity, Depth(o)) then None
      else Some(Noted(o.(pushed := o.pushed + [value]), elapsed))
    case ReceiveOne(elapsed, _) =>
      if o.receiverDropped || !ClockOn(o, elapsed) then None
      else if Depth(o) > 0 then Some(Noted(o.(taken := o.taken + 1), elapsed))
      else if o.sendersDropped then Some(o)
      else None
    case TryReceiveOne(elapsed) =>
      if o.receiverDropped || !ClockOn(o, elapsed) then None
      else Some(if Depth(o) > 0 then Noted(o.(taken := o.taken + 1), elapsed) else o)
    case CloseReceiver => Some(o.(receiverDropped := true))
    case CloseSenders => Some(o.(sendersDropped := true))
  }

  function OutlineOf<T>(capacity: Option<nat>, operations: seq<Operation<T>>): (o: Option<Outline<T>>)
    ensures o.Some? ==> o.value.taken <= |o.value.pushed|
  {
    if operations == [] then Some(Outline([], 0, false, false, Opened))
    else
      var before := OutlineOf(capacity, operations[..|operations| - 1]);
      if before.None? then None else Operate(capacity, before.value, operations[|operations| - 1])
  }

  lemma {:induction false} EarlierEnabled<T>(capacity: Option<nat>, operations: seq<Operation<T>>, n: nat)
    requires OutlineOf(capacity, operations).Some? && n <= |operations|
    ensures OutlineOf(capacity, operations[..n]).Some?
  {
    if n < |operations| {
      assert operations[..|operations| - 1][..n] == operations[..n];
      EarlierEnabled(capacity, operations[..|operations| - 1], n);
    } else {
      assert operations[..n] == operations;
    }
  }

  // The channel and what was received from it are what the operations so far come to.
  ghost predicate Follows<T>(channel: Channel<T>, o: Outline<T>, got: seq<T>)
    reads channel
    requires o.taken <= |o.pushed|
  {
    && channel.Valid()
    && channel.queue == o.pushed[o.taken..] && got == o.pushed[..o.taken]
    && channel.sent == |o.pushed| && channel.received == o.taken
    && channel.receiverDropped == o.receiverDropped && channel.sendersDropped == o.sendersDropped
    && channel.timeline == o.timeline && channel.highest == HighestDepth(o.timeline)
  }

  lemma SendMoves<T>(capacity: Option<nat>, o: Outline<T>, operation: Operation<T>)
    requires operation.SendOne? && o.taken <= |o.pushed| && Operate(capacity, o, operation).Some?
    ensures var next := Operate(capacity, o, operation).value;
            if o.receiverDropped then next == o
            else
              && !IsFull(capacity, Depth(o))
              && next == o.(pushed := o.pushed + [operation.value], timeline := Moved(o.timeline, NowNs(operation.elapsed), Depth(o) + 1))
              && next.pushed[o.taken..] == o.pushed[o.taken..] + [operation.value] && next.pushed[..o.taken] == o.pushed[..o.taken]
  {
  }

  method PerformSend<T>(channel: Channel<T>, ghost o: Outline<T>, operation: Operation<T>, ghost got: seq<T>)
    requires operation.SendOne? && o.taken <= |o.pushed| && Follows(channel, o, got) && Operate(channel.capacity, o, operation).Some?
    modifies channel
    ensures Follows(channel, Operate(channel.capacity, o, operation).value, got)
  {
    SendMoves(channel.capacity, o, operation);
    var _ := channel.Send(operation.value, operation.elapsed, operation.spurious, operation.wait);
  }

  method PerformReceive<T>(channel: Channel<T>, ghost o: Outline<T>, operation: Operation<T>, got: seq<T>) returns (more: seq<T>)
    requires operation.ReceiveOne? || operation.TryReceiveOne?
    requires o.taken <= |o.pushed| && Follows(channel, o, got) && Operate(channel.capacity, o, operation).Some?
    modifies channel
    ensures Follows(channel, Operate(channel.capacity, o, operation).value, more)
  {
    if Depth(o) > 0 {
      assert o.pushed[o.taken..][1..] == o.pushed[o.taken + 1..];
      assert o.pushed[..o.taken + 1] == o.pushed[..o.taken] + [o.pushed[o.taken]];
    }
    var result: Received<T>;
    if operation.ReceiveOne? {
      result := channel.Recv(operation.elapsed, operation.wait);
    } else {
      result := channel.TryRecv(operation.elapsed);
    }
    more := if result.Value? then got + [result.value] else got;
  }

  method Perform<T>(channel: Channel<T>, ghost o: Outline<T>, operation: Operation<T>, got: seq<T>) returns (more: seq<T>)
    requires o.taken <= |o.pushed| && Follows(channel, o, got) && Operate(channel.capacity, o, operation).Some?
    modifies channel
    ensures Follows(channel, Operate(channel.capacity, o, operation).value, more)
  {
    more := got;
    if operation.SendOne? {
      PerformSend(channel, o, operation, got);
    } else if operation.CloseReceiver? {
      channel.DropReceiver();
    } else if operation.CloseSenders? {
      channel.DropSenders();
    } else {
      more := PerformReceive(channel, o, operation, got);
    }
  }

  method PerformEach<T>(channel: Channel<T>, operations: seq<Operation<T>>) returns (got: seq<T>)
    requires OutlineOf(channel.capacity, operations).Some? && Follows(channel, Outline([], 0, false, false, Opened), [])
    modifies channel
    ensures Follows(channel, OutlineOf(channel.capacity, operations).value, got)
  {
    got := [];
    ghost var o: Outline<T> := Outline([], 0, false, false, Opened);
    for i := 0 to |operations|
      invariant OutlineOf(channel.capacity, operations[..i]) == Some(o) && o.taken <= |o.pushed| && Follows(channel, o, got)
    {
      EarlierEnabled(channel.capacity, operations, i + 1);
      assert operations[..i + 1][..i] == operations[..i];
      got := Perform(channel, o, operations[i], got);
      o := Operate(channel.capacity, o, operations[i]).value;
    }
    assert operations[..|operations|] == operations;
  }

  /**
  Any run of operations that do not overlap, on a clock that does not go back. What was received is what
  was first sent, the peak is the highest depth of the run, the marker is set exactly while the depth is
  at capacity, and the time at capacity is the summed full windows of the run, within the time it spans.
  */
  method PerformAll<T>(capacity: Option<nat>, operations: seq<Operation<T>>) returns (channel: Channel<T>, got: seq<T>)
    requires capacity.Some? ==> capacity.value > 0
    requires OutlineOf(capacity, operations).Some?
    ensures fresh(channel) && channel.Valid() && channel.capacity == capacity
    ensures var o := OutlineOf(capacity, operations).value;
            && got + channel.queue == o.pushed && |got| == o.taken && channel.depth == Depth(o) == channel.sent - channel.received
            && channel.peakDepth == HighestDepth(o.timeline)
            && (channel.capacitySince != 0 <==> IsFull(capacity, Depth(o)))
            && channel.timeAtCapacity == FullTime(capacity, o.timeline)
            && (o.timeline.Opened? ==> channel.timeAtCapacity == 0)
            && (o.timeline.Moved? ==> channel.timeAtCapacity <= o.timeline.time - FirstTime(o.timeline))
  {
    channel := new Channel(capacity);
    got := PerformEach(channel, operations);
    if channel.timeline.Moved? {
      FullTimeWithinElapsed(capacity, channel.timeline);
    }
  }
}
