/**
The instrumented channel as a transition system.

Any number of threads send and receive at once. Every atomic operation of the source is one step,
so a thread may be interrupted between pushing a value and counting it, between popping a value and
lowering the depth, and between every load and compare-exchange. Each thread has a program counter
naming the atomic operation it performs next.

Beside the real state runs a history: what was pushed and popped, how often the depth was raised and
lowered, and how often lowering it found it at zero already.
*/
module ChannelProtocol {
  import opened Wrappers

  // The three atomic operations of marking a full queue.
  datatype MarkStage = LoadDepth | LoadMarker | ExchangeMarker

  datatype Pc<T> =
    | Idle
    | Marking(stage: MarkStage, value: T)      // before the push: mark a queue that is full already
    | Push(value: T)                           // hand the value to the queue
    | CountSent                                // pushed, not counted yet
    | RaiseDepth                               // counted, depth not raised yet
    | LoadPeak(seen: nat)                      // depth raised to `seen`
    | PeakLoop(seen: nat, current: nat)        // the compare-exchange loop of the peak
    | Remarking(again: MarkStage)              // after the push: mark the queue if this filled it
    | Pop(blocking: bool)                      // take a value from the queue
    | CountReceived                            // popped, not counted yet
    | LowerDepth                               // counted, depth not lowered yet
    | ClearMarker                              // the depth was at capacity: take the marker away
    | CloseWindow(since: nat)                  // add the full window that began at `since`

  // What the scheduler decides about the next step of a thread: what an idle thread begins, what
  // the clock reads, and whether a weak compare-exchange fails though the value was as expected.
  datatype Choice<T> =
    | BeginSend(message: T)
    | BeginReceive(waits: bool)
    | DropReceiver
    | DropSenders
    | Proceed(now: nat, spurious: bool)

  datatype Metrics = Metrics(sent: nat, received: nat, depth: nat, peak: nat, marker: nat, fullTime: nat, disconnected: nat)

  datatype History<T> = History(
    pushed: seq<T>,       // every value pushed, in order
    popped: seq<T>,       // every value popped, in order
    raises: nat,          // depth increments
    lowers: nat,          // depth decrements
    floors: nat,          // depth decrements that found zero
    highest: nat,         // the highest depth ever held
    published: set<nat>)  // the depths senders raised the counter to

  datatype State<T> = State(
    capacity: Option<nat>,
    queue: seq<T>,
    receiverDropped: bool,
    sendersDropped: bool,
    metrics: Metrics,
    pcs: seq<Pc<T>>,
    history: History<T>)

  ghost predicate Initial<T>(s: State<T>) {
    && (s.capacity.Some? ==> s.capacity.value > 0)
    && s.queue == []
    && !s.receiverDropped && !s.sendersDropped
    && s.metrics == Metrics(0, 0, 0, 0, 0, 0, 0)
    && (forall i :: 0 <= i < |s.pcs| ==> s.pcs[i].Idle?)
    && s.history == History([], [], 0, 0, 0, 0, {})
  }

  function Goto<T>(s: State<T>, t: nat, pc: Pc<T>): State<T>
    requires t < |s.pcs|
  {
    s.(pcs := s.pcs[t := pc])
  }

  // Where a thread is; a thread that does not exist does nothing.
  function At<T>(s: State<T>, t: nat): Pc<T> {
    if t < |s.pcs| then s.pcs[t] else Idle
  }

  predicate HasRoom<T>(s: State<T>) {
    s.capacity.None? || |s.queue| < s.capacity.value
  }

  predicate AtCapacity<T>(s: State<T>, depth: nat) {
    s.capacity.Some? && depth >= s.capacity.value
  }

  predicate Sending<T>(pc: Pc<T>) {
    pc.Marking? || pc.Push? || pc.CountSent? || pc.RaiseDepth? || pc.LoadPeak? || pc.PeakLoop? || pc.Remarking?
  }

  predicate Receiving<T>(pc: Pc<T>) {
    !pc.Idle? && !Sending(pc)
  }

  // Where marking goes on to once it is done.
  function AfterMark<T>(pc: Pc<T>): Pc<T>
    requires pc.Marking? || pc.Remarking?
  {
    if pc.Marking? then Push(pc.value) else Idle
  }

  function NextMark<T>(pc: Pc<T>, stage: MarkStage): Pc<T>
    requires pc.Marking? || pc.Remarking?
  {
    if pc.Marking? then Marking(stage, pc.value) else Remarking(stage)
  }

  // `mark_capacity_if_full`: two loads, then an exchange of zero for the clock reading.
  function MarkStep<T>(s: State<T>, t: nat, now: nat): State<T>
    requires t < |s.pcs| && (s.pcs[t].Marking? || s.pcs[t].Remarking?)
  {
    var pc := s.pcs[t];
    var stage := if pc.Marking? then pc.stage else pc.again;
    match stage
    case LoadDepth =>
      Goto(s, t, if AtCapacity(s, s.metrics.depth) then NextMark(pc, LoadMarker) else AfterMark(pc))
    case LoadMarker =>
      Goto(s, t, if s.metrics.marker == 0 then NextMark(pc, ExchangeMarker) else AfterMark(pc))
    case ExchangeMarker =>
      var marked := if s.metrics.marker == 0 then s.metrics.(marker := Max(1, now)) else s.metrics;
      Goto(s.(metrics := marked), t, AfterMark(pc))
  }

  // The push, the two counters, and the peak of `send`.
  function SendStep<T>(s: State<T>, t: nat, spurious: bool): Option<State<T>>
    requires t < |s.pcs| && Sending(s.pcs[t]) && !s.pcs[t].Marking? && !s.pcs[t].Remarking?
  {
    match s.pcs[t]
    case Push(value) =>
      if s.receiverDropped then
        Some(Goto(s.(metrics := s.metrics.(disconnected := s.metrics.disconnected + 1)), t, Idle))
      else if HasRoom(s) then
        Some(Goto(s.(queue := s.queue + [value], history := s.history.(pushed := s.history.pushed + [value])), t, CountSent))
      else
        None
    case CountSent =>
      Some(Goto(s.(metrics := s.metrics.(sent := s.metrics.sent + 1)), t, RaiseDepth))
    case RaiseDepth =>
      var depth := s.metrics.depth + 1;
      Some(Goto(s.(metrics := s.metrics.(depth := depth),
                   history := s.history.(raises := s.history.raises + 1, highest := Max(s.history.highest, depth),
                                         published := s.history.published + {depth})),
                t, LoadPeak(depth)))
    case LoadPeak(seen) =>
      Some(Goto(s, t, PeakLoop(seen, s.metrics.peak)))
    case PeakLoop(seen, current) =>
      var leave := if s.capacity.Some? then Remarking(LoadDepth) else Idle;
      if seen <= current then
        Some(Goto(s, t, leave))
      else if s.metrics.peak == current && !spurious then
        Some(Goto(s.(metrics := s.metrics.(peak := seen)), t, leave))
      else
        Some(Goto(s, t, PeakLoop(seen, s.metrics.peak)))
  }

  // `recv`, `try_recv`, and `decrement_depth`.
  function ReceiveStep<T>(s: State<T>, t: nat, now: nat): Option<State<T>>
    requires t < |s.pcs| && Receiving(s.pcs[t])
  {
    match s.pcs[t]
    case Pop(blocking) =>
      if s.queue != [] then
        Some(Goto(s.(queue := s.queue[1..], history := s.history.(popped := s.history.popped + [s.queue[0]])), t, CountReceived))
      else if !blocking then
        Some(Goto(s, t, Idle))
      else if s.sendersDropped then
        Some(Goto(s.(metrics := s.metrics.(disconnected := s.metrics.disconnected + 1)), t, Idle))
      else
        None
    case CountReceived =>
      Some(Goto(s.(metrics := s.metrics.(received := s.metrics.received + 1)), t, LowerDepth))
    case LowerDepth =>
      var previous := s.metrics.depth;
      Some(Goto(s.(metrics := s.metrics.(depth := Max(0, previous - 1)),
                   history := s.history.(lowers := s.history.lowers + 1,
                                         floors := s.history.floors + if previous == 0 then 1 else 0)),
                t, if AtCapacity(s, previous) then ClearMarker else Idle))
    case ClearMarker =>
      var since := s.metrics.marker;
      Some(Goto(s.(metrics := s.metrics.(marker := 0)), t, if since != 0 then CloseWindow(since) else Idle))
    case CloseWindow(since) =>
      var window := Max(0, Max(1, now) - since);
      Some(Goto(s.(metrics := s.metrics.(fullTime := s.metrics.fullTime + window)), t, Idle))
  }

  // An idle thread begins an operation, or drops a half of the channel no thread is using.
  function BeginStep<T>(s: State<T>, t: nat, choice: Choice<T>): Option<State<T>>
    requires t < |s.pcs| && s.pcs[t].Idle?
  {
    match choice
    case BeginSend(message) =>
      if s.sendersDropped then None
      else Some(Goto(s, t, if s.capacity.Some? then Marking(LoadDepth, message) else Push(message)))
    case BeginReceive(waits) =>
      if s.receiverDropped then None else Some(Goto(s, t, Pop(waits)))
    case DropReceiver =>
      if exists i :: 0 <= i < |s.pcs| && Receiving(s.pcs[i]) then None else Some(s.(receiverDropped := true))
    case DropSenders =>
      if exists i :: 0 <= i < |s.pcs| && Sending(s.pcs[i]) then None else Some(s.(sendersDropped := true))
    case Proceed(_, _) => None
  }

  /** One step of thread `t`, or none when it is blocked or the choice does not apply. */
  function Step<T>(s: State<T>, t: nat, choice: Choice<T>): Option<State<T>> {
    if t >= |s.pcs| then None
    else if s.pcs[t].Idle? then BeginStep(s, t, choice)
    else if !choice.Proceed? then None
    else if s.pcs[t].Marking? || s.pcs[t].Remarking? then Some(MarkStep(s, t, choice.now))
    else if Sending(s.pcs[t]) then SendStep(s, t, choice.spurious)
    else ReceiveStep(s, t, choice.now)
  }

  datatype Turn<T> = Turn(thread: nat, choice: Choice<T>)

  /** The state an interleaving leads to, or none when one of its steps is not enabled. */
  function Run<T>(s: State<T>, turns: seq<Turn<T>>): Option<State<T>> {
    if turns == [] then Some(s)
    else
      var before := Run(s, turns[..|turns| - 1]);
      var last := turns[|turns| - 1];
      if before.None? then None else Step(before.value, last.thread, last.choice)
  }

  /** No operation is in flight. */
  predicate Quiet<T>(s: State<T>) {
    forall i :: 0 <= i < |s.pcs| ==> s.pcs[i].Idle?
  }

  // ---- Counting the threads between two counters ----

  // What a thread has done to the queue but not yet to a counter, and the verdict on an operation begun.
  datatype Owed = SentCount | Raise | ReceivedCount | Lowering | Verdict

  predicate Owes<T>(pc: Pc<T>, owed: Owed) {
    match owed
    case SentCount => pc.CountSent?
    case Raise => pc.CountSent? || pc.RaiseDepth?
    case ReceivedCount => pc.CountReceived?
    case Lowering => pc.CountReceived? || pc.LowerDepth?
    case Verdict => pc.Marking? || pc.Push? || pc.Pop?
  }

  function Count<T>(pcs: seq<Pc<T>>, owed: Owed): nat {
    if pcs == [] then 0 else Count(pcs[..|pcs| - 1], owed) + if Owes(pcs[|pcs| - 1], owed) then 1 else 0
  }

  lemma {:induction false} CountUpdate<T>(pcs: seq<Pc<T>>, owed: Owed, t: nat, pc: Pc<T>)
    requires t < |pcs|
    ensures Count(pcs[t := pc], owed) == Count(pcs, owed) - (if Owes(pcs[t], owed) then 1 else 0) + (if Owes(pc, owed) then 1 else 0)
  {
    var last := |pcs| - 1;
    if t == last {
      assert pcs[t := pc][..last] == pcs[..last];
    } else {
      assert pcs[t := pc][..last] == pcs[..last][t := pc];
      CountUpdate(pcs[..last], owed, t, pc);
    }
  }

  lemma {:induction false} CountNone<T>(pcs: seq<Pc<T>>, owed: Owed)
    requires forall i :: 0 <= i < |pcs| ==> !Owes(pcs[i], owed)
    ensures Count(pcs, owed) == 0
  {
    if pcs != [] { CountNone(pcs[..|pcs| - 1], owed); }
  }

  lemma {:induction false} CountSole<T>(pcs: seq<Pc<T>>, owed: Owed, t: nat)
    requires t < |pcs|
    requires forall i :: 0 <= i < |pcs| && i != t ==> !Owes(pcs[i], owed)
    ensures Count(pcs, owed) == if Owes(pcs[t], owed) then 1 else 0
  {
    var last := |pcs| - 1;
    if t == last {
      CountNone(pcs[..last], owed);
    } else {
      CountSole(pcs[..last], owed, t);
    }
  }

  // ---- What every step keeps ----

  /** Values leave in the order they entered, none is lost or made up, and a bound is kept. */
  ghost predicate Fifo<T>(s: State<T>) {
    && s.history.pushed == s.history.popped + s.queue
    && (s.capacity.Some? ==> |s.queue| <= s.capacity.value)
  }

  /** Each counter is behind the queue by exactly the threads that owe it. */
  ghost predicate Accounted<T>(s: State<T>) {
    && s.metrics.sent + Count(s.pcs, SentCount) == |s.history.pushed|
    && s.history.raises + Count(s.pcs, Raise) == |s.history.pushed|
    && s.metrics.received + Count(s.pcs, ReceivedCount) == |s.history.popped|
    && s.history.lowers + Count(s.pcs, Lowering) == |s.history.popped|
    && s.metrics.depth == s.history.raises - s.history.lowers + s.history.floors
  }

  // The depth a thread in the peak update carries.
  predicate Carries<T>(pc: Pc<T>, depth: nat) {
    (pc.LoadPeak? || pc.PeakLoop?) && pc.seen == depth
  }

  /** The peak is a published depth, and short of the highest only while its sender still carries it. */
  ghost predicate PeakTracked<T>(s: State<T>) {
    && s.metrics.depth <= s.history.highest
    && s.metrics.peak <= s.history.highest
    && (s.metrics.peak == 0 || s.metrics.peak in s.history.published)
    && (s.history.highest == 0 || s.history.highest in s.history.published)
    && (forall d :: d in s.history.published ==> d <= s.history.highest)
    && (forall i :: 0 <= i < |s.pcs| && (s.pcs[i].LoadPeak? || s.pcs[i].PeakLoop?) ==> s.pcs[i].seen in s.history.published)
    && (forall i :: 0 <= i < |s.pcs| && s.pcs[i].PeakLoop? ==> s.pcs[i].current <= s.metrics.peak)
    && (s.metrics.peak == s.history.highest || exists i :: 0 <= i < |s.pcs| && Carries(s.pcs[i], s.history.highest))
  }

  ghost predicate Inv<T>(s: State<T>) {
    Fifo(s) && Accounted(s) && PeakTracked(s)
  }

  lemma InitialInv<T>(s: State<T>)
    requires Initial(s)
    ensures Inv(s)
  {
    forall owed: Owed ensures Count(s.pcs, owed) == 0 { CountNone(s.pcs, owed); }
  }

  // A step takes the head of the queue, adds to its end, or leaves it alone.
  ghost predicate QueueStep<T>(s: State<T>, s': State<T>) {
    && s'.capacity == s.capacity
    && (|| (s'.queue == s.queue && s'.history.pushed == s.history.pushed && s'.history.popped == s.history.popped)
        || (HasRoom(s) && |s'.history.pushed| > 0 && s'.history.popped == s.history.popped
            && var v := s'.history.pushed[|s'.history.pushed| - 1];
               s'.history.pushed == s.history.pushed + [v] && s'.queue == s.queue + [v])
        || (s.queue != [] && s'.history.pushed == s.history.pushed
            && s'.history.popped == s.history.popped + [s.queue[0]] && s'.queue == s.queue[1..]))
  }

  lemma StepIsQueueStep<T>(s: State<T>, t: nat, choice: Choice<T>)
    requires Step(s, t, choice).Some?
    ensures QueueStep(s, Step(s, t, choice).value)
  {
  }

  lemma StepKeepsFifo<T>(s: State<T>, t: nat, choice: Choice<T>)
    requires Fifo(s) && Step(s, t, choice).Some?
    ensures Fifo(Step(s, t, choice).value)
  {
    StepIsQueueStep(s, t, choice);
    if s.queue != [] {
      assert s.queue == [s.queue[0]] + s.queue[1..];
    }
  }

  function Change<T>(before: Pc<T>, after: Pc<T>, owed: Owed): int {
    (if Owes(after, owed) then 1 else 0) - (if Owes(before, owed) then 1 else 0)
  }

  // What thread `t` did to a counter and what it did to the queue differ by what it now owes.
  ghost predicate Settles<T>(s: State<T>, s': State<T>, t: nat)
    requires t < |s.pcs|
  {
    && |s'.pcs| == |s.pcs| && s'.pcs == s.pcs[t := s'.pcs[t]]
    && s'.metrics.sent - s.metrics.sent + Change(s.pcs[t], s'.pcs[t], SentCount) == |s'.history.pushed| - |s.history.pushed|
    && s'.history.raises - s.history.raises + Change(s.pcs[t], s'.pcs[t], Raise) == |s'.history.pushed| - |s.history.pushed|
    && s'.metrics.received - s.metrics.received + Change(s.pcs[t], s'.pcs[t], ReceivedCount) == |s'.history.popped| - |s.history.popped|
    && s'.history.lowers - s.history.lowers + Change(s.pcs[t], s'.pcs[t], Lowering) == |s'.history.popped| - |s.history.popped|
    && s'.metrics.depth - s.metrics.depth == s'.history.raises - s.history.raises - s'.history.lowers + s.history.lowers + s'.history.floors - s.history.floors
    && ((s.pcs[t].LowerDepth? && s.metrics.depth == 0) || s'.history.floors == s.history.floors)
  }

  predicate IsMark<T>(pc: Pc<T>) { pc.Marking? || pc.Remarking? }

  lemma SendSettles<T>(s: State<T>, t: nat, choice: Choice<T>)
    requires Step(s, t, choice).Some? && Sending(s.pcs[t]) && !IsMark(s.pcs[t])
    ensures Settles(s, Step(s, t, choice).value, t)
  {
    var s' := SendStep(s, t, choice.spurious).value;
  }

  lemma ReceiveSettles<T>(s: State<T>, t: nat, choice: Choice<T>)
    requires Step(s, t, choice).Some? && Receiving(s.pcs[t])
    ensures Settles(s, Step(s, t, choice).value, t)
  {
    var s' := ReceiveStep(s, t, choice.now).value;
  }

  // Marking and beginning an operation touch no counter but the marker.
  lemma OtherSettles<T>(s: State<T>, t: nat, choice: Choice<T>)
    requires Step(s, t, choice).Some? && (IsMark(s.pcs[t]) || s.pcs[t].Idle?)
    ensures Settles(s, Step(s, t, choice).value, t)
  {
    var s' := Step(s, t, choice).value;
    assert s'.history == s.history && s'.metrics == s.metrics.(marker := s'.metrics.marker);
  }

  lemma StepSettles<T>(s: State<T>, t: nat, choice: Choice<T>)
    requires Step(s, t, choice).Some?
    ensures Settles(s, Step(s, t, choice).value, t)
  {
    if IsMark(s.pcs[t]) || s.pcs[t].Idle? {
      OtherSettles(s, t, choice);
    } else if Sending(s.pcs[t]) {
      SendSettles(s, t, choice);
    } else {
      ReceiveSettles(s, t, choice);
    }
  }

  lemma SettlingKeepsAccounts<T>(s: State<T>, s': State<T>, t: nat)
    requires Accounted(s) && t < |s.pcs| && Settles(s, s', t)
    ensures Accounted(s')
  {
    CountUpdate(s.pcs, SentCount, t, s'.pcs[t]);
    CountUpdate(s.pcs, Raise, t, s'.pcs[t]);
    CountUpdate(s.pcs, ReceivedCount, t, s'.pcs[t]);
    CountUpdate(s.pcs, Lowering, t, s'.pcs[t]);
  }

  lemma StepKeepsAccounts<T>(s: State<T>, t: nat, choice: Choice<T>)
    requires Accounted(s) && Step(s, t, choice).Some?
    ensures Accounted(Step(s, t, choice).value)
  {
    StepSettles(s, t, choice);
    SettlingKeepsAccounts(s, Step(s, t, choice).value, t);
  }

  // A step that changes neither the peak nor the published depths, and carries no new depth.
  lemma FramedKeepsPeak<T>(s: State<T>, s': State<T>, t: nat)
    requires PeakTracked(s) && t < |s.pcs| && |s'.pcs| == |s.pcs|
    requires s'.pcs == s.pcs[t := s'.pcs[t]]
    requires s'.metrics.depth <= s.metrics.depth && s'.metrics.peak == s.metrics.peak
    requires s'.history.highest == s.history.highest && s'.history.published == s.history.published
    requires !s.pcs[t].LoadPeak? && !s.pcs[t].PeakLoop? && !s'.pcs[t].LoadPeak? && !s'.pcs[t].PeakLoop?
    ensures PeakTracked(s')
  {
    if s.metrics.peak != s.history.highest {
      var i :| 0 <= i < |s.pcs| && Carries(s.pcs[i], s.history.highest);
      assert s'.pcs[i] == s.pcs[i];
    }
  }

  lemma RaiseKeepsPeak<T>(s: State<T>, t: nat, choice: Choice<T>)
    requires PeakTracked(s) && Step(s, t, choice).Some? && s.pcs[t].RaiseDepth?
    ensures PeakTracked(Step(s, t, choice).value)
  {
    var s' := SendStep(s, t, choice.spurious).value;
    if s'.history.highest == s.metrics.depth + 1 {
      assert Carries(s'.pcs[t], s'.history.highest);
    } else if s.metrics.peak != s.history.highest {
      var i :| 0 <= i < |s.pcs| && Carries(s.pcs[i], s.history.highest);
      assert Carries(s'.pcs[i], s'.history.highest);
    }
  }

  lemma LoopKeepsPeak<T>(s: State<T>, t: nat, choice: Choice<T>)
    requires PeakTracked(s) && Step(s, t, choice).Some? && (s.pcs[t].LoadPeak? || s.pcs[t].PeakLoop?)
    ensures PeakTracked(Step(s, t, choice).value)
  {
    var s' := SendStep(s, t, choice.spurious).value;
    if s.metrics.peak != s.history.highest {
      var i :| 0 <= i < |s.pcs| && Carries(s.pcs[i], s.history.highest);
      assert i == t || s'.pcs[i] == s.pcs[i];
      assert s'.metrics.peak == s'.history.highest || Carries(s'.pcs[i], s'.history.highest);
    }
  }

  lemma SendFramesPeak<T>(s: State<T>, t: nat, choice: Choice<T>)
    requires PeakTracked(s) && Step(s, t, choice).Some? && (s.pcs[t].Push? || s.pcs[t].CountSent?)
    ensures PeakTracked(Step(s, t, choice).value)
  {
    var s' := SendStep(s, t, choice.spurious).value;
    FramedKeepsPeak(s, s', t);
  }

  lemma ReceiveFramesPeak<T>(s: State<T>, t: nat, choice: Choice<T>)
    requires PeakTracked(s) && Step(s, t, choice).Some? && Receiving(s.pcs[t])
    ensures PeakTracked(Step(s, t, choice).value)
  {
    var s' := ReceiveStep(s, t, choice.now).value;
    FramedKeepsPeak(s, s', t);
  }

  lemma OtherFramesPeak<T>(s: State<T>, t: nat, choice: Choice<T>)
    requires PeakTracked(s) && Step(s, t, choice).Some? && (IsMark(s.pcs[t]) || s.pcs[t].Idle?)
    ensures PeakTracked(Step(s, t, choice).value)
  {
    var s' := Step(s, t, choice).value;
    FramedKeepsPeak(s, s', t);
  }

  lemma StepKeepsPeak<T>(s: State<T>, t: nat, choice: Choice<T>)
    requires PeakTracked(s) && Step(s, t, choice).Some?
    ensures PeakTracked(Step(s, t, choice).value)
  {
    if IsMark(s.pcs[t]) || s.pcs[t].Idle? {
      OtherFramesPeak(s, t, choice);
    } else if Receiving(s.pcs[t]) {
      ReceiveFramesPeak(s, t, choice);
    } else if s.pcs[t].RaiseDepth? {
      RaiseKeepsPeak(s, t, choice);
    } else if s.pcs[t].LoadPeak? || s.pcs[t].PeakLoop? {
      LoopKeepsPeak(s, t, choice);
    } else {
      SendFramesPeak(s, t, choice);
    }
  }

  lemma StepKeepsInv<T>(s: State<T>, t: nat, choice: Choice<T>)
    requires Inv(s) && Step(s, t, choice).Some?
    ensures Inv(Step(s, t, choice).value)
  {
    StepKeepsFifo(s, t, choice);
    StepKeepsAccounts(s, t, choice);
    StepKeepsPeak(s, t, choice);
  }

  // The last state of a run and the one before its last turn.
  lemma RunUnfolds<T>(s: State<T>, turns: seq<Turn<T>>)
    requires turns != [] && Run(s, turns).Some?
    ensures Run(s, turns[..|turns| - 1]).Some?
    ensures Step(Run(s, turns[..|turns| - 1]).value, turns[|turns| - 1].thread, turns[|turns| - 1].choice) == Run(s, turns)
  {
  }

  /**
  Every interleaving of any number of senders and receivers keeps the order of the values, the bound
  of the queue, the exact account of every counter, and the peak.
  */
  lemma {:induction false} EveryRunKeepsInv<T>(s: State<T>, turns: seq<Turn<T>>)
    requires Initial(s) && Run(s, turns).Some?
    ensures Inv(Run(s, turns).value)
  {
    if turns == [] {
      InitialInv(s);
    } else {
      var before, last := turns[..|turns| - 1], turns[|turns| - 1];
      RunUnfolds(s, turns);
      EveryRunKeepsInv(s, before);
      StepKeepsInv(Run(s, before).value, last.thread, last.choice);
    }
  }

  /**
  With no operation in flight the depth is the queue's length plus the decrements that found zero, so
  it is never below the length, and it is the length exactly when no decrement ever found zero.
  */
  lemma QuietDepth<T>(s: State<T>, turns: seq<Turn<T>>)
    requires Initial(s) && Run(s, turns).Some? && Quiet(Run(s, turns).value)
    ensures var q := Run(s, turns).value;
            && q.metrics.sent == |q.history.pushed| && q.metrics.received == |q.history.popped|
            && q.metrics.sent == q.metrics.received + |q.queue|
            && q.metrics.depth == |q.queue| + q.history.floors
            && (q.metrics.depth == |q.queue| <==> q.history.floors == 0)
  {
    EveryRunKeepsInv(s, turns);
    var q := Run(s, turns).value;
    forall owed: Owed ensures Count(q.pcs, owed) == 0 { CountNone(q.pcs, owed); }
  }

  // The saturating branch of lowering the depth: it is zero though a value was taken.
  predicate LowersAtZero<T>(s: State<T>, t: nat) {
    t < |s.pcs| && s.pcs[t].LowerDepth? && s.metrics.depth == 0
  }

  lemma SendStepFloors<T>(s: State<T>, t: nat, choice: Choice<T>)
    requires Step(s, t, choice).Some? && !Receiving(s.pcs[t])
    ensures Step(s, t, choice).value.history.floors == s.history.floors && !LowersAtZero(s, t)
  {
  }

  lemma StepFloors<T>(s: State<T>, t: nat, choice: Choice<T>)
    requires Step(s, t, choice).Some?
    ensures Step(s, t, choice).value.history.floors == s.history.floors + if LowersAtZero(s, t) then 1 else 0
  {
    if !Receiving(s.pcs[t]) { SendStepFloors(s, t, choice); }
  }

  /** No turn of a run lowers the depth at zero. */
  ghost predicate NeverLowersAtZero<T>(s: State<T>, turns: seq<Turn<T>>) {
    turns == []
    || (var before, last := turns[..|turns| - 1], turns[|turns| - 1];
        NeverLowersAtZero(s, before) && Run(s, before).Some? && !LowersAtZero(Run(s, before).value, last.thread))
  }

  lemma {:induction false} FloorsAreLoweringsAtZero<T>(s: State<T>, turns: seq<Turn<T>>)
    requires Run(s, turns).Some? && s.history.floors == 0
    ensures Run(s, turns).value.history.floors == 0 <==> NeverLowersAtZero(s, turns)
  {
    if turns != [] {
      var before, last := turns[..|turns| - 1], turns[|turns| - 1];
      RunUnfolds(s, turns);
      FloorsAreLoweringsAtZero(s, before);
      StepFloors(Run(s, before).value, last.thread, last.choice);
    }
  }

  /** With no operation in flight the depth is the queue's length exactly when no turn of the run lowered it at zero. */
  lemma DepthHoldsUnlessLoweredAtZero<T>(s: State<T>, turns: seq<Turn<T>>)
    requires Initial(s) && Run(s, turns).Some? && Quiet(Run(s, turns).value)
    ensures Run(s, turns).value.metrics.depth == |Run(s, turns).value.queue| <==> NeverLowersAtZero(s, turns)
  {
    QuietDepth(s, turns);
    FloorsAreLoweringsAtZero(s, turns);
  }

  /** The peak never goes down, whatever the interleaving and however often an exchange fails. */
  lemma StepKeepsPeakUp<T>(s: State<T>, t: nat, choice: Choice<T>)
    requires Step(s, t, choice).Some?
    ensures Step(s, t, choice).value.metrics.peak >= s.metrics.peak
  {
  }

  lemma {:induction false} PeakNeverDrops<T>(s: State<T>, turns: seq<Turn<T>>, n: nat)
    requires Run(s, turns).Some? && n <= |turns|
    ensures Run(s, turns[..n]).Some? && Run(s, turns[..n]).value.metrics.peak <= Run(s, turns).value.metrics.peak
  {
    if n == |turns| {
      assert turns[..n] == turns;
    } else {
      var before, last := turns[..|turns| - 1], turns[|turns| - 1];
      RunUnfolds(s, turns);
      PeakNeverDrops(s, before, n);
      assert before[..n] == turns[..n];
      StepKeepsPeakUp(Run(s, before).value, last.thread, last.choice);
    }
  }

  lemma StepRaisesHighest<T>(s: State<T>, t: nat, choice: Choice<T>)
    requires PeakTracked(s) && Step(s, t, choice).Some?
    ensures Step(s, t, choice).value.history.highest == Max(s.history.highest, Step(s, t, choice).value.metrics.depth)
  {
    var pc := s.pcs[t];
    if Sending(pc) {
      SendRaisesHighest(s, t, choice);
    } else if Receiving(pc) {
      ReceiveRaisesHighest(s, t, choice);
    } else {
      OtherRaisesHighest(s, t, choice);
    }
  }

  lemma SendRaisesHighest<T>(s: State<T>, t: nat, choice: Choice<T>)
    requires PeakTracked(s) && Step(s, t, choice).Some? && Sending(s.pcs[t])
    ensures Step(s, t, choice).value.history.highest == Max(s.history.highest, Step(s, t, choice).value.metrics.depth)
  {
  }

  lemma ReceiveRaisesHighest<T>(s: State<T>, t: nat, choice: Choice<T>)
    requires PeakTracked(s) && Step(s, t, choice).Some? && Receiving(s.pcs[t])
    ensures Step(s, t, choice).value.history.highest == Max(s.history.highest, Step(s, t, choice).value.metrics.depth)
  {
  }

  lemma OtherRaisesHighest<T>(s: State<T>, t: nat, choice: Choice<T>)
    requires PeakTracked(s) && Step(s, t, choice).Some? && !Sending(s.pcs[t]) && !Receiving(s.pcs[t])
    ensures Step(s, t, choice).value.history.highest == Max(s.history.highest, Step(s, t, choice).value.metrics.depth)
  {
  }

  // `highest` is what its name says: no state of the run held a higher depth, and one held it.
  lemma {:induction false} HighestIsHeld<T>(s: State<T>, turns: seq<Turn<T>>) returns (at: nat)
    requires Initial(s) && Run(s, turns).Some?
    ensures at <= |turns| && Run(s, turns[..at]).Some?
    ensures Run(s, turns[..at]).value.metrics.depth == Run(s, turns).value.history.highest
  {
    if turns == [] {
      at := 0;
    } else {
      var before, last := turns[..|turns| - 1], turns[|turns| - 1];
      RunUnfolds(s, turns);
      var mid := Run(s, before).value;
      at := HighestIsHeld(s, before);
      assert before[..at] == turns[..at];
      EveryRunKeepsInv(s, before);
      StepRaisesHighest(mid, last.thread, last.choice);
      if Run(s, turns).value.history.highest != mid.history.highest {
        at := |turns|;
        assert turns[..at] == turns;
      }
    }
  }

  lemma {:induction false} HighestBounds<T>(s: State<T>, turns: seq<Turn<T>>, n: nat)
    requires Initial(s) && Run(s, turns).Some? && n <= |turns|
    ensures Run(s, turns[..n]).Some? && Run(s, turns[..n]).value.metrics.depth <= Run(s, turns).value.history.highest
  {
    EveryRunKeepsInv(s, turns);
    if n == |turns| {
      assert turns[..n] == turns;
    } else {
      var before, last := turns[..|turns| - 1], turns[|turns| - 1];
      RunUnfolds(s, turns);
      HighestBounds(s, before, n);
      assert before[..n] == turns[..n];
      EveryRunKeepsInv(s, before);
      StepRaisesHighest(Run(s, before).value, last.thread, last.choice);
    }
  }

  /**
  The compare-exchange loop acts as one fetch-max: once no sender is in it, the peak is the highest
  depth any moment of the run held, under any interleaving and any spurious failures.
  */
  lemma SettledPeakIsHighest<T>(s: State<T>, turns: seq<Turn<T>>) returns (at: nat)
    requires Initial(s) && Run(s, turns).Some?
    requires forall i :: 0 <= i < |Run(s, turns).value.pcs| ==> !Run(s, turns).value.pcs[i].LoadPeak? && !Run(s, turns).value.pcs[i].PeakLoop?
    ensures at <= |turns| && Run(s, turns[..at]).Some?
    ensures Run(s, turns[..at]).value.metrics.depth == Run(s, turns).value.metrics.peak
    ensures forall n :: 0 <= n <= |turns| ==> Run(s, turns[..n]).Some? && Run(s, turns[..n]).value.metrics.depth <= Run(s, turns).value.metrics.peak
  {
    EveryRunKeepsInv(s, turns);
    at := HighestIsHeld(s, turns);
    forall n | 0 <= n <= |turns|
      ensures Run(s, turns[..n]).Some? && Run(s, turns[..n]).value.metrics.depth <= Run(s, turns).value.metrics.peak
    {
      HighestBounds(s, turns, n);
    }
  }

  // ---- Where the depth drifts ----

  lemma RunThen<T>(s: State<T>, turns: seq<Turn<T>>, mid: State<T>, turn: Turn<T>, next: State<T>)
    requires Run(s, turns) == Some(mid) && Step(mid, turn.thread, turn.choice) == Some(next)
    ensures Run(s, turns + [turn]) == Some(next)
  {
    assert (turns + [turn])[..|turns|] == turns;
  }

  // A sender pushes 7 and is interrupted; a receiver takes it and finds the depth at zero.
  lemma ReceiverOvertakes(s: State<int>) returns (turns: seq<Turn<int>>, mid: State<int>)
    requires s == State(None, [], false, false, Metrics(0, 0, 0, 0, 0, 0, 0), [Idle, Idle], History([], [], 0, 0, 0, 0, {}))
    ensures Run(s, turns) == Some(mid)
    ensures mid == State(None, [], false, false, Metrics(0, 1, 0, 0, 0, 0, 0), [CountSent, Idle], History([7], [7], 0, 1, 1, 0, {}))
  {
    var go := Proceed(1, false);
    turns, mid := [], s;
    var next := mid.(pcs := mid.pcs[0 := Push(7)]);
    RunThen(s, turns, mid, Turn(0, BeginSend(7)), next);
    turns, mid := turns + [Turn(0, BeginSend(7))], next;
    next := mid.(queue := mid.queue + [7], pcs := mid.pcs[0 := CountSent], history := mid.history.(pushed := mid.history.pushed + [7]));
    RunThen(s, turns, mid, Turn(0, go), next);
    turns, mid := turns + [Turn(0, go)], next;
    next := mid.(pcs := mid.pcs[1 := Pop(true)]);
    RunThen(s, turns, mid, Turn(1, BeginReceive(true)), next);
    turns, mid := turns + [Turn(1, BeginReceive(true))], next;
    next := mid.(queue := mid.queue[1..], pcs := mid.pcs[1 := CountReceived], history := mid.history.(popped := mid.history.popped + [7]));
    RunThen(s, turns, mid, Turn(1, go), next);
    turns, mid := turns + [Turn(1, go)], next;
    next := mid.(pcs := mid.pcs[1 := LowerDepth], metrics := mid.metrics.(received := 1));
    RunThen(s, turns, mid, Turn(1, go), next);
    turns, mid := turns + [Turn(1, go)], next;
    next := mid.(pcs := mid.pcs[1 := Idle], history := mid.history.(lowers := 1, floors := 1));
    RunThen(s, turns, mid, Turn(1, go), next);
    turns, mid := turns + [Turn(1, go)], next;
  }

  // The interrupted sender counts its value and raises the depth.
  lemma SenderCatchesUp(s: State<int>, before: seq<Turn<int>>, interrupted: State<int>) returns (turns: seq<Turn<int>>, end: State<int>)
    requires Run(s, before) == Some(interrupted)
    requires interrupted == State(None, [], false, false, Metrics(0, 1, 0, 0, 0, 0, 0), [CountSent, Idle], History([7], [7], 0, 1, 1, 0, {}))
    ensures Run(s, turns) == Some(end)
    ensures end == State(None, [], false, false, Metrics(1, 1, 1, 0, 0, 0, 0), [LoadPeak(1), Idle], History([7], [7], 1, 1, 1, 1, {1}))
  {
    var go := Turn(0, Proceed(1, false));
    var counted := interrupted.(pcs := interrupted.pcs[0 := RaiseDepth], metrics := interrupted.metrics.(sent := 1));
    RunThen(s, before, interrupted, go, counted);
    end := counted.(pcs := counted.pcs[0 := LoadPeak(1)], metrics := counted.metrics.(depth := 1),
                  history := counted.history.(raises := 1, highest := 1, published := counted.history.published + {1}));
    RunThen(s, before + [go], counted, go, end);
    turns := before + [go] + [go];
  }

  // It settles the peak and is done.
  lemma SenderSettles(s: State<int>, before: seq<Turn<int>>, raised: State<int>) returns (turns: seq<Turn<int>>, end: State<int>)
    requires Run(s, before) == Some(raised)
    requires raised == State(None, [], false, false, Metrics(1, 1, 1, 0, 0, 0, 0), [LoadPeak(1), Idle], History([7], [7], 1, 1, 1, 1, {1}))
    ensures Run(s, turns) == Some(end) && end.queue == [] && end.metrics.depth == 1 && end.pcs == [Idle, Idle]
  {
    var go := Turn(0, Proceed(1, false));
    var looping := raised.(pcs := raised.pcs[0 := PeakLoop(1, 0)]);
    RunThen(s, before, raised, go, looping);
    end := looping.(pcs := looping.pcs[0 := Idle], metrics := looping.metrics.(peak := 1));
    RunThen(s, before + [go], looping, go, end);
    turns := before + [go] + [go];
  }

  /**
  The depth is documented as the number of waiting messages. It is not, under interleaving: here a
  receiver pops a value and lowers the depth before its sender has raised it, the decrement finds
  zero, and a quiet, empty channel is left reporting a depth of one.
  */
  lemma DepthDrifts(s: State<int>) returns (turns: seq<Turn<int>>, end: State<int>)
    requires s == State(None, [], false, false, Metrics(0, 0, 0, 0, 0, 0, 0), [Idle, Idle], History([], [], 0, 0, 0, 0, {}))
    ensures Initial(s) && Run(s, turns) == Some(end) && Quiet(end)
    ensures end.queue == [] && end.metrics.depth == 1
  {
    var before, interrupted := ReceiverOvertakes(s);
    var later, raised := SenderCatchesUp(s, before, interrupted);
    turns, end := SenderSettles(s, later, raised);
  }

  // ---- Operations that do not overlap ----

  // Every thread but `t` is idle.
  ghost predicate OnlyActive<T>(s: State<T>, t: nat) {
    forall i :: 0 <= i < |s.pcs| && i != t ==> s.pcs[i].Idle?
  }

  /** A run in which no operation begins before the one in flight has ended. */
  ghost predicate Serial<T>(s: State<T>, turns: seq<Turn<T>>)
    requires Run(s, turns).Some?
  {
    turns == [] ||
    (RunUnfolds(s, turns);
     && Serial(s, turns[..|turns| - 1])
     && OnlyActive(Run(s, turns[..|turns| - 1]).value, turns[|turns| - 1].thread))
  }

  /** Without overlap no decrement ever finds zero. */
  lemma SerialStepNeverFloors<T>(s: State<T>, t: nat, choice: Choice<T>)
    requires Inv(s) && OnlyActive(s, t) && s.history.floors == 0 && Step(s, t, choice).Some?
    ensures Step(s, t, choice).value.history.floors == 0
  {
    StepSettles(s, t, choice);
    if s.pcs[t].LowerDepth? {
      CountSole(s.pcs, Raise, t);
      CountSole(s.pcs, Lowering, t);
    }
  }

  lemma {:induction false} SerialNeverFloors<T>(s: State<T>, turns: seq<Turn<T>>)
    requires Initial(s) && Run(s, turns).Some? && Serial(s, turns)
    ensures Run(s, turns).value.history.floors == 0
  {
    if turns != [] {
      var before, last := turns[..|turns| - 1], turns[|turns| - 1];
      RunUnfolds(s, turns);
      SerialNeverFloors(s, before);
      EveryRunKeepsInv(s, before);
      SerialStepNeverFloors(Run(s, before).value, last.thread, last.choice);
    }
  }

  /** When operations do not overlap the depth is the number of values waiting after each of them. */
  lemma SerialDepthIsLength<T>(s: State<T>, turns: seq<Turn<T>>)
    requires Initial(s) && Run(s, turns).Some? && Serial(s, turns) && Quiet(Run(s, turns).value)
    ensures Run(s, turns).value.metrics.depth == |Run(s, turns).value.queue|
    ensures Run(s, turns).value.metrics.depth == Run(s, turns).value.metrics.sent - Run(s, turns).value.metrics.received
  {
    SerialNeverFloors(s, turns);
    QuietDepth(s, turns);
  }
}
