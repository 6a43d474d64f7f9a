/**
The capacity marker and the full time of a protocol run in which operations do not overlap.

At rest they are what the class `Channel` keeps between its methods: the marker is set exactly while the
queue is at capacity, and the full time is read off the states the run rests in.
*/
module ChannelWindows {
  import opened Wrappers
  import opened ChannelProtocol
  import Channel
  import ChannelEndings

  // A state between two steps of a run without overlap: only `t` is active, and no decrement found zero.
  ghost predicate Alone<T>(s: State<T>, t: nat) {
    Inv(s) && t < |s.pcs| && OnlyActive(s, t) && s.history.floors == 0
  }

  // The depth is the queue's length but for what the one active thread owes.
  lemma DepthAlone<T>(s: State<T>, t: nat)
    requires Alone(s, t)
    ensures s.metrics.depth == |s.queue| - (if Owes(s.pcs[t], Raise) then 1 else 0) + (if Owes(s.pcs[t], Lowering) then 1 else 0)
    ensures s.capacity.Some? ==> |s.queue| <= s.capacity.value
  {
    CountSole(s.pcs, Raise, t);
    CountSole(s.pcs, Lowering, t);
  }

  lemma AloneThroughout<T>(s: State<T>, turns: seq<Turn<T>>)
    requires Initial(s) && Run(s, turns).Some? && Serial(s, turns) && turns != []
    ensures Run(s, turns[..|turns| - 1]).Some?
    ensures Alone(Run(s, turns[..|turns| - 1]).value, turns[|turns| - 1].thread)
  {
    var before := turns[..|turns| - 1];
    RunUnfolds(s, turns);
    EveryRunKeepsInv(s, before);
    SerialNeverFloors(s, before);
  }

  // ---- The marker ----

  predicate MarkerFits<T>(s: State<T>) {
    s.metrics.marker != 0 <==> AtCapacity(s, s.metrics.depth)
  }

  // What the marker says while a thread is where it is and no other is active.
  predicate Marked<T>(s: State<T>, t: nat) {
    match At(s, t)
    case Marking(stage, _) => MarkerFits(s) && !stage.ExchangeMarker? && (stage.LoadMarker? ==> AtCapacity(s, s.metrics.depth))
    case LoadPeak(_) => s.metrics.marker == 0
    case PeakLoop(_, _) => s.metrics.marker == 0
    case Remarking(stage) => s.metrics.marker == 0 && (!stage.LoadDepth? ==> AtCapacity(s, s.metrics.depth))
    case CountReceived => MarkerFits(s) && (s.capacity.Some? ==> s.metrics.depth <= s.capacity.value)
    case LowerDepth => MarkerFits(s) && (s.capacity.Some? ==> s.metrics.depth <= s.capacity.value)
    case ClearMarker => s.metrics.marker != 0 && !AtCapacity(s, s.metrics.depth)
    case CloseWindow(_) => s.metrics.marker == 0 && !AtCapacity(s, s.metrics.depth)
    case _ => MarkerFits(s)
  }

  lemma SendMarks<T>(s: State<T>, t: nat, choice: Choice<T>)
    requires Alone(s, t) && Marked(s, t) && Step(s, t, choice).Some? && Sending(s.pcs[t]) && !IsMark(s.pcs[t])
    ensures Marked(Step(s, t, choice).value, t)
  {
    DepthAlone(s, t);
    var s' := SendStep(s, t, choice.spurious).value;
  }

  lemma ReceiveMarks<T>(s: State<T>, t: nat, choice: Choice<T>)
    requires Alone(s, t) && Marked(s, t) && Step(s, t, choice).Some? && Receiving(s.pcs[t])
    ensures Marked(Step(s, t, choice).value, t)
  {
    DepthAlone(s, t);
    var s' := ReceiveStep(s, t, choice.now).value;
  }

  lemma OtherMarks<T>(s: State<T>, t: nat, choice: Choice<T>)
    requires Alone(s, t) && Marked(s, t) && Step(s, t, choice).Some? && (IsMark(s.pcs[t]) || s.pcs[t].Idle?)
    ensures Marked(Step(s, t, choice).value, t)
  {
    var s' := Step(s, t, choice).value;
  }

  lemma StepMarks<T>(s: State<T>, t: nat, choice: Choice<T>)
    requires Alone(s, t) && Marked(s, t) && Step(s, t, choice).Some?
    ensures Marked(Step(s, t, choice).value, t)
  {
    if IsMark(s.pcs[t]) || s.pcs[t].Idle? {
      OtherMarks(s, t, choice);
    } else if Sending(s.pcs[t]) {
      SendMarks(s, t, choice);
    } else {
      ReceiveMarks(s, t, choice);
    }
  }

  lemma {:induction false} RunMarks<T>(s: State<T>, turns: seq<Turn<T>>, t: nat)
    requires Initial(s) && Run(s, turns).Some? && Serial(s, turns)
    requires t < |Run(s, turns).value.pcs| && OnlyActive(Run(s, turns).value, t)
    ensures Marked(Run(s, turns).value, t)
  {
    if turns != [] {
      var before, last := turns[..|turns| - 1], turns[|turns| - 1];
      AloneThroughout(s, turns);
      var mid := Run(s, before).value;
      RunMarks(s, before, last.thread);
      RunUnfolds(s, turns);
      StepMarks(mid, last.thread, last.choice);
      StepSettles(mid, last.thread, last.choice);
    }
  }

  /** When operations do not overlap, the marker is set after each of them exactly while the queue is at capacity. */
  lemma SerialMarker<T>(s: State<T>, turns: seq<Turn<T>>)
    requires Initial(s) && Run(s, turns).Some? && Serial(s, turns) && Quiet(Run(s, turns).value)
    ensures var end := Run(s, turns).value;
            && (end.metrics.marker != 0 <==> s.capacity.Some? && end.metrics.depth == s.capacity.value)
            && end.metrics.depth == |end.queue|
  {
    var end := Run(s, turns).value;
    ChannelEndings.CapacityStays(s, turns);
    EveryRunKeepsInv(s, turns);
    SerialDepthIsLength(s, turns);
    if |end.pcs| > 0 {
      RunMarks(s, turns, 0);
    } else {
      NoThreadNoTurn(s, turns);
    }
  }

  // ---- The full time ----

  function Reading<T>(choice: Choice<T>): nat {
    if choice.Proceed? then choice.now else 0
  }

  // The clock at the last step that read it.
  function LastReading<T>(turns: seq<Turn<T>>): nat {
    if turns == [] then 0 else Max(LastReading(turns[..|turns| - 1]), Reading(turns[|turns| - 1].choice))
  }

  predicate ClockInOrder<T>(turns: seq<Turn<T>>) {
    turns == []
    || (var before, last := turns[..|turns| - 1], turns[|turns| - 1].choice;
        ClockInOrder(before) && (last.Proceed? ==> LastReading(before) <= last.now))
  }

  function DepthAt(timeline: Channel.Timeline): nat {
    match timeline
    case Opened => 0
    case Moved(_, _, depth) => depth
  }

  // A thread that has come to rest notes the depth, if it is not the one noted last.
  function Noted<T>(timeline: Channel.Timeline, s: State<T>, t: nat, choice: Choice<T>): Channel.Timeline {
    if choice.Proceed? && At(s, t).Idle? && s.metrics.depth != DepthAt(timeline)
    then Channel.Moved(timeline, Channel.NowNs(choice.now), s.metrics.depth)
    else timeline
  }

  /** The depths a run rests at, each with the clock as it came to rest. */
  function RestingDepths<T>(s: State<T>, turns: seq<Turn<T>>): Channel.Timeline
    requires Run(s, turns).Some?
  {
    if turns == [] then Channel.Opened
    else
      RunUnfolds(s, turns);
      var last := turns[|turns| - 1];
      Noted(RestingDepths(s, turns[..|turns| - 1]), Run(s, turns).value, last.thread, last.choice)
  }

  // The marker holds the time the depth was last noted at.
  predicate Since<T>(s: State<T>, timeline: Channel.Timeline) {
    s.metrics.marker != 0 ==> timeline.Moved? && s.metrics.marker == timeline.time
  }

  // How far the depth and the full time are from those last noted, where the active thread is.
  predicate Windowed<T>(s: State<T>, t: nat, timeline: Channel.Timeline) {
    var noted, m := DepthAt(timeline), s.metrics;
    var risen := m.depth == noted + 1 && s.history.highest == Max(Channel.HighestDepth(timeline), m.depth) && !Channel.IsFull(s.capacity, noted);
    && m.fullTime == Channel.FullTime(s.capacity, timeline)
    && match At(s, t)
       case LoadPeak(_) => risen
       case PeakLoop(_, _) => risen
       case Remarking(_) => risen
       case ClearMarker =>
         Since(s, timeline) && m.depth == noted - 1 && Channel.IsFull(s.capacity, noted) && s.history.highest == Channel.HighestDepth(timeline)
       case CloseWindow(since) =>
         timeline.Moved? && since == timeline.time && m.depth == noted - 1 && Channel.IsFull(s.capacity, noted)
         && s.history.highest == Channel.HighestDepth(timeline)
       case _ => Since(s, timeline) && m.depth == noted && s.history.highest == Channel.HighestDepth(timeline)
  }

  // The clock has reached the time last noted.
  predicate Reached<T>(timeline: Channel.Timeline, choice: Choice<T>) {
    choice.Proceed? && timeline.Moved? ==> timeline.time <= Channel.NowNs(choice.now)
  }

  lemma {:induction false} HighestNoted(timeline: Channel.Timeline)
    ensures DepthAt(timeline) <= Channel.HighestDepth(timeline)
  {
  }

  predicate InLoop<T>(pc: Pc<T>) { pc.LoadPeak? || pc.PeakLoop? }

  lemma PushWindows<T>(s: State<T>, t: nat, choice: Choice<T>, timeline: Channel.Timeline)
    requires Alone(s, t) && Marked(s, t) && Windowed(s, t, timeline) && Step(s, t, choice).Some?
    requires Sending(s.pcs[t]) && !IsMark(s.pcs[t]) && !InLoop(s.pcs[t])
    ensures var s' := Step(s, t, choice).value; Windowed(s', t, Noted(timeline, s', t, choice))
  {
    DepthAlone(s, t);
    var s' := SendStep(s, t, choice.spurious).value;
  }

  lemma LoopWindows<T>(s: State<T>, t: nat, choice: Choice<T>, timeline: Channel.Timeline)
    requires Marked(s, t) && Windowed(s, t, timeline) && Step(s, t, choice).Some? && InLoop(s.pcs[t])
    ensures var s' := Step(s, t, choice).value; Windowed(s', t, Noted(timeline, s', t, choice))
  {
    var s' := SendStep(s, t, choice.spurious).value;
    assert s'.history == s.history && s'.metrics == s.metrics.(peak := s'.metrics.peak);
  }

  lemma ReceiveWindows<T>(s: State<T>, t: nat, choice: Choice<T>, timeline: Channel.Timeline)
    requires Alone(s, t) && Marked(s, t) && Windowed(s, t, timeline) && Step(s, t, choice).Some? && Receiving(s.pcs[t])
    requires Reached(timeline, choice)
    ensures var s' := Step(s, t, choice).value; Windowed(s', t, Noted(timeline, s', t, choice))
  {
    DepthAlone(s, t);
    HighestNoted(timeline);
    var s' := ReceiveStep(s, t, choice.now).value;
  }

  lemma OtherWindows<T>(s: State<T>, t: nat, choice: Choice<T>, timeline: Channel.Timeline)
    requires Alone(s, t) && Marked(s, t) && Windowed(s, t, timeline) && Step(s, t, choice).Some? && (IsMark(s.pcs[t]) || s.pcs[t].Idle?)
    ensures var s' := Step(s, t, choice).value; Windowed(s', t, Noted(timeline, s', t, choice))
  {
    var s' := Step(s, t, choice).value;
  }

  lemma StepWindows<T>(s: State<T>, t: nat, choice: Choice<T>, timeline: Channel.Timeline)
    requires Alone(s, t) && Marked(s, t) && Windowed(s, t, timeline) && Step(s, t, choice).Some? && Reached(timeline, choice)
    ensures var s' := Step(s, t, choice).value; Windowed(s', t, Noted(timeline, s', t, choice))
  {
    if IsMark(s.pcs[t]) || s.pcs[t].Idle? {
      OtherWindows(s, t, choice, timeline);
    } else if InLoop(s.pcs[t]) {
      LoopWindows(s, t, choice, timeline);
    } else if Sending(s.pcs[t]) {
      PushWindows(s, t, choice, timeline);
    } else {
      ReceiveWindows(s, t, choice, timeline);
    }
  }

  // Every depth is noted no later than the clock's last reading, and in order.
  lemma {:induction false} NotedInOrder<T>(s: State<T>, turns: seq<Turn<T>>)
    requires Run(s, turns).Some? && ClockInOrder(turns)
    ensures var timeline := RestingDepths(s, turns);
            Channel.Monotone(timeline) && (timeline.Moved? ==> timeline.time <= Channel.NowNs(LastReading(turns)))
  {
    if turns != [] {
      RunUnfolds(s, turns);
      NotedInOrder(s, turns[..|turns| - 1]);
    }
  }

  lemma {:induction false} RunWindows<T>(s: State<T>, turns: seq<Turn<T>>, t: nat)
    requires Initial(s) && Run(s, turns).Some? && Serial(s, turns) && ClockInOrder(turns)
    requires t < |Run(s, turns).value.pcs| && OnlyActive(Run(s, turns).value, t)
    ensures Windowed(Run(s, turns).value, t, RestingDepths(s, turns))
  {
    if turns != [] {
      var before, last := turns[..|turns| - 1], turns[|turns| - 1];
      AloneThroughout(s, turns);
      var mid := Run(s, before).value;
      RunMarks(s, before, last.thread);
      RunWindows(s, before, last.thread);
      NotedInOrder(s, before);
      RunUnfolds(s, turns);
      StepWindows(mid, last.thread, last.choice, RestingDepths(s, before));
      StepSettles(mid, last.thread, last.choice);
    }
  }

  /**
  When operations do not overlap and the clock does not go back, a run at rest is a channel between two
  of its methods: the marker holds the time the queue became full, the full time is the sum of the
  windows during which the run rested at capacity, and the peak is the highest depth it rested at.
  */
  lemma SerialWindows<T>(s: State<T>, turns: seq<Turn<T>>)
    requires Initial(s) && Run(s, turns).Some? && Serial(s, turns) && ClockInOrder(turns) && Quiet(Run(s, turns).value)
    ensures var end, timeline := Run(s, turns).value, RestingDepths(s, turns);
            && Channel.Timed(s.capacity, end.metrics.depth, end.metrics.marker, end.metrics.fullTime, timeline)
            && end.metrics.fullTime == Channel.FullTime(s.capacity, timeline)
            && end.metrics.peak == Channel.HighestDepth(timeline)
  {
    SerialMarker(s, turns);
    NotedInOrder(s, turns);
    SettledPeak(s, turns);
    ChannelEndings.CapacityStays(s, turns);
    RestWindows(s, turns);
  }

  lemma SettledPeak<T>(s: State<T>, turns: seq<Turn<T>>)
    requires Initial(s) && Run(s, turns).Some? && Quiet(Run(s, turns).value)
    ensures Run(s, turns).value.metrics.peak == Run(s, turns).value.history.highest
  {
    EveryRunKeepsInv(s, turns);
  }

  // What was noted last is what the run rests at.
  ghost predicate RestsAt<T>(end: State<T>, timeline: Channel.Timeline) {
    && Since(end, timeline) && end.metrics.depth == DepthAt(timeline)
    && end.metrics.fullTime == Channel.FullTime(end.capacity, timeline) && end.history.highest == Channel.HighestDepth(timeline)
  }

  lemma RestWindows<T>(s: State<T>, turns: seq<Turn<T>>)
    requires Initial(s) && Run(s, turns).Some? && Serial(s, turns) && ClockInOrder(turns) && Quiet(Run(s, turns).value)
    ensures RestsAt(Run(s, turns).value, RestingDepths(s, turns))
  {
    if |Run(s, turns).value.pcs| > 0 {
      RunWindows(s, turns, 0);
    } else {
      NoThreadNoTurn(s, turns);
    }
  }

  lemma NoThreadNoTurn<T>(s: State<T>, turns: seq<Turn<T>>)
    requires Run(s, turns).Some? && |Run(s, turns).value.pcs| == 0
    ensures turns == []
  {
    if turns != [] {
      RunUnfolds(s, turns);
      ChannelEndings.CapacityStays(s, turns);
      ChannelEndings.CapacityStays(s, turns[..|turns| - 1]);
    }
  }
}
