/**
The capacity marker under any interleaving.

It is documented to be zero while the queue is not full. A sender may find the queue full and set the
marker only once a receiver has made room, and a receiver may make room and clear the marker only once a
sender has filled the queue again; then the marker is wrong until it is next written.
*/
module ChannelMarker {
  import opened Wrappers
  import opened ChannelProtocol

  // The last write of the marker, and whether the queue was full at that moment.
  datatype Write = NeverWritten | Marked(full: bool) | Cleared(full: bool)

  predicate IsFull<T>(s: State<T>) {
    AtCapacity(s, s.metrics.depth)
  }

  // The exchange that finds the marker unset, and the swap that finds it set.
  predicate Marks<T>(s: State<T>, t: nat) {
    t < |s.pcs| && s.metrics.marker == 0
    && ((s.pcs[t].Marking? && s.pcs[t].stage.ExchangeMarker?) || (s.pcs[t].Remarking? && s.pcs[t].again.ExchangeMarker?))
  }

  predicate Clears<T>(s: State<T>, t: nat) {
    t < |s.pcs| && s.metrics.marker != 0 && s.pcs[t].ClearMarker?
  }

  function After<T>(s: State<T>, t: nat, write: Write): Write {
    if Marks(s, t) then Marked(IsFull(s)) else if Clears(s, t) then Cleared(IsFull(s)) else write
  }

  function LastWrite<T>(s: State<T>, turns: seq<Turn<T>>): Write
    requires Run(s, turns).Some?
  {
    if turns == [] then NeverWritten
    else
      RunUnfolds(s, turns);
      var before := turns[..|turns| - 1];
      After(Run(s, before).value, turns[|turns| - 1].thread, LastWrite(s, before))
  }

  // The marker was set on a full queue, or cleared on one that was not.
  predicate InTime(write: Write) {
    match write
    case NeverWritten => true
    case Marked(full) => full
    case Cleared(full) => !full
  }

  // A sender that has raised the depth and has yet to mark the queue.
  predicate WillMark<T>(pc: Pc<T>) {
    pc.LoadPeak? || pc.PeakLoop? || pc.Remarking?
  }

  // A marker that does not fit is on its way to being written, if its last write was in time.
  ghost predicate Fitting<T>(s: State<T>, write: Write) {
    && (s.metrics.marker != 0 <==> write.Marked?)
    && (InTime(write) && s.metrics.marker != 0 && !IsFull(s) ==> exists i :: 0 <= i < |s.pcs| && s.pcs[i].ClearMarker?)
    && (InTime(write) && s.metrics.marker == 0 && IsFull(s) ==> exists i :: 0 <= i < |s.pcs| && WillMark(s.pcs[i]))
  }

  // A step that writes neither the marker nor the depth leaves a thread on its way where it was, or on its way still.
  lemma StillFits<T>(s: State<T>, s': State<T>, t: nat, write: Write)
    requires Fitting(s, write) && t < |s.pcs| && s'.capacity == s.capacity && s'.pcs == s.pcs[t := At(s', t)] && |s'.pcs| == |s.pcs|
    requires s'.metrics.marker == s.metrics.marker && s'.metrics.depth == s.metrics.depth
    requires WillMark(s.pcs[t]) && s.metrics.marker == 0 && IsFull(s) ==> WillMark(s'.pcs[t])
    requires s.pcs[t].ClearMarker? ==> s.metrics.marker == 0
    ensures Fitting(s', write)
  {
    if InTime(write) && s.metrics.marker != 0 && !IsFull(s) {
      var i :| 0 <= i < |s.pcs| && s.pcs[i].ClearMarker?;
      assert s'.pcs[i].ClearMarker?;
    }
    if InTime(write) && s.metrics.marker == 0 && IsFull(s) {
      var i :| 0 <= i < |s.pcs| && WillMark(s.pcs[i]);
      assert WillMark(s'.pcs[i]);
    }
  }

  lemma MarkingFits<T>(s: State<T>, t: nat, choice: Choice<T>, write: Write)
    requires Fitting(s, write) && Step(s, t, choice).Some? && IsMark(s.pcs[t])
    ensures Fitting(Step(s, t, choice).value, After(s, t, write))
  {
    var s' := MarkStep(s, t, choice.now);
    if !Marks(s, t) { StillFits(s, s', t, write); }
  }

  lemma BeginningFits<T>(s: State<T>, t: nat, choice: Choice<T>, write: Write)
    requires Fitting(s, write) && Step(s, t, choice).Some? && s.pcs[t].Idle?
    ensures Fitting(Step(s, t, choice).value, After(s, t, write))
  {
    var s' := Step(s, t, choice).value;
    assert s'.metrics == s.metrics;
    StillFits(s, s', t, write);
  }

  lemma RaisingFits<T>(s: State<T>, t: nat, choice: Choice<T>, write: Write)
    requires Fitting(s, write) && Step(s, t, choice).Some? && s.pcs[t].RaiseDepth?
    ensures Fitting(Step(s, t, choice).value, After(s, t, write))
  {
    var s' := SendStep(s, t, choice.spurious).value;
    assert WillMark(s'.pcs[t]);
    if InTime(write) && s'.metrics.marker != 0 && !IsFull(s') {
      var i :| 0 <= i < |s.pcs| && s.pcs[i].ClearMarker?;
      assert s'.pcs[i].ClearMarker?;
    }
  }

  lemma SendingFits<T>(s: State<T>, t: nat, choice: Choice<T>, write: Write)
    requires Fitting(s, write) && Step(s, t, choice).Some? && Sending(s.pcs[t]) && !IsMark(s.pcs[t]) && !s.pcs[t].RaiseDepth?
    ensures Fitting(Step(s, t, choice).value, After(s, t, write))
  {
    var s' := SendStep(s, t, choice.spurious).value;
    StillFits(s, s', t, write);
  }

  lemma LoweringFits<T>(s: State<T>, t: nat, choice: Choice<T>, write: Write)
    requires Fitting(s, write) && Step(s, t, choice).Some? && s.pcs[t].LowerDepth?
    ensures Fitting(Step(s, t, choice).value, After(s, t, write))
  {
    var s' := ReceiveStep(s, t, choice.now).value;
    if InTime(write) && s'.metrics.marker != 0 && !IsFull(s') {
      if IsFull(s) {
        assert s'.pcs[t].ClearMarker?;
      } else {
        var i :| 0 <= i < |s.pcs| && s.pcs[i].ClearMarker?;
        assert s'.pcs[i].ClearMarker?;
      }
    }
    if InTime(write) && s'.metrics.marker == 0 && IsFull(s') {
      var i :| 0 <= i < |s.pcs| && WillMark(s.pcs[i]);
      assert WillMark(s'.pcs[i]);
    }
  }

  lemma ReceivingFits<T>(s: State<T>, t: nat, choice: Choice<T>, write: Write)
    requires Fitting(s, write) && Step(s, t, choice).Some? && Receiving(s.pcs[t]) && !s.pcs[t].LowerDepth?
    ensures Fitting(Step(s, t, choice).value, After(s, t, write))
  {
    var s' := ReceiveStep(s, t, choice.now).value;
    if !Clears(s, t) { StillFits(s, s', t, write); }
  }

  lemma StepFits<T>(s: State<T>, t: nat, choice: Choice<T>, write: Write)
    requires Fitting(s, write) && Step(s, t, choice).Some?
    ensures Fitting(Step(s, t, choice).value, After(s, t, write))
  {
    if s.pcs[t].Idle? {
      BeginningFits(s, t, choice, write);
    } else if IsMark(s.pcs[t]) {
      MarkingFits(s, t, choice, write);
    } else if s.pcs[t].RaiseDepth? {
      RaisingFits(s, t, choice, write);
    } else if Sending(s.pcs[t]) {
      SendingFits(s, t, choice, write);
    } else if s.pcs[t].LowerDepth? {
      LoweringFits(s, t, choice, write);
    } else {
      ReceivingFits(s, t, choice, write);
    }
  }

  lemma {:induction false} RunFits<T>(s: State<T>, turns: seq<Turn<T>>)
    requires Initial(s) && Run(s, turns).Some?
    ensures Fitting(Run(s, turns).value, LastWrite(s, turns))
  {
    if turns != [] {
      var before, last := turns[..|turns| - 1], turns[|turns| - 1];
      RunUnfolds(s, turns);
      RunFits(s, before);
      StepFits(Run(s, before).value, last.thread, last.choice, LastWrite(s, before));
    }
  }

  /**
  With no operation in flight, after any interleaving, the marker is set exactly when the queue is full if
  it was last written in time: set on a full queue, or cleared on one that was not. If it was not, it fits
  only by the queue having become full, or ceased to be, since.
  */
  lemma MarkerFitsUnlessWrittenLate<T>(s: State<T>, turns: seq<Turn<T>>)
    requires Initial(s) && Run(s, turns).Some? && Quiet(Run(s, turns).value)
    ensures var end, write := Run(s, turns).value, LastWrite(s, turns);
            (end.metrics.marker != 0 <==> AtCapacity(end, end.metrics.depth)) <==> InTime(write) || AtCapacity(end, end.metrics.depth) != write.full
  {
    RunFits(s, turns);
  }

  // ---- A marker that is written late ----

  // A sender fills the queue, finds it full and unmarked, and is interrupted before it marks it.
  lemma SenderFindsItFull(s: State<int>) returns (turns: seq<Turn<int>>, mid: State<int>)
    requires s == State(Some(1), [], false, false, Metrics(0, 0, 0, 0, 0, 0, 0), [Idle, Idle], History([], [], 0, 0, 0, 0, {}))
    ensures Run(s, turns) == Some(mid)
    ensures mid == State(Some(1), [7], false, false, Metrics(1, 0, 1, 1, 0, 0, 0), [Remarking(ExchangeMarker), Idle], History([7], [], 1, 0, 0, 1, {1}))
  {
    var before := SenderPushes(s);
    mid := Run(s, before).value;
    var go := Turn(0, Proceed(1, false));
    var next := mid.(pcs := mid.pcs[0 := PeakLoop(1, 0)]);
    RunThen(s, before, mid, go, next);
    var peaked := next.(pcs := next.pcs[0 := Remarking(LoadDepth)], metrics := next.metrics.(peak := 1));
    RunThen(s, before + [go], next, go, peaked);
    var loaded := peaked.(pcs := peaked.pcs[0 := Remarking(LoadMarker)]);
    RunThen(s, before + [go] + [go], peaked, go, loaded);
    mid := loaded.(pcs := loaded.pcs[0 := Remarking(ExchangeMarker)]);
    RunThen(s, before + [go] + [go] + [go], loaded, go, mid);
    turns := before + [go] + [go] + [go] + [go];
  }

  lemma SenderPushes(s: State<int>) returns (turns: seq<Turn<int>>)
    requires s == State(Some(1), [], false, false, Metrics(0, 0, 0, 0, 0, 0, 0), [Idle, Idle], History([], [], 0, 0, 0, 0, {}))
    ensures Run(s, turns) == Some(State(Some(1), [7], false, false, Metrics(1, 0, 1, 0, 0, 0, 0), [LoadPeak(1), Idle], History([7], [], 1, 0, 0, 1, {1})))
  {
    var begin, go := Turn(0, BeginSend(7)), Turn(0, Proceed(1, false));
    var a := s.(pcs := s.pcs[0 := Marking(LoadDepth, 7)]);
    RunThen(s, [], s, begin, a);
    var b := a.(pcs := a.pcs[0 := Push(7)]);
    RunThen(s, [] + [begin], a, go, b);
    var c := b.(queue := b.queue + [7], pcs := b.pcs[0 := CountSent], history := b.history.(pushed := b.history.pushed + [7]));
    RunThen(s, [] + [begin] + [go], b, go, c);
    var d := c.(pcs := c.pcs[0 := RaiseDepth], metrics := c.metrics.(sent := 1));
    RunThen(s, [] + [begin] + [go] + [go], c, go, d);
    var e := d.(pcs := d.pcs[0 := LoadPeak(1)], metrics := d.metrics.(depth := 1),
                history := d.history.(raises := 1, highest := 1, published := d.history.published + {1}));
    RunThen(s, [] + [begin] + [go] + [go] + [go], d, go, e);
    assert e.history.published == {1} && e.queue == [7] && e.history.pushed == [7] && e.pcs == [LoadPeak(1), Idle];
    turns := [] + [begin] + [go] + [go] + [go] + [go];
  }

  // The value is received meanwhile.
  lemma ReceiverTakesIt(s: State<int>, before: seq<Turn<int>>, mid: State<int>) returns (turns: seq<Turn<int>>, end: State<int>)
    requires Run(s, before) == Some(mid)
    requires mid == State(Some(1), [7], false, false, Metrics(1, 0, 1, 1, 0, 0, 0), [Remarking(ExchangeMarker), Idle], History([7], [], 1, 0, 0, 1, {1}))
    ensures Run(s, turns) == Some(end)
    ensures end == State(Some(1), [], false, false, Metrics(1, 1, 1, 1, 0, 0, 0), [Remarking(ExchangeMarker), LowerDepth], History([7], [7], 1, 0, 0, 1, {1}))
  {
    var begin, receive := Turn(1, BeginReceive(true)), Turn(1, Proceed(1, false));
    var a := mid.(pcs := mid.pcs[1 := Pop(true)]);
    RunThen(s, before, mid, begin, a);
    var b := a.(queue := a.queue[1..], pcs := a.pcs[1 := CountReceived], history := a.history.(popped := a.history.popped + [7]));
    RunThen(s, before + [begin], a, receive, b);
    end := b.(pcs := b.pcs[1 := LowerDepth], metrics := b.metrics.(received := 1));
    RunThen(s, before + [begin] + [receive], b, receive, end);
    turns := before + [begin] + [receive] + [receive];
  }

  // The receiver lowers the depth, and finds no marker to clear.
  lemma ReceiverFindsNoMarker(s: State<int>, before: seq<Turn<int>>, mid: State<int>) returns (turns: seq<Turn<int>>, end: State<int>)
    requires Run(s, before) == Some(mid)
    requires mid == State(Some(1), [], false, false, Metrics(1, 1, 1, 1, 0, 0, 0), [Remarking(ExchangeMarker), LowerDepth], History([7], [7], 1, 0, 0, 1, {1}))
    ensures Run(s, turns) == Some(end)
    ensures end == State(Some(1), [], false, false, Metrics(1, 1, 0, 1, 0, 0, 0), [Remarking(ExchangeMarker), Idle], History([7], [7], 1, 1, 0, 1, {1}))
  {
    var receive := Turn(1, Proceed(1, false));
    var lowered := mid.(pcs := mid.pcs[1 := ClearMarker], metrics := mid.metrics.(depth := 0), history := mid.history.(lowers := 1));
    RunThen(s, before, mid, receive, lowered);
    end := lowered.(pcs := lowered.pcs[1 := Idle]);
    RunThen(s, before + [receive], lowered, receive, end);
    turns := before + [receive] + [receive];
  }

  /** A quiet, empty channel is left marked as full: its one value was received before its sender marked the queue it had filled. */
  lemma MarkerOutlivesFullness(s: State<int>) returns (turns: seq<Turn<int>>, end: State<int>)
    requires s == State(Some(1), [], false, false, Metrics(0, 0, 0, 0, 0, 0, 0), [Idle, Idle], History([], [], 0, 0, 0, 0, {}))
    ensures Initial(s) && Run(s, turns) == Some(end) && Quiet(end)
    ensures end.queue == [] && end.metrics.depth == 0 && end.metrics.marker != 0
  {
    var before, mid := SenderFindsItFull(s);
    var taking, taken := ReceiverTakesIt(s, before, mid);
    var later, emptied := ReceiverFindsNoMarker(s, taking, taken);
    end := emptied.(pcs := emptied.pcs[0 := Idle], metrics := emptied.metrics.(marker := 1));
    RunThen(s, later, emptied, Turn(0, Proceed(1, false)), end);
    turns := later + [Turn(0, Proceed(1, false))];
  }

  /** The next send on a full queue without a marker sets it before it waits for room. */
  lemma NextSendRepairsMarker<T>(s: State<T>, t: nat, message: T, now: nat) returns (turns: seq<Turn<T>>)
    requires t < |s.pcs| && s.pcs[t].Idle? && !s.sendersDropped && IsFull(s) && s.metrics.marker == 0
    ensures forall turn :: turn in turns ==> turn.thread == t
    ensures Run(s, turns) == Some(s.(pcs := s.pcs[t := Push(message)], metrics := s.metrics.(marker := Max(1, now))))
  {
    var begin, go := Turn(t, BeginSend(message)), Turn(t, Proceed(now, false));
    var a := Goto(s, t, Marking(LoadDepth, message));
    RunThen(s, [], s, begin, a);
    var b := Goto(a, t, Marking(LoadMarker, message));
    RunThen(s, [] + [begin], a, go, b);
    var c := Goto(b, t, Marking(ExchangeMarker, message));
    RunThen(s, [] + [begin] + [go], b, go, c);
    var d := Goto(c.(metrics := c.metrics.(marker := Max(1, now))), t, Push(message));
    RunThen(s, [] + [begin] + [go] + [go], c, go, d);
    assert d.pcs == s.pcs[t := Push(message)];
    turns := [] + [begin] + [go] + [go] + [go];
  }
}
