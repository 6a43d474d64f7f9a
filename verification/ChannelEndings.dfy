/** How the operations of the instrumented channel end, under any interleaving of any number of threads. */
module ChannelEndings {
  import opened Wrappers
  import opened ChannelProtocol

  // ---- Every operation ends in one way ----

  function Begun<T>(turns: seq<Turn<T>>): nat {
    if turns == [] then 0
    else
      var last := turns[|turns| - 1].choice;
      Begun(turns[..|turns| - 1]) + if last.BeginSend? || last.BeginReceive? then 1 else 0
  }

  // A receive that does not wait finds nothing to receive.
  predicate FindsNothing<T>(s: State<T>, t: nat) {
    t < |s.pcs| && s.pcs[t] == Pop(false) && s.queue == []
  }

  function EmptyHanded<T>(s: State<T>, turns: seq<Turn<T>>): nat
    requires Run(s, turns).Some?
  {
    if turns == [] then 0
    else
      RunUnfolds(s, turns);
      var before := turns[..|turns| - 1];
      EmptyHanded(s, before) + if FindsNothing(Run(s, before).value, turns[|turns| - 1].thread) then 1 else 0
  }

  // How many operations have come to their verdict: a value handed over, the other half gone, or nothing found.
  function Decided<T>(s: State<T>): nat {
    |s.history.pushed| + |s.history.popped| + s.metrics.disconnected
  }

  function Starts<T>(choice: Choice<T>): nat {
    if choice.BeginSend? || choice.BeginReceive? then 1 else 0
  }

  lemma StepDecides<T>(s: State<T>, t: nat, choice: Choice<T>)
    requires Step(s, t, choice).Some?
    ensures var s' := Step(s, t, choice).value;
            && t < |s.pcs| && |s'.pcs| == |s.pcs| && s'.pcs == s.pcs[t := s'.pcs[t]]
            && Decided(s') - Decided(s) + (if FindsNothing(s, t) then 1 else 0) + Change(s.pcs[t], s'.pcs[t], Verdict) == Starts(choice)
  {
    if IsMark(s.pcs[t]) || s.pcs[t].Idle? {
      OtherSettles(s, t, choice);
    } else if Sending(s.pcs[t]) {
      SendDecides(s, t, choice);
    } else {
      ReceiveDecides(s, t, choice);
    }
  }

  lemma SendDecides<T>(s: State<T>, t: nat, choice: Choice<T>)
    requires Step(s, t, choice).Some? && Sending(s.pcs[t]) && !IsMark(s.pcs[t])
    ensures var s' := SendStep(s, t, choice.spurious).value;
            |s'.pcs| == |s.pcs| && s'.pcs == s.pcs[t := s'.pcs[t]] && Decided(s') - Decided(s) + Change(s.pcs[t], s'.pcs[t], Verdict) == 0
  {
  }

  lemma ReceiveDecides<T>(s: State<T>, t: nat, choice: Choice<T>)
    requires Step(s, t, choice).Some? && Receiving(s.pcs[t])
    ensures var s' := ReceiveStep(s, t, choice.now).value;
            && |s'.pcs| == |s.pcs| && s'.pcs == s.pcs[t := s'.pcs[t]]
            && Decided(s') - Decided(s) + (if FindsNothing(s, t) then 1 else 0) + Change(s.pcs[t], s'.pcs[t], Verdict) == 0
  {
  }

  lemma {:induction false} BegunAreDecided<T>(s: State<T>, turns: seq<Turn<T>>)
    requires Initial(s) && Run(s, turns).Some?
    ensures var end := Run(s, turns).value;
            Begun(turns) == Decided(end) + EmptyHanded(s, turns) + Count(end.pcs, Verdict)
  {
    if turns == [] {
      CountNone(s.pcs, Verdict);
    } else {
      var before, last := turns[..|turns| - 1], turns[|turns| - 1];
      RunUnfolds(s, turns);
      BegunAreDecided(s, before);
      var mid, end := Run(s, before).value, Run(s, turns).value;
      StepDecides(mid, last.thread, last.choice);
      CountUpdate(mid.pcs, Verdict, last.thread, end.pcs[last.thread]);
    }
  }

  /**
  Every operation begun ends in exactly one way: a value sent, a value received, the other half found
  gone, or, without waiting, nothing found. None is lost and none is counted twice.
  */
  lemma EveryOperationEndsOnce<T>(s: State<T>, turns: seq<Turn<T>>)
    requires Initial(s) && Run(s, turns).Some? && Quiet(Run(s, turns).value)
    ensures var m := Run(s, turns).value.metrics;
            Begun(turns) == m.sent + m.received + m.disconnected + EmptyHanded(s, turns)
  {
    BegunAreDecided(s, turns);
    QuietDepth(s, turns);
    QuietIsDecided(Run(s, turns).value);
  }

  lemma QuietIsDecided<T>(s: State<T>)
    requires Quiet(s)
    ensures Count(s.pcs, Verdict) == 0
  {
    CountNone(s.pcs, Verdict);
  }

  // ---- A half that is gone ----

  // No thread uses a half of the channel that was dropped.
  ghost predicate Unused<T>(s: State<T>) {
    && (s.receiverDropped ==> forall i :: 0 <= i < |s.pcs| ==> !Receiving(s.pcs[i]))
    && (s.sendersDropped ==> forall i :: 0 <= i < |s.pcs| ==> !Sending(s.pcs[i]))
  }

  // What a step may change of the two halves, and of the queue where one is gone.
  ghost predicate Closing<T>(s: State<T>, s': State<T>) {
    && (s.receiverDropped ==> s'.receiverDropped && s'.history.pushed == s.history.pushed && s'.history.popped == s.history.popped)
    && (s.sendersDropped ==> s'.sendersDropped && s'.history.pushed == s.history.pushed)
  }

  lemma StepKeepsUnused<T>(s: State<T>, t: nat, choice: Choice<T>)
    requires Unused(s) && Step(s, t, choice).Some?
    ensures Unused(Step(s, t, choice).value) && Closing(s, Step(s, t, choice).value)
  {
    if s.pcs[t].Idle? {
      BeginKeepsUnused(s, t, choice);
    } else if IsMark(s.pcs[t]) {
      MarkKeepsUnused(s, t, choice);
    } else if Sending(s.pcs[t]) {
      SendKeepsUnused(s, t, choice);
    } else {
      ReceiveKeepsUnused(s, t, choice);
    }
  }

  lemma BeginKeepsUnused<T>(s: State<T>, t: nat, choice: Choice<T>)
    requires Unused(s) && Step(s, t, choice).Some? && s.pcs[t].Idle?
    ensures Unused(Step(s, t, choice).value) && Closing(s, Step(s, t, choice).value)
  {
  }

  lemma MarkKeepsUnused<T>(s: State<T>, t: nat, choice: Choice<T>)
    requires Unused(s) && Step(s, t, choice).Some? && IsMark(s.pcs[t])
    ensures Unused(Step(s, t, choice).value) && Closing(s, Step(s, t, choice).value)
  {
  }

  lemma SendKeepsUnused<T>(s: State<T>, t: nat, choice: Choice<T>)
    requires Unused(s) && Step(s, t, choice).Some? && Sending(s.pcs[t]) && !IsMark(s.pcs[t])
    ensures Unused(Step(s, t, choice).value) && Closing(s, Step(s, t, choice).value)
  {
    assert Sending(s.pcs[t]);
  }

  lemma ReceiveKeepsUnused<T>(s: State<T>, t: nat, choice: Choice<T>)
    requires Unused(s) && Step(s, t, choice).Some? && Receiving(s.pcs[t])
    ensures Unused(Step(s, t, choice).value) && Closing(s, Step(s, t, choice).value)
  {
    assert Receiving(s.pcs[t]);
  }

  lemma {:induction false} EveryRunKeepsUnused<T>(s: State<T>, turns: seq<Turn<T>>)
    requires Unused(s) && Run(s, turns).Some?
    ensures Unused(Run(s, turns).value) && Closing(s, Run(s, turns).value)
  {
    if turns != [] {
      var before, last := turns[..|turns| - 1], turns[|turns| - 1];
      RunUnfolds(s, turns);
      EveryRunKeepsUnused(s, before);
      StepKeepsUnused(Run(s, before).value, last.thread, last.choice);
    }
  }

  /** Once the receiver is gone nothing enters or leaves the queue, and once the senders are nothing enters it. */
  lemma ClosedStaysClosed<T>(s: State<T>, first: seq<Turn<T>>, more: seq<Turn<T>>)
    requires Initial(s) && Run(s, first).Some? && Run(Run(s, first).value, more).Some?
    ensures Closing(Run(s, first).value, Run(Run(s, first).value, more).value)
  {
    EveryRunKeepsUnused(s, first);
    EveryRunKeepsUnused(Run(s, first).value, more);
  }

  /** A receive that finds the senders gone has nothing left to take: every value ever pushed was popped before. */
  lemma DisconnectedOnceDrained<T>(s: State<T>, turns: seq<Turn<T>>, t: nat, choice: Choice<T>, more: seq<Turn<T>>)
    requires Initial(s) && Run(s, turns).Some?
    requires var mid := Run(s, turns).value;
             && Step(mid, t, choice).Some? && mid.pcs[t].Pop? && Step(mid, t, choice).value.metrics.disconnected > mid.metrics.disconnected
             && Run(Step(mid, t, choice).value, more).Some?
    ensures var end := Run(Step(Run(s, turns).value, t, choice).value, more).value;
            end.history.popped == end.history.pushed == Run(s, turns).value.history.popped
  {
    var mid := Run(s, turns).value;
    var next := Step(mid, t, choice).value;
    EveryRunKeepsInv(s, turns);
    EveryRunKeepsUnused(s, turns);
    StepKeepsUnused(mid, t, choice);
    EveryRunKeepsUnused(next, more);
    StepKeepsInv(mid, t, choice);
    InvThroughout(next, more);
  }

  lemma {:induction false} InvThroughout<T>(s: State<T>, turns: seq<Turn<T>>)
    requires Inv(s) && Run(s, turns).Some?
    ensures Inv(Run(s, turns).value) && s.history.popped <= Run(s, turns).value.history.popped
  {
    if turns != [] {
      var before, last := turns[..|turns| - 1], turns[|turns| - 1];
      RunUnfolds(s, turns);
      InvThroughout(s, before);
      StepKeepsInv(Run(s, before).value, last.thread, last.choice);
      StepIsQueueStep(Run(s, before).value, last.thread, last.choice);
    }
  }

  // ---- Waiting ----

  // No step of an active thread is enabled.
  ghost predicate Blocked<T>(s: State<T>, t: nat) {
    t < |s.pcs| && !s.pcs[t].Idle? && forall now, spurious :: Step(s, t, Proceed(now, spurious)).None?
  }

  predicate WaitsForRoom<T>(s: State<T>, t: nat) {
    t < |s.pcs| && s.pcs[t].Push? && !s.receiverDropped && s.capacity.Some? && |s.queue| == s.capacity.value
  }

  predicate WaitsForValue<T>(s: State<T>, t: nat) {
    t < |s.pcs| && s.pcs[t] == Pop(true) && !s.sendersDropped && s.queue == []
  }

  lemma BlockedWaits<T>(s: State<T>, t: nat)
    requires Fifo(s) && t < |s.pcs|
    ensures Blocked(s, t) <==> WaitsForRoom(s, t) || WaitsForValue(s, t)
  {
    if !s.pcs[t].Idle? {
      ProceedsAlike(s, t);
    }
  }

  // Whether an active thread can step depends on neither the clock nor the exchange.
  lemma ProceedsAlike<T>(s: State<T>, t: nat)
    requires Fifo(s) && t < |s.pcs| && !s.pcs[t].Idle?
    ensures Blocked(s, t) <==> Step(s, t, Proceed(0, false)).None?
    ensures Step(s, t, Proceed(0, false)).None? <==> WaitsForRoom(s, t) || WaitsForValue(s, t)
  {
  }

  /**
  No run deadlocks: an active thread is blocked only by a full queue with a receiver or by an empty one
  with senders, so blocked threads all wait for the same thing, which one more operation can bring.
  */
  lemma BlockedThreadsAgree<T>(s: State<T>, turns: seq<Turn<T>>, t: nat, u: nat)
    requires Initial(s) && Run(s, turns).Some? && Blocked(Run(s, turns).value, t) && Blocked(Run(s, turns).value, u)
    ensures var end := Run(s, turns).value;
            (WaitsForRoom(end, t) && WaitsForRoom(end, u)) || (WaitsForValue(end, t) && WaitsForValue(end, u))
  {
    EveryRunKeepsInv(s, turns);
    CapacityStays(s, turns);
    BlockedWaits(Run(s, turns).value, t);
    BlockedWaits(Run(s, turns).value, u);
  }

  lemma {:induction false} CapacityStays<T>(s: State<T>, turns: seq<Turn<T>>)
    requires Run(s, turns).Some?
    ensures Run(s, turns).value.capacity == s.capacity && |Run(s, turns).value.pcs| == |s.pcs|
  {
    if turns != [] {
      var before, last := turns[..|turns| - 1], turns[|turns| - 1];
      RunUnfolds(s, turns);
      CapacityStays(s, before);
      StepSettles(Run(s, before).value, last.thread, last.choice);
      StepIsQueueStep(Run(s, before).value, last.thread, last.choice);
    }
  }
}
