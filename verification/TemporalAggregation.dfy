/**
Folding a stream of observations into one temporal entity per id, holding one id open at a time.

An aggregate keeps, for each attribute name, one static instance or the series of its time-stamped
ones; finishing it orders every series by time.
*/
module TemporalAggregation {
  import opened Wrappers
  import StableSort

  type Name = string
  type Id = string

  datatype Instance = Instance(observedAt: Option<int>, value: string)

  datatype Wrapper = Single(instance: Instance) | Multi(instances: seq<Instance>)

  datatype Attribute = Attribute(name: Name, wrapper: Wrapper)

  // The members beside the attributes: context, type, scope and expiry.
  datatype Entity = Entity(id: Id, members: string, attributes: seq<Attribute>)

  datatype Bucket = Static(instance: Instance) | Temporal(series: seq<Instance>)

  datatype Slot = Slot(name: Name, bucket: Bucket)

  datatype Aggregate = Aggregate(id: Id, members: string, slots: seq<Slot>)

  datatype Occurrence = Occurrence(name: Name, instance: Instance)

  // ---- The aggregate ----

  function Find(slots: seq<Slot>, name: Name): (i: nat)
    ensures i <= |slots|
    ensures i < |slots| ==> slots[i].name == name
    ensures forall j :: 0 <= j < i ==> slots[j].name != name
  {
    if slots == [] || slots[0].name == name then 0 else 1 + Find(slots[1..], name)
  }

  function Extended(bucket: Bucket, instance: Instance): Bucket {
    if instance.observedAt.None? then bucket
    else if bucket.Temporal? then Temporal(bucket.series + [instance])
    else Temporal([instance])
  }

  function Merge(slots: seq<Slot>, o: Occurrence): seq<Slot> {
    var i := Find(slots, o.name);
    if i < |slots| then slots[i := Slot(o.name, Extended(slots[i].bucket, o.instance))]
    else slots + [Slot(o.name, if o.instance.observedAt.Some? then Temporal([o.instance]) else Static(o.instance))]
  }

  function MergeAll(slots: seq<Slot>, occurrences: seq<Occurrence>): seq<Slot> {
    if occurrences == [] then slots
    else Merge(MergeAll(slots, occurrences[..|occurrences| - 1]), occurrences[|occurrences| - 1])
  }

  function Instances(a: Attribute): seq<Occurrence> {
    match a.wrapper
    case Single(instance) => [Occurrence(a.name, instance)]
    case Multi(instances) => seq(|instances|, i requires 0 <= i < |instances| => Occurrence(a.name, instances[i]))
  }

  function Occurrences(attributes: seq<Attribute>): seq<Occurrence> {
    if attributes == [] then [] else Occurrences(attributes[..|attributes| - 1]) + Instances(attributes[|attributes| - 1])
  }

  function New(first: Entity): Aggregate {
    Aggregate(first.id, first.members, MergeAll([], Occurrences(first.attributes)))
  }

  function Push(a: Aggregate, next: Entity): Aggregate {
    a.(slots := MergeAll(a.slots, Occurrences(next.attributes)))
  }

  function Fold(group: seq<Entity>): Aggregate
    requires group != []
  {
    if |group| == 1 then New(group[0]) else Push(Fold(group[..|group| - 1]), group[|group| - 1])
  }

  function TimeOf(instance: Instance): int {
    if instance.observedAt.Some? then instance.observedAt.value else 0
  }

  function Finished(slot: Slot): Attribute {
    Attribute(slot.name,
              match slot.bucket
              case Static(instance) => Single(instance)
              case Temporal(series) => Multi(StableSort.Sort(series, TimeOf)))
  }

  function Finish(a: Aggregate): Entity {
    Entity(a.id, a.members, seq(|a.slots|, i requires 0 <= i < |a.slots| => Finished(a.slots[i])))
  }

  // ---- What an aggregate holds ----

  function AllOccurrences(group: seq<Entity>): seq<Occurrence> {
    if group == [] then [] else AllOccurrences(group[..|group| - 1]) + Occurrences(group[|group| - 1].attributes)
  }

  lemma {:induction false} MergeAllConcat(slots: seq<Slot>, a: seq<Occurrence>, b: seq<Occurrence>)
    ensures MergeAll(slots, a + b) == MergeAll(MergeAll(slots, a), b)
  {
    if b == [] {
      assert a + b == a;
    } else {
      assert (a + b)[..|a + b| - 1] == a + b[..|b| - 1];
      MergeAllConcat(slots, a, b[..|b| - 1]);
    }
  }

  lemma {:induction false} FoldMergesAll(group: seq<Entity>)
    requires group != []
    ensures Fold(group) == Aggregate(group[0].id, group[0].members, MergeAll([], AllOccurrences(group)))
  {
    var init, last := group[..|group| - 1], group[|group| - 1];
    if |group| == 1 {
      assert AllOccurrences(init) == [] && AllOccurrences(group) == Occurrences(last.attributes);
    } else {
      FoldMergesAll(init);
      MergeAllConcat([], AllOccurrences(init), Occurrences(last.attributes));
    }
  }

  // The instances under one name, in order of arrival.
  function Under(occurrences: seq<Occurrence>, name: Name): seq<Instance> {
    if occurrences == [] then []
    else
      var last := occurrences[|occurrences| - 1];
      Under(occurrences[..|occurrences| - 1], name) + if last.name == name then [last.instance] else []
  }

  function Stamped(instances: seq<Instance>): seq<Instance> {
    if instances == [] then []
    else
      var last := instances[|instances| - 1];
      Stamped(instances[..|instances| - 1]) + if last.observedAt.Some? then [last] else []
  }

  // The names that occur, each once, in first-seen order.
  function Seen(occurrences: seq<Occurrence>): seq<Name> {
    if occurrences == [] then []
    else
      var before, last := Seen(occurrences[..|occurrences| - 1]), occurrences[|occurrences| - 1];
      if last.name in before then before else before + [last.name]
  }

  // What the instances under one name amount to: their series if one has a time, else the first.
  function BucketOf(instances: seq<Instance>): Bucket
    requires instances != []
  {
    if Stamped(instances) != [] then Temporal(Stamped(instances)) else Static(instances[0])
  }

  ghost predicate HoldsAll(slots: seq<Slot>, occurrences: seq<Occurrence>) {
    && |slots| == |Seen(occurrences)|
    && (forall i :: 0 <= i < |slots| ==> slots[i].name == Seen(occurrences)[i])
    && (forall i, j :: 0 <= i < j < |slots| ==> slots[i].name != slots[j].name)
    && (forall i :: 0 <= i < |slots| ==> Under(occurrences, slots[i].name) != [] && slots[i].bucket == BucketOf(Under(occurrences, slots[i].name)))
  }

  lemma {:induction false} UnseenHasNone(occurrences: seq<Occurrence>, name: Name)
    ensures name in Seen(occurrences) <==> Under(occurrences, name) != []
  {
    if occurrences != [] {
      UnseenHasNone(occurrences[..|occurrences| - 1], name);
    }
  }

  // One more instance extends the bucket of its name as it extends the name's instances.
  lemma BucketExtends(instances: seq<Instance>, next: Instance)
    ensures BucketOf(instances + [next])
            == if instances == [] then (if next.observedAt.Some? then Temporal([next]) else Static(next)) else Extended(BucketOf(instances), next)
  {
    assert (instances + [next])[..|instances|] == instances;
    assert Stamped(instances + [next]) == Stamped(instances) + if next.observedAt.Some? then [next] else [];
  }

  // The instance of a name seen before goes to that name's slot and leaves the others alone.
  lemma MergeSeen(slots: seq<Slot>, before: seq<Occurrence>, next: Occurrence, i: nat)
    requires HoldsAll(slots, before) && i < |slots| && slots[i].name == next.name
    ensures HoldsAll(slots[i := Slot(next.name, Extended(slots[i].bucket, next.instance))], before + [next])
  {
    var all := before + [next];
    assert all[..|before|] == before;
    BucketExtends(Under(before, next.name), next.instance);
    assert next.name in Seen(before);
    forall j | 0 <= j < |slots| && j != i ensures Under(all, slots[j].name) == Under(before, slots[j].name) {
    }
  }

  lemma MergeUnseen(slots: seq<Slot>, before: seq<Occurrence>, next: Occurrence)
    requires HoldsAll(slots, before) && next.name !in Seen(before) && Under(before, next.name) == []
    ensures HoldsAll(slots + [Slot(next.name, if next.instance.observedAt.Some? then Temporal([next.instance]) else Static(next.instance))], before + [next])
  {
    var all := before + [next];
    assert all[..|before|] == before;
    BucketExtends([], next.instance);
    assert Under(all, next.name) == [] + [next.instance];
    forall j | 0 <= j < |slots| ensures Under(all, slots[j].name) == Under(before, slots[j].name) && slots[j].name != next.name {
      assert slots[j].name in Seen(before);
    }
  }

  lemma {:induction false} MergeHoldsAll(occurrences: seq<Occurrence>)
    ensures HoldsAll(MergeAll([], occurrences), occurrences)
  {
    if occurrences != [] {
      var before, last := occurrences[..|occurrences| - 1], occurrences[|occurrences| - 1];
      var slots := MergeAll([], before);
      assert before + [last] == occurrences;
      MergeHoldsAll(before);
      var i := Find(slots, last.name);
      if i < |slots| {
        MergeSeen(slots, before, last, i);
      } else {
        UnseenHasNone(before, last.name);
        MergeUnseen(slots, before, last);
      }
    }
  }

  /**
  A finished group has its first observation's members and, for every name seen, in first-seen order,
  the time-ordered series of all its time-stamped instances, or the first instance if none has a time.
  */
  lemma FinishedGroup(group: seq<Entity>)
    requires group != []
    ensures var e := Finish(Fold(group));
            var all := AllOccurrences(group);
            && e.id == group[0].id && e.members == group[0].members && |e.attributes| == |Seen(all)|
            && forall i :: 0 <= i < |e.attributes| ==>
                 var name := Seen(all)[i];
                 var stamped := Stamped(Under(all, name));
                 && e.attributes[i].name == name && Under(all, name) != []
                 && (stamped == [] ==> e.attributes[i].wrapper == Single(Under(all, name)[0]))
                 && (stamped != [] ==> e.attributes[i].wrapper.Multi?
                                       && StableSort.SortedBy(e.attributes[i].wrapper.instances, TimeOf)
                                       && (forall t :: StableSort.Select(e.attributes[i].wrapper.instances, TimeOf, t) == StableSort.Select(stamped, TimeOf, t)))
  {
    FoldMergesAll(group);
    var all := AllOccurrences(group);
    MergeHoldsAll(all);
    forall series: seq<Instance>
      ensures StableSort.SortedBy(StableSort.Sort(series, TimeOf), TimeOf)
      ensures forall t :: StableSort.Select(StableSort.Sort(series, TimeOf), TimeOf, t) == StableSort.Select(series, TimeOf, t)
    {
      StableSort.SortLaws(series, TimeOf);
    }
  }

  // ---- Nothing time-stamped is lost ----

  // An instance of an attribute, alone or among several.
  predicate Has(a: Attribute, instance: Instance) {
    match a.wrapper
    case Single(only) => only == instance
    case Multi(instances) => instance in instances
  }

  lemma {:induction false} OccursInEntity(attributes: seq<Attribute>, name: Name, instance: Instance)
    ensures Occurrence(name, instance) in Occurrences(attributes) <==> exists k :: 0 <= k < |attributes| && attributes[k].name == name && Has(attributes[k], instance)
  {
    if attributes != [] {
      var n := |attributes| - 1;
      OccursInEntity(attributes[..n], name, instance);
      OccursInAttribute(attributes[n], name, instance);
      assert forall k :: 0 <= k < n ==> attributes[..n][k] == attributes[k];
    }
  }

  lemma OccursInAttribute(a: Attribute, name: Name, instance: Instance)
    ensures Occurrence(name, instance) in Instances(a) <==> a.name == name && Has(a, instance)
  {
    if a.wrapper.Multi? {
      var instances := a.wrapper.instances;
      if Has(a, instance) && a.name == name {
        var i :| 0 <= i < |instances| && instances[i] == instance;
        assert Instances(a)[i] == Occurrence(name, instance);
      }
    }
  }

  lemma {:induction false} OccursInGroup(group: seq<Entity>, o: Occurrence)
    ensures o in AllOccurrences(group) <==> exists e :: 0 <= e < |group| && o in Occurrences(group[e].attributes)
  {
    if group != [] {
      var n := |group| - 1;
      OccursInGroup(group[..n], o);
      assert forall e :: 0 <= e < n ==> group[..n][e] == group[e];
    }
  }

  lemma {:induction false} StampedUnder(occurrences: seq<Occurrence>, name: Name, instance: Instance)
    requires instance.observedAt.Some?
    ensures instance in Stamped(Under(occurrences, name)) <==> Occurrence(name, instance) in occurrences
  {
    if occurrences != [] {
      var n := |occurrences| - 1;
      var before := Under(occurrences[..n], name);
      StampedUnder(occurrences[..n], name, instance);
      assert occurrences == occurrences[..n] + [occurrences[n]];
      if occurrences[n].name == name {
        var last := occurrences[n].instance;
        assert Under(occurrences, name) == before + [last] && (before + [last])[..|before|] == before;
        assert Stamped(before + [last]) == Stamped(before) + if last.observedAt.Some? then [last] else [];
      } else {
        assert Under(occurrences, name) == before + [] == before;
      }
    }
  }

  lemma {:induction false} SelectedIsHeld(instances: seq<Instance>, instance: Instance)
    ensures instance in instances <==> instance in StableSort.Select(instances, TimeOf, TimeOf(instance))
  {
    if instances != [] {
      SelectedIsHeld(instances[1..], instance);
      assert instances == [instances[0]] + instances[1..];
    }
  }

  /** A time-stamped instance is in a finished group, under its name, exactly when some observation of the group has it under that name. */
  lemma StampedInstancesAreKept(group: seq<Entity>, name: Name, instance: Instance)
    requires group != [] && instance.observedAt.Some?
    ensures var finished := Finish(Fold(group)).attributes;
            (exists k :: 0 <= k < |finished| && finished[k].name == name && Has(finished[k], instance))
            <==> exists e, k :: 0 <= e < |group| && 0 <= k < |group[e].attributes| && group[e].attributes[k].name == name && Has(group[e].attributes[k], instance)
  {
    var finished, all := Finish(Fold(group)).attributes, AllOccurrences(group);
    FinishedGroup(group);
    StampedUnder(all, name, instance);
    OccursInGroup(group, Occurrence(name, instance));
    forall e | 0 <= e < |group|
      ensures Occurrence(name, instance) in Occurrences(group[e].attributes)
              <==> exists k :: 0 <= k < |group[e].attributes| && group[e].attributes[k].name == name && Has(group[e].attributes[k], instance)
    {
      OccursInEntity(group[e].attributes, name, instance);
    }
    KeptUnderItsName(group, finished, name, instance);
  }

  lemma KeptUnderItsName(group: seq<Entity>, finished: seq<Attribute>, name: Name, instance: Instance)
    requires group != [] && instance.observedAt.Some? && finished == Finish(Fold(group)).attributes
    ensures (exists k :: 0 <= k < |finished| && finished[k].name == name && Has(finished[k], instance))
            <==> instance in Stamped(Under(AllOccurrences(group), name))
  {
    var all := AllOccurrences(group);
    var stamped := Stamped(Under(all, name));
    FinishedGroup(group);
    SelectedIsHeld(stamped, instance);
    forall k | 0 <= k < |finished| && finished[k].name == name ensures Has(finished[k], instance) <==> instance in stamped {
      if stamped != [] {
        SelectedIsHeld(finished[k].wrapper.instances, instance);
      } else {
        FirstIsUnstamped(Under(all, name));
      }
    }
    if instance in stamped {
      UnseenHasNone(all, name);
      var k :| 0 <= k < |Seen(all)| && Seen(all)[k] == name;
      assert finished[k].name == name;
    }
  }

  /** The series of a finished group are in the order of their instances' own times, and each instance has one. */
  lemma SeriesAreInTimeOrder(group: seq<Entity>, k: nat, i: nat, j: nat)
    requires group != [] && k < |Finish(Fold(group)).attributes|
    requires var wrapper := Finish(Fold(group)).attributes[k].wrapper; wrapper.Multi? && i < j < |wrapper.instances|
    ensures var series := Finish(Fold(group)).attributes[k].wrapper.instances;
            series[i].observedAt.Some? && series[j].observedAt.Some? && series[i].observedAt.value <= series[j].observedAt.value
  {
    FinishedGroup(group);
    var all, series := AllOccurrences(group), Finish(Fold(group)).attributes[k].wrapper.instances;
    var stamped := Stamped(Under(all, Seen(all)[k]));
    forall n | 0 <= n < |series| ensures series[n].observedAt.Some? {
      SelectedIsHeld(series, series[n]);
      SelectedIsHeld(stamped, series[n]);
      StampedHaveTimes(Under(all, Seen(all)[k]), series[n]);
    }
    assert TimeOf(series[i]) <= TimeOf(series[j]);
  }

  lemma {:induction false} StampedHaveTimes(instances: seq<Instance>, instance: Instance)
    requires instance in Stamped(instances)
    ensures instance.observedAt.Some?
  {
    if instances[|instances| - 1] != instance || instance.observedAt.None? { StampedHaveTimes(instances[..|instances| - 1], instance); }
  }

  lemma {:induction false} FirstIsUnstamped(instances: seq<Instance>)
    requires Stamped(instances) == [] && instances != []
    ensures instances[0].observedAt.None?
  {
    if |instances| > 1 {
      FirstIsUnstamped(instances[..|instances| - 1]);
    }
  }

  // ---- Runs of one id ----

  /** The maximal runs of one id, in order. */
  function Runs(stream: seq<Entity>): (runs: seq<seq<Entity>>)
    ensures forall i :: 0 <= i < |runs| ==> runs[i] != []
  {
    if stream == [] then []
    else
      var before, last := Runs(stream[..|stream| - 1]), stream[|stream| - 1];
      var n := |before|;
      if n > 0 && before[n - 1][0].id == last.id then before[n - 1 := before[n - 1] + [last]] else before + [[last]]
  }

  function Flatten(runs: seq<seq<Entity>>): seq<Entity> {
    if runs == [] then [] else Flatten(runs[..|runs| - 1]) + runs[|runs| - 1]
  }

  /** Consecutive non-empty groups of one id each, neighbours of different ids. */
  ghost predicate AreRunsOf(runs: seq<seq<Entity>>, stream: seq<Entity>) {
    && Flatten(runs) == stream
    && (forall i :: 0 <= i < |runs| ==> runs[i] != [] && forall j :: 0 <= j < |runs[i]| ==> runs[i][j].id == runs[i][0].id)
    && (forall i :: 0 <= i < |runs| - 1 ==> runs[i][0].id != runs[i + 1][0].id)
  }

  /** The runs cover the stream and are maximal. */
  lemma {:induction false} RunsAreRuns(stream: seq<Entity>)
    ensures AreRunsOf(Runs(stream), stream)
  {
    if stream != [] {
      var init, last := stream[..|stream| - 1], stream[|stream| - 1];
      RunsAreRuns(init);
      var before: seq<seq<Entity>> := Runs(init);
      var n := |before|;
      assert stream == init + [last];
      if n > 0 && before[n - 1][0].id == last.id {
        RunGrows(before, init, last);
      } else {
        RunStarts(before, init, last);
      }
    }
  }

  lemma RunGrows(runs: seq<seq<Entity>>, stream: seq<Entity>, last: Entity)
    requires AreRunsOf(runs, stream) && runs != [] && runs[|runs| - 1][0].id == last.id
    ensures AreRunsOf(runs[|runs| - 1 := runs[|runs| - 1] + [last]], stream + [last])
  {
    var n := |runs| - 1;
    var grown := runs[n := runs[n] + [last]];
    assert grown[..n] == runs[..n];
    assert Flatten(grown) == Flatten(runs[..n]) + (runs[n] + [last]);
  }

  lemma RunStarts(runs: seq<seq<Entity>>, stream: seq<Entity>, last: Entity)
    requires AreRunsOf(runs, stream) && (runs != [] ==> runs[|runs| - 1][0].id != last.id)
    ensures AreRunsOf(runs + [[last]], stream + [last])
  {
    assert (runs + [[last]])[..|runs|] == runs;
  }

  function Folded(runs: seq<seq<Entity>>): (folded: seq<Entity>)
    requires forall i :: 0 <= i < |runs| ==> runs[i] != []
    ensures |folded| == |runs|
  {
    seq(|runs|, i requires 0 <= i < |runs| => Finish(Fold(runs[i])))
  }

  // Offering an observation adds it to the group that is held, or emits that group and holds a new one.
  ghost predicate Offered(held: seq<Entity>, entity: Entity, next: seq<Entity>, emitted: Option<Entity>) {
    if held != [] && held[0].id == entity.id then emitted == None && next == held + [entity]
    else next == [entity] && emitted == if held == [] then None else Some(Finish(Fold(held)))
  }

  class TemporalAggregator {
    var open: Option<Aggregate>
    // The observations folded into the open aggregate.
    ghost var held: seq<Entity>

    ghost predicate Valid()
      reads this
    {
      && (held == [] ==> open == None)
      && (held != [] ==> open == Some(Fold(held)))
    }

    constructor ()
      ensures Valid() && held == []
    {
      open, held := None, [];
    }

    /** Folds the observation into the open group, or emits that group and opens a new one with it. */
    method Offer(entity: Entity) returns (emitted: Option<Entity>)
      requires Valid()
      modifies this
      ensures Valid()
      ensures Offered(old(held), entity, held, emitted)
    {
      if held != [] { FoldMergesAll(held); }
      if open.Some? && open.value.id == entity.id {
        open := Some(Push(open.value, entity));
        assert (held + [entity])[..|held|] == held;
        held := held + [entity];
        return None;
      }
      emitted := if open.Some? then Some(Finish(open.value)) else None;
      open, held := Some(New(entity)), [entity];
    }

    /** Emits the open group; a second call has none to emit. */
    method Flush() returns (emitted: Option<Entity>)
      requires Valid()
      modifies this
      ensures Valid() && held == []
      ensures emitted == if old(held) == [] then None else Some(Finish(Fold(old(held))))
    {
      emitted := if open.Some? then Some(Finish(open.value)) else None;
      open, held := None, [];
    }
  }

  // What an aggregator still holds is the last run of what it was offered.
  ghost predicate Holds(offered: seq<Entity>, held: seq<Entity>, emitted: seq<Entity>) {
    var runs := Runs(offered);
    if runs == [] then held == [] && emitted == []
    else held == runs[|runs| - 1] && emitted == Folded(runs[..|runs| - 1])
  }

  lemma FoldedOfMore(runs: seq<seq<Entity>>, run: seq<Entity>)
    requires run != [] && forall i :: 0 <= i < |runs| ==> runs[i] != []
    ensures Folded(runs + [run]) == Folded(runs) + [Finish(Fold(run))]
  {
  }

  // What offering one observation more does to what is held and to what came out.
  lemma HoldsMore(offered: seq<Entity>, held: seq<Entity>, output: seq<Entity>, entity: Entity, next: seq<Entity>, emitted: Option<Entity>)
    requires Holds(offered, held, output) && Offered(held, entity, next, emitted)
    ensures Holds(offered + [entity], next, if emitted.Some? then output + [emitted.value] else output)
  {
    var before := Runs(offered);
    assert (offered + [entity])[..|offered|] == offered;
    if before != [] {
      var n := |before| - 1;
      var init, last := before[..n], before[n];
      FoldedOfMore(init, last);
      assert before == init + [last];
      assert before[n := last + [entity]][..n] == init && (before + [[entity]])[..n + 1] == before;
    } else {
      assert (before + [[entity]])[..0] == [];
    }
  }

  // Emitting what is held brings out the last run.
  lemma HoldsLast(offered: seq<Entity>, held: seq<Entity>, emitted: seq<Entity>)
    requires Holds(offered, held, emitted)
    ensures Folded(Runs(offered)) == emitted + if held == [] then [] else [Finish(Fold(held))]
  {
    var runs := Runs(offered);
    if runs != [] {
      FoldedOfMore(runs[..|runs| - 1], runs[|runs| - 1]);
      assert runs == runs[..|runs| - 1] + [runs[|runs| - 1]];
    }
  }

  method AggregateNext(aggregator: TemporalAggregator, ghost offered: seq<Entity>, output: seq<Entity>, entity: Entity) returns (more: seq<Entity>)
    requires aggregator.Valid() && Holds(offered, aggregator.held, output)
    modifies aggregator
    ensures aggregator.Valid() && Holds(offered + [entity], aggregator.held, more)
  {
    ghost var held := aggregator.held;
    var emitted := aggregator.Offer(entity);
    HoldsMore(offered, held, output, entity, aggregator.held, emitted);
    more := if emitted.Some? then output + [emitted.value] else output;
  }

  method AggregateLast(aggregator: TemporalAggregator, ghost offered: seq<Entity>, output: seq<Entity>) returns (all: seq<Entity>)
    requires aggregator.Valid() && Holds(offered, aggregator.held, output)
    modifies aggregator
    ensures all == Folded(Runs(offered))
  {
    HoldsLast(offered, aggregator.held, output);
    var last := aggregator.Flush();
    all := if last.Some? then output + [last.value] else output;
  }

  method OfferAll(aggregator: TemporalAggregator, stream: seq<Entity>) returns (output: seq<Entity>)
    requires aggregator.Valid() && aggregator.held == []
    modifies aggregator
    ensures aggregator.Valid() && Holds(stream, aggregator.held, output)
  {
    output := [];
    ghost var offered: seq<Entity> := [];
    for i := 0 to |stream|
      invariant aggregator.Valid() && offered == stream[..i] && Holds(offered, aggregator.held, output)
    {
      output := AggregateNext(aggregator, offered, output, stream[i]);
      offered := offered + [stream[i]];
    }
    assert offered == stream;
  }

  // ---- One entity per id ----

  /** Each id's observations stand together. */
  ghost predicate Contiguous(stream: seq<Entity>) {
    forall i, j, k :: 0 <= i < j < k < |stream| && stream[i].id == stream[k].id ==> stream[j].id == stream[i].id
  }

  // The ids of the stream, each once, in first-seen order.
  function FirstSeen(stream: seq<Entity>): seq<Id> {
    if stream == [] then []
    else
      var before, last := FirstSeen(stream[..|stream| - 1]), stream[|stream| - 1];
      if last.id in before then before else before + [last.id]
  }

  function RunIds(stream: seq<Entity>): (ids: seq<Id>)
    ensures |ids| == |Runs(stream)|
  {
    seq(|Runs(stream)|, i requires 0 <= i < |Runs(stream)| => Runs(stream)[i][0].id)
  }

  ghost predicate Occurs(id: Id, stream: seq<Entity>) {
    exists i :: 0 <= i < |stream| && stream[i].id == id
  }

  lemma OccursInMore(id: Id, init: seq<Entity>, last: Entity)
    ensures Occurs(id, init + [last]) <==> Occurs(id, init) || last.id == id
  {
    var stream := init + [last];
    assert stream[|init|] == last;
    if i :| 0 <= i < |init| && init[i].id == id {
      assert stream[i].id == id;
    }
    if i :| 0 <= i < |stream| && stream[i].id == id {
      assert i == |init| || init[i].id == id;
    }
  }

  lemma {:induction false} FirstSeenOccurs(stream: seq<Entity>, id: Id)
    ensures id in FirstSeen(stream) <==> Occurs(id, stream)
  {
    if stream != [] {
      var init, last := stream[..|stream| - 1], stream[|stream| - 1];
      FirstSeenOccurs(init, id);
      assert stream == init + [last];
      OccursInMore(id, init, last);
    }
  }

  lemma {:induction false} LastRunIsLast(stream: seq<Entity>)
    requires stream != []
    ensures Runs(stream) != [] && Runs(stream)[|Runs(stream)| - 1][0].id == stream[|stream| - 1].id
  {
    if |stream| > 1 {
      LastRunIsLast(stream[..|stream| - 1]);
    }
  }

  lemma {:induction false} RunsOutnumberIds(stream: seq<Entity>)
    ensures |FirstSeen(stream)| <= |Runs(stream)|
  {
    if stream != [] {
      var init, last := stream[..|stream| - 1], stream[|stream| - 1];
      RunsOutnumberIds(init);
      if init != [] && init[|init| - 1].id == last.id {
        FirstSeenOccurs(init, last.id);
      } else if init != [] {
        LastRunIsLast(init);
      }
    }
  }

  lemma ContiguousExtends(init: seq<Entity>, last: Entity)
    ensures Contiguous(init + [last]) <==>
            Contiguous(init) && (init == [] || init[|init| - 1].id == last.id || !Occurs(last.id, init))
  {
    var stream := init + [last];
    if Contiguous(stream) {
      forall i, j, k | 0 <= i < j < k < |init| && init[i].id == init[k].id ensures init[j].id == init[i].id {
        assert stream[i] == init[i] && stream[j] == init[j] && stream[k] == init[k];
      }
      if i :| 0 <= i < |init| && init[i].id == last.id {
        assert stream[i].id == stream[|init|].id;
        assert i < |init| - 1 ==> stream[|init| - 1].id == stream[i].id;
      }
    }
  }

  /**
  The aggregator emits exactly one entity per id, in first-seen order, exactly when each id's
  observations stand together in the stream.
  */
  lemma {:induction false} OneEntityPerId(stream: seq<Entity>)
    ensures RunIds(stream) == FirstSeen(stream) <==> Contiguous(stream)
  {
    if stream != [] {
      var init, last := stream[..|stream| - 1], stream[|stream| - 1];
      OneEntityPerId(init);
      assert stream == init + [last];
      ContiguousExtends(init, last);
      FirstSeenOccurs(init, last.id);
      if init != [] { LastRunIsLast(init); }
      if init != [] && init[|init| - 1].id == last.id {
        assert RunIds(stream) == RunIds(init);
      } else {
        assert RunIds(stream) == RunIds(init) + [last.id];
        if last.id in FirstSeen(init) {
          RunsOutnumberIds(init);
          assert |RunIds(stream)| > |FirstSeen(stream)|;
        } else {
          AppendedAlike(RunIds(init), FirstSeen(init), last.id);
        }
      }
    }
  }

  function IdsOf(entities: seq<Entity>): (ids: seq<Id>)
    ensures |ids| == |entities| && forall i :: 0 <= i < |entities| ==> ids[i] == entities[i].id
  {
    seq(|entities|, i requires 0 <= i < |entities| => entities[i].id)
  }

  /** The entity a run is folded into has the run's id. */
  lemma FoldedKeepsIds(stream: seq<Entity>)
    ensures IdsOf(Folded(Runs(stream))) == RunIds(stream)
  {
    var runs := Runs(stream);
    forall i | 0 <= i < |runs| ensures Folded(runs)[i].id == runs[i][0].id {
      FoldMergesAll(runs[i]);
    }
  }

  /**
  Everything offered comes out: the entities emitted are the finished maximal runs of one id, in order,
  and one per id in first-seen order exactly when each id's observations stand together.
  */
  method AggregateAll(stream: seq<Entity>) returns (output: seq<Entity>)
    ensures output == Folded(Runs(stream)) && IdsOf(output) == RunIds(stream)
    ensures IdsOf(output) == FirstSeen(stream) <==> Contiguous(stream)
  {
    var aggregator := new TemporalAggregator();
    output := OfferAll(aggregator, stream);
    output := AggregateLast(aggregator, stream, output);
    FoldedKeepsIds(stream);
    OneEntityPerId(stream);
  }

  lemma AppendedAlike(a: seq<Id>, b: seq<Id>, id: Id)
    ensures a + [id] == b + [id] <==> a == b
  {
    if a + [id] == b + [id] {
      assert a == (a + [id])[..|a|] && b == (b + [id])[..|b|];
    }
  }
}
