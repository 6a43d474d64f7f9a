/** The source keys a compiled mapping records are all its main entity and its links depend on. */
module ReadSoundness {
  import opened Wrappers
  import opened Templates
  import opened Mappings
  import opened Minting
  import opened Expansions
  import opened ExpansionLosses
  import CompiledMappings
  import Compiler

  lemma PartsAgree(engine: Engine, attribute: Attribute, a: Record, b: Record)
    requires AgreeOn(ReadsOfAttribute(engine, attribute), a, b)
    ensures AgreeOn(ReadsOfSource(engine, attribute.compiledSource), a, b)
    ensures AgreeOn(ReadsOfEntries(engine, attribute.properties), a, b)
    ensures attribute.instances.Declared? ==> AgreeOn(ReadsOfInstances(engine, attribute.instances.list), a, b)
  {
    var own := ReadsOfSource(engine, attribute.compiledSource);
    var nested := Absorb(ReadsOfEntries(engine, attribute.mappings), ReadsOfEntries(engine, attribute.languageMap));
    var qualified := ReadsOfEntries(engine, attribute.properties);
    var instanced := if attribute.instances.Declared? then ReadsOfInstances(engine, attribute.instances.list) else NOTHING;
    AgreeOnBoth(Absorb(Absorb(own, nested), qualified), instanced, a, b);
    AgreeOnBoth(Absorb(own, nested), qualified, a, b);
    AgreeOnBoth(own, nested, a, b);
  }

  lemma {:induction false} EntryAgrees(engine: Engine, entries: seq<Entry>, a: Record, b: Record, at: nat)
    requires AgreeOn(ReadsOfEntries(engine, entries), a, b) && at < |entries|
    ensures AgreeOn(ReadsOfAttribute(engine, entries[at].attribute), a, b)
  {
    var n := |entries| - 1;
    AgreeOnBoth(ReadsOfEntries(engine, entries[..n]), ReadsOfAttribute(engine, entries[n].attribute), a, b);
    if at < n { EntryAgrees(engine, entries[..n], a, b, at); }
  }

  lemma {:induction false} InstanceAgrees(engine: Engine, instances: seq<Instance>, a: Record, b: Record, at: nat)
    requires AgreeOn(ReadsOfInstances(engine, instances), a, b) && at < |instances|
    ensures AgreeOn(ReadsOfSource(engine, instances[at].compiledSource), a, b)
  {
    var n := |instances| - 1;
    AgreeOnBoth(ReadsOfInstances(engine, instances[..n]), ReadsOfInstance(engine, instances[n]), a, b);
    AgreeOnBoth(ReadsOfSource(engine, instances[n].compiledSource), ReadsOfEntries(engine, instances[n].properties), a, b);
    if at < n { InstanceAgrees(engine, instances[..n], a, b, at); }
  }

  // Every attribute of a list agrees.
  ghost predicate AllAgree(engine: Engine, entries: seq<Entry>, a: Record, b: Record) {
    forall i :: 0 <= i < |entries| ==> AgreeOn(ReadsOfAttribute(engine, entries[i].attribute), a, b)
  }

  lemma EntriesAgree(engine: Engine, entries: seq<Entry>, a: Record, b: Record)
    requires AgreeOn(ReadsOfEntries(engine, entries), a, b)
    ensures AllAgree(engine, entries, a, b)
  {
    forall i | 0 <= i < |entries| ensures AgreeOn(ReadsOfAttribute(engine, entries[i].attribute), a, b) {
      EntryAgrees(engine, entries, a, b, i);
    }
  }

  lemma InstanceMints(x: Expansion, b: Record, attribute: Attribute, instances: seq<Instance>, at: nat)
    requires at < |instances| && ReportsItsReads(x.env.engine)
    requires AgreeOn(ReadsOfInstances(x.env.engine, instances), x.data, b)
    ensures MintedByInstance(x.env, instances[at], attribute, x.data) == MintedByInstance(x.env, instances[at], attribute, b)
  {
    InstanceAgrees(x.env.engine, instances, x.data, b, at);
    InstanceMintsAlike(x.env, instances[at], attribute, x.data, b);
  }

  // An instance mints alike for two records.
  ghost predicate InstanceAlike(x: Expansion, b: Record, attribute: Attribute, instance: Instance) {
    MintedByInstance(x.env, instance, attribute, x.data) == MintedByInstance(x.env, instance, attribute, b)
  }

  lemma InstancesAlike(x: Expansion, b: Record, name: Name, attribute: Attribute, instances: seq<Instance>, from: nat)
    requires from <= |instances|
    requires forall i :: from <= i < |instances| ==> InstanceAlike(x, b, attribute, instances[i])
    ensures InstancesYield(x, name, attribute, instances, from) == InstancesYield(x.(data := b), name, attribute, instances, from)
  {
    InstancesOfBothAlike(x, x.(data := b), name, attribute, instances, from);
  }

  lemma {:induction false} InstancesOfBothAlike(x: Expansion, y: Expansion, name: Name, attribute: Attribute, instances: seq<Instance>, from: nat)
    requires from <= |instances| && y.env == x.env && y.entity == x.entity
    requires forall i :: from <= i < |instances| ==> InstanceAlike(x, y.data, attribute, instances[i])
    ensures InstancesYield(x, name, attribute, instances, from) == InstancesYield(y, name, attribute, instances, from)
    decreases |instances| - from
  {
    if from < |instances| {
      InstancesOfBothAlike(x, y, name, attribute, instances, from + 1);
      assert InstanceAlike(x, y.data, attribute, instances[from]);
    }
  }

  lemma TokenAlike(x: Expansion, b: Record, name: Name, synthetic: Mapping, token: string)
    ensures TokenYield(x, name, synthetic, token) == TokenYield(x.(data := b), name, synthetic, token)
  {
    assert TokenData(x, token) == TokenData(x.(data := b), token);
  }

  // A synthetic entity's links are minted from the tokens alone.
  lemma {:induction false} TokensAlike(x: Expansion, b: Record, name: Name, synthetic: Mapping, tokens: seq<string>)
    ensures TokensYield(x, name, synthetic, tokens) == TokensYield(x.(data := b), name, synthetic, tokens)
  {
    if tokens != [] {
      TokenAlike(x, b, name, synthetic, tokens[0]);
      TokensAlike(x, b, name, synthetic, tokens[1..]);
    }
  }

  /** An attribute that yields for two records agreeing on its reads yields them the same links. */
  lemma AttributeLinksAlike(x: Expansion, b: Record, name: Name, attribute: Attribute)
    requires ReportsItsReads(x.env.engine) && AgreeOn(ReadsOfAttribute(x.env.engine, attribute), x.data, b)
    requires AttributeYield(x, name, attribute).result.Ok? && AttributeYield(x.(data := b), name, attribute).result.Ok?
    ensures AttributeYield(x, name, attribute).result.value.edges == AttributeYield(x.(data := b), name, attribute).result.value.edges
  {
    PartsAgree(x.env.engine, attribute, x.data, b);
    MintsAlike(x.env, attribute, x.data, b);
    if attribute.synthetic.Some? {
      var tokens := SourceIdentifiers(x.env, attribute, x.data);
      if tokens.Ok? { TokensAlike(x, b, name, attribute.synthetic.value, tokens.value); }
    } else if attribute.instances.Declared? {
      forall i | 0 <= i < |attribute.instances.list|
        ensures InstanceAlike(x, b, attribute, attribute.instances.list[i])
      {
        InstanceMints(x, b, attribute, attribute.instances.list, i);
      }
      InstancesAlike(x, b, name, attribute, attribute.instances.list, 0);
    }
  }

  lemma {:induction false} AttributesLinkAlike(x: Expansion, b: Record, entries: seq<Entry>)
    requires ReportsItsReads(x.env.engine) && AllAgree(x.env.engine, entries, x.data, b)
    requires AttributesYield(x, entries).result.Ok? && AttributesYield(x.(data := b), entries).result.Ok?
    ensures AttributesYield(x, entries).result.value.edges == AttributesYield(x.(data := b), entries).result.value.edges
  {
    if entries != [] {
      AttributeLinksAlike(x, b, entries[0].name, entries[0].attribute);
      AttributesLinkAlike(x, b, entries[1..]);
    }
  }

  lemma {:induction false} NestedAlike(x: Expansion, b: Record, entries: seq<Entry>, path: Path)
    requires ReportsItsReads(x.env.engine) && AllAgree(x.env.engine, entries, x.data, b)
    ensures NestedYield(x, entries, path) == NestedYield(x.(data := b), entries, path)
    decreases entries
  {
    if entries != [] {
      var attribute := entries[0].attribute;
      PartsAgree(x.env.engine, attribute, x.data, b);
      MintsAlike(x.env, attribute, x.data, b);
      EntriesAgree(x.env.engine, attribute.properties, x.data, b);
      NestedAlike(x, b, attribute.properties, path + [entries[0].name]);
      NestedAlike(x, b, entries[1..], path);
    }
  }

  lemma {:induction false} AllNestedAlike(x: Expansion, b: Record, entries: seq<Entry>)
    requires ReportsItsReads(x.env.engine) && AllAgree(x.env.engine, entries, x.data, b)
    ensures AllNestedYield(x, entries) == AllNestedYield(x.(data := b), entries)
  {
    if entries != [] {
      PartsAgree(x.env.engine, entries[0].attribute, x.data, b);
      EntriesAgree(x.env.engine, entries[0].attribute.properties, x.data, b);
      NestedAlike(x, b, entries[0].attribute.properties, [entries[0].name]);
      AllNestedAlike(x, b, entries[1..]);
    }
  }

  lemma InjectedAgree(vars: Record, read: SourceReads, a: Record, b: Record)
    requires AgreeOn(read, a, b)
    ensures AgreeOn(read, Injected(vars, a), Injected(vars, b))
  {
  }

  lemma LinksAlike(x: Expansion, b: Record, mapping: Mapping)
    requires ReportsItsReads(x.env.engine) && AllAgree(x.env.engine, mapping.attributes, x.data, b)
    requires LinksYield(x, mapping).result.Ok? && LinksYield(x.(data := b), mapping).result.Ok?
    ensures LinksYield(x, mapping).result.value.edges == LinksYield(x.(data := b), mapping).result.value.edges
  {
    AttributesLinkAlike(x, b, mapping.attributes);
    AllNestedAlike(x, b, mapping.attributes);
  }

  lemma MainsAlike(env: Env, vars: Record, mapping: Mapping, a: Record, b: Record)
    requires ReportsItsReads(env.engine) && AgreeOn(ReadsOfMapping(env.engine, mapping), a, b)
    requires ExpandValue(env, vars, mapping, a).result.Ok? && ExpandValue(env, vars, mapping, b).result.Ok?
    ensures Main(ExpandValue(env, vars, mapping, b).result.value) == Main(ExpandValue(env, vars, mapping, a).result.value).(data := b)
  {
    MembersAlike(env, mapping, a, b);
    AttributesAgree(env.engine, mapping, a, b);
    var x := Expansion(env, vars, GenerateId(env, mapping, a).value, a);
    assert x.(data := b) == Expansion(env, vars, GenerateId(env, mapping, b).value, b);
    LinksAlike(x, b, mapping);
  }

  lemma AttributesAgree(engine: Engine, mapping: Mapping, a: Record, b: Record)
    requires AgreeOn(ReadsOfMapping(engine, mapping), a, b)
    ensures AllAgree(engine, mapping.attributes, a, b)
  {
    var members := Absorb(Absorb(ReadsOfOptional(engine, mapping.compiledEntityName), ReadsOfScope(engine, mapping.compiledScope)),
                          ReadsOfOptional(engine, mapping.compiledExpiresAt));
    AgreeOnBoth(members, ReadsOfEntries(engine, mapping.attributes), a, b);
    EntriesAgree(engine, mapping.attributes, a, b);
  }

  // ---- When an agreeing record is lost ----

  /** An attribute makes a synthetic entity of the record itself, whose relationship's source, if asked, names a target. */
  predicate MakesSynthetic(env: Env, attribute: Attribute, data: Record) {
    attribute.synthetic.Some? && !FedByTokens(attribute) && (Asks(attribute) ==> ChildId(env, attribute, data).Ok?)
  }

  /** No synthetic entity made of a record itself fails it. */
  ghost predicate SyntheticsSpare(env: Env, entries: seq<Entry>, data: Record) {
    forall i :: 0 <= i < |entries| ==>
      var attribute := entries[i].attribute;
      MakesSynthetic(env, attribute, data) ==> SoundSynthetic(env, attribute.synthetic.value, data)
  }

  lemma AttributeStaysSound(x: Expansion, b: Record, attribute: Attribute)
    requires ReportsItsReads(x.env.engine) && AgreeOn(ReadsOfAttribute(x.env.engine, attribute), x.data, b)
    requires Sound(x, attribute)
    ensures Sound(x.(data := b), attribute)
            <==> (MakesSynthetic(x.env, attribute, b) ==> SoundSynthetic(x.env, attribute.synthetic.value, b))
  {
    PartsAgree(x.env.engine, attribute, x.data, b);
    MintsAlike(x.env, attribute, x.data, b);
    if FedByTokens(attribute) {
      forall token ensures TokenData(x, token) == TokenData(x.(data := b), token) {}
    } else if attribute.synthetic.None? && IsRelationship(attribute.kind) && attribute.target.Some? && attribute.instances.Declared? {
      forall i | 0 <= i < |attribute.instances.list|
        ensures InstanceAlike(x, b, attribute, attribute.instances.list[i])
      {
        InstanceMints(x, b, attribute, attribute.instances.list, i);
      }
      InstancesStaySound(x, b, attribute, attribute.instances.list, 0);
    }
  }

  lemma {:induction false} InstancesStaySound(x: Expansion, b: Record, attribute: Attribute, instances: seq<Instance>, from: nat)
    requires from <= |instances|
    requires forall i {:trigger instances[i]} :: from <= i < |instances| ==>
               MintedByInstance(x.env, instances[i], attribute, x.data) == MintedByInstance(x.env, instances[i], attribute, b)
    ensures SoundInstances(x, attribute, instances, from) == SoundInstances(x.(data := b), attribute, instances, from)
    decreases |instances| - from
  {
    if from < |instances| {
      InstancesStaySound(x, b, attribute, instances, from + 1);
    }
  }

  lemma AttributesStaySound(x: Expansion, b: Record, entries: seq<Entry>)
    requires ReportsItsReads(x.env.engine) && AllAgree(x.env.engine, entries, x.data, b) && AllSound(x, entries)
    ensures AllSound(x.(data := b), entries) <==> SyntheticsSpare(x.env, entries, b)
  {
    forall i | 0 <= i < |entries|
      ensures var attribute := entries[i].attribute;
              Sound(x.(data := b), attribute)
              <==> (MakesSynthetic(x.env, attribute, b) ==> SoundSynthetic(x.env, attribute.synthetic.value, b))
    {
      assert Sound(x, entries[i].attribute);
      AttributeStaysSound(x, b, entries[i].attribute);
    }
  }

  /**
  Of two records that agree on what a mapping's own templates read, one of which expands, the other is
  lost exactly when a synthetic entity made of it fails: its identity is at fault, or its scope or expiry
  does not resolve.
  */
  lemma LostExactlyToSynthetics(env: Env, vars: Record, mapping: Mapping, a: Record, b: Record)
    requires ReportsItsReads(env.engine) && IsLoaded(mapping) && AgreeOn(ReadsOfMapping(env.engine, mapping), a, b)
    ensures ExpandValue(env, vars, mapping, a).result.Ok? ==>
              (ExpandValue(env, vars, mapping, b).result.Ok? <==> SyntheticsSpare(env, mapping.attributes, b))
  {
    OnlyFaultsFail(env, vars, mapping, a);
    OnlyFaultsFail(env, vars, mapping, b);
    MembersAlike(env, mapping, a, b);
    AttributesAgree(env.engine, mapping, a, b);
    if ExpandValue(env, vars, mapping, a).result.Ok? {
      var x := Expansion(env, vars, GenerateId(env, mapping, a).value, a);
      assert x.(data := b) == Expansion(env, vars, GenerateId(env, mapping, b).value, b);
      AttributesStaySound(x, b, mapping.attributes);
      AllNestedAlike(x, b, mapping.attributes);
      AllNestedLose(x, mapping.attributes, []);
      AllNestedLose(x.(data := b), mapping.attributes, []);
    }
  }

  /**
  When a record expands under a compiled mapping, any record that agrees with it on what the mapping
  records as read expands exactly when no synthetic entity made of it fails, and then to the same
  entity: the same URN, scope, expiry, and links.
  */
  lemma ReadsSuffice(env: Env, vars: Record, mapping: Mapping, a: Record, b: Record)
    requires ReportsItsReads(env.engine) && Compiler.AsLoaded(mapping) && IsLoaded(mapping)
    requires AgreeOn(Compiler.CompiledMapping(env.engine, mapping).sourceReads, a, b)
    ensures var compiled := Compiler.CompiledMapping(env.engine, mapping);
            var first, second := Expand(env, vars, compiled, a), Expand(env, vars, compiled, b);
            first.result.Ok? ==>
              && (second.result.Ok? <==> SyntheticsSpare(env, compiled.attributes, Injected(vars, b)))
              && (second.result.Ok? ==> Main(second.result.value) == Main(first.result.value).(data := Injected(vars, b)))
  {
    var compiled := Compiler.CompiledMapping(env.engine, mapping);
    Compiler.ReadsAreRecorded(env.engine, mapping);
    CompiledMappings.LoadedCompiles(env.engine, mapping);
    InjectedAgree(vars, compiled.sourceReads, a, b);
    LostExactlyToSynthetics(env, vars, compiled, Injected(vars, a), Injected(vars, b));
    if Expand(env, vars, compiled, a).result.Ok? && Expand(env, vars, compiled, b).result.Ok? {
      MainsAlike(env, vars, compiled, Injected(vars, a), Injected(vars, b));
    }
  }

  // ---- What the synthetic entities' unrecorded reads can change ----

  /** Two records also agree on what the synthetic entities made of the record itself read. */
  ghost predicate SyntheticsAgree(engine: Engine, entries: seq<Entry>, a: Record, b: Record) {
    forall i :: 0 <= i < |entries| ==>
      var attribute := entries[i].attribute;
      attribute.synthetic.Some? && !FedByTokens(attribute) ==> AgreeOn(ReadsOfMapping(engine, attribute.synthetic.value), a, b)
  }

  function Shapes(fragments: seq<Fragment>): (shapes: seq<Fragment>)
    ensures |shapes| == |fragments|
  {
    seq(|fragments|, i requires 0 <= i < |fragments| => fragments[i].(data := map[]))
  }

  // An outcome, whatever data its fragments carry along.
  function Shape(outcome: Outcome<Yield>): Outcome<Yield> {
    if outcome.result.Err? then outcome
    else outcome.(result := Ok(outcome.result.value.(fragments := Shapes(outcome.result.value.fragments))))
  }

  lemma ShapeOfThen(a: Outcome<Yield>, b: Outcome<Yield>)
    ensures Shape(Then(a, b)) == Then(Shape(a), Shape(b))
  {
    if a.result.Ok? && b.result.Ok? {
      var first, next := a.result.value.fragments, b.result.value.fragments;
      assert Shapes(first + next) == Shapes(first) + Shapes(next);
    }
  }

  lemma SyntheticAlike(x: Expansion, b: Record, name: Name, attribute: Attribute, synthetic: Mapping)
    requires ReportsItsReads(x.env.engine) && AgreeOn(ReadsOfMapping(x.env.engine, synthetic), x.data, b)
    requires ChildId(x.env, attribute, x.data) == ChildId(x.env, attribute, b)
    ensures Shape(Emitted(SyntheticEntity(x, name, attribute, synthetic))) == Shape(Emitted(SyntheticEntity(x.(data := b), name, attribute, synthetic)))
  {
    MembersAlike(x.env, synthetic, x.data, b);
    var made := SyntheticEntity(x, name, attribute, synthetic);
    SyntheticFragmentAlike(x, b, [name], synthetic, Some(Edge(PathKey([name]), x.entity)));
    if made.result.Ok? && made.result.value.Some? { ShapeOfEmitted(made, b); }
  }

  // A synthetic entity made of another record, when its members come to the same, differs in its data alone.
  lemma SyntheticFragmentAlike(x: Expansion, b: Record, path: Path, synthetic: Mapping, parent: Option<Edge>)
    requires GenerateId(x.env, synthetic, x.data) == GenerateId(x.env, synthetic, b)
    requires GenerateScope(x.env, synthetic, x.data) == GenerateScope(x.env, synthetic, b)
    requires ResolveExpiry(x.env, synthetic, x.data) == ResolveExpiry(x.env, synthetic, b)
    ensures var made := SyntheticFragment(x, path, synthetic, x.data, parent);
            SyntheticFragment(x.(data := b), path, synthetic, b, parent)
            == if made.result.Ok? && made.result.value.Some? then made.(result := Ok(Some(made.result.value.value.(data := b)))) else made
  {
  }

  lemma ShapeOfEmitted(made: Outcome<Option<Fragment>>, b: Record)
    requires made.result.Ok? && made.result.value.Some?
    ensures Shape(Emitted(made)) == Shape(Emitted(made.(result := Ok(Some(made.result.value.value.(data := b))))))
  {
    var fragment := made.result.value.value;
    assert Shapes([fragment]) == [fragment.(data := map[])] == Shapes([fragment.(data := b)]);
  }

  lemma WholeAttributeAlike(x: Expansion, b: Record, name: Name, attribute: Attribute)
    requires ReportsItsReads(x.env.engine) && AgreeOn(ReadsOfAttribute(x.env.engine, attribute), x.data, b)
    requires attribute.synthetic.Some? && !FedByTokens(attribute) ==> AgreeOn(ReadsOfMapping(x.env.engine, attribute.synthetic.value), x.data, b)
    ensures Shape(AttributeYield(x, name, attribute)) == Shape(AttributeYield(x.(data := b), name, attribute))
  {
    PartsAgree(x.env.engine, attribute, x.data, b);
    MintsAlike(x.env, attribute, x.data, b);
    if FedByTokens(attribute) {
      var tokens := SourceIdentifiers(x.env, attribute, x.data);
      if tokens.Ok? { TokensAlike(x, b, name, attribute.synthetic.value, tokens.value); }
    } else if attribute.synthetic.Some? {
      SyntheticAlike(x, b, name, attribute, attribute.synthetic.value);
    } else if attribute.instances.Declared? {
      forall i | 0 <= i < |attribute.instances.list|
        ensures InstanceAlike(x, b, attribute, attribute.instances.list[i])
      {
        InstanceMints(x, b, attribute, attribute.instances.list, i);
      }
      InstancesAlike(x, b, name, attribute, attribute.instances.list, 0);
    }
  }

  lemma {:induction false} WholeAttributesAlike(x: Expansion, b: Record, entries: seq<Entry>)
    requires ReportsItsReads(x.env.engine)
    requires AllAgree(x.env.engine, entries, x.data, b) && SyntheticsAgree(x.env.engine, entries, x.data, b)
    ensures Shape(AttributesYield(x, entries)) == Shape(AttributesYield(x.(data := b), entries))
  {
    if entries != [] {
      var name, attribute := entries[0].name, entries[0].attribute;
      WholeAttributeAlike(x, b, name, attribute);
      ShapeOfThen(AttributeYield(x, name, attribute), AttributesYield(x, entries[1..]));
      ShapeOfThen(AttributeYield(x.(data := b), name, attribute), AttributesYield(x.(data := b), entries[1..]));
      WholeAttributesAlike(x, b, entries[1..]);
    }
  }

  lemma WholeLinksAlike(x: Expansion, b: Record, mapping: Mapping)
    requires ReportsItsReads(x.env.engine)
    requires AllAgree(x.env.engine, mapping.attributes, x.data, b) && SyntheticsAgree(x.env.engine, mapping.attributes, x.data, b)
    ensures Shape(LinksYield(x, mapping)) == Shape(LinksYield(x.(data := b), mapping))
  {
    WholeAttributesAlike(x, b, mapping.attributes);
    AllNestedAlike(x, b, mapping.attributes);
    var nested := if mapping.hasNestedRelationships then AllNestedYield(x, mapping.attributes) else NO_LINKS;
    ShapeOfThen(AttributesYield(x, mapping.attributes), nested);
    ShapeOfThen(AttributesYield(x.(data := b), mapping.attributes), nested);
  }

  /** Two expansions come to the same, whatever data the fragments carry along. */
  ghost predicate Alike(first: Outcome<seq<Fragment>>, second: Outcome<seq<Fragment>>) {
    && first.lost == second.lost
    && (first.result.Err? ==> second.result == first.result)
    && (first.result.Ok? ==> second.result.Ok? && Shapes(first.result.value) == Shapes(second.result.value))
  }

  lemma WithMainAlike(first: Outcome<Yield>, second: Outcome<Yield>, main: Fragment, b: Record)
    requires Shape(first) == Shape(second)
    ensures Alike(WithMain(first, main), WithMain(second, main.(data := b)))
  {
    if first.result.Ok? {
      var made := first.result.value;
      var last, other := main.(children := made.edges), main.(children := made.edges, data := b);
      assert last.(data := map[]) == other.(data := map[]);
      assert Shapes(made.fragments + [last]) == Shapes(made.fragments) + [last.(data := map[])];
      assert Shapes(second.result.value.fragments + [other]) == Shapes(second.result.value.fragments) + [other.(data := map[])];
    }
  }

  /**
  With the reads of the synthetic entities made of the record added, nothing is left out: agreeing
  records expand alike in every fragment, every lost link, and every failure.
  */
  lemma ReadsDecideEverything(env: Env, vars: Record, mapping: Mapping, a: Record, b: Record)
    requires ReportsItsReads(env.engine) && AgreeOn(ReadsOfMapping(env.engine, mapping), a, b)
    requires SyntheticsAgree(env.engine, mapping.attributes, a, b)
    ensures Alike(ExpandValue(env, vars, mapping, a), ExpandValue(env, vars, mapping, b))
  {
    MembersAlike(env, mapping, a, b);
    AttributesAgree(env.engine, mapping, a, b);
    if GenerateId(env, mapping, a).Ok? {
      var x := Expansion(env, vars, GenerateId(env, mapping, a).value, a);
      assert x.(data := b) == Expansion(env, vars, GenerateId(env, mapping, b).value, b);
      WholeLinksAlike(x, b, mapping);
      if GenerateScope(env, mapping, a).Ok? && ResolveExpiry(env, mapping, a).Ok? {
        var main := Fragment(a, x.entity, GenerateScope(env, mapping, a).value, ResolveExpiry(env, mapping, a).value, [], None, mapping);
        WithMainAlike(LinksYield(x, mapping), LinksYield(x.(data := b), mapping), main, b);
      }
    }
  }


  // A mapping with one Property whose synthetic entity takes its scope from the field `s`.
  function ScopedBySynthetic(): Mapping {
    var synthetic := Mapping("Part", "P", None, Some(Single("{{ s }}")), None, None, None, [], false, Everything);
    var attribute := Attribute(Property, None, None, [], [], Some(synthetic), None, [], Undeclared);
    Mapping("Whole", "W", None, None, None, None, None, [Entry("part", attribute)], false, Everything)
  }

  function PlainEnv(): Env {
    Env(Engine((text: string) => Some(if text == "{{ s }}" then Simple("s") else Static(text)), _ => {}, _ => {}, (_, _) => None, _ => None, _ => []),
        (id: string) => Some(id), _ => true, (scope: string) => scope == "/ok", _ => None)
  }

  /**
  No field a mapping does not read is said to change any entity it emits. A field only a synthetic
  entity reads can cost the main entity itself, so both records having expanded cannot be dropped.
  */
  lemma UnrecordedReadsCanCostTheRecord(a: Record, b: Record)
    requires a == map[] && b == map["s" := Str("not a scope")]
    ensures var env, compiled := PlainEnv(), Compiler.CompiledMapping(PlainEnv().engine, ScopedBySynthetic());
            && ReportsItsReads(env.engine) && AgreeOn(compiled.sourceReads, a, b)
            && Expand(env, map[], compiled, a).result.Ok? && Expand(env, map[], compiled, b).result.Err?
  {
    CompilesToNoReads();
    OutcomeFollowsScope(a);
    OutcomeFollowsScope(b);
  }

  lemma CompilesToNoReads()
    ensures var compiled := Compiler.CompiledMapping(PlainEnv().engine, ScopedBySynthetic());
            compiled.sourceReads == NOTHING
  {
    var engine := PlainEnv().engine;
    var entries := ScopedBySynthetic().attributes;
    assert Compiler.CompiledEntries(engine, entries)[..0] == [] && entries[0].attribute.properties == [];
  }

  // Only the synthetic entity's scope decides whether the record expands.
  lemma OutcomeFollowsScope(record: Record)
    ensures var compiled := Compiler.CompiledMapping(PlainEnv().engine, ScopedBySynthetic());
            Expand(PlainEnv(), map[], compiled, record).result.Ok?
            <==> GenerateScope(PlainEnv(), SyntheticPart(), record).Ok?
    ensures GenerateScope(PlainEnv(), SyntheticPart(), record).Ok?
            <==> "s" !in record || IsAbsent(record["s"]) || Written(PlainEnv().engine, record["s"]) in {"", "/ok"}
  {
    CompilesToOnePart();
    OnePartFollowsScope(Compiler.CompiledMapping(PlainEnv().engine, ScopedBySynthetic()), record);
    ScopeOfField(record);
  }

  // A named mapping of nothing but one Property with the synthetic entity.
  ghost predicate IsOnePart(mapping: Mapping) {
    && mapping.compiledEntityName.Some? && mapping.compiledEntityName.value.Static?
    && mapping.compiledScope.None? && mapping.compiledExpiresAt.None? && !mapping.hasNestedRelationships
    && |mapping.attributes| == 1 && mapping.attributes[0].name == "part"
    && var attribute := mapping.attributes[0].attribute;
       attribute.kind.Property? && attribute.target.None? && attribute.synthetic == Some(SyntheticPart())
  }

  lemma CompilesToOnePart()
    ensures IsOnePart(Compiler.CompiledMapping(PlainEnv().engine, ScopedBySynthetic()))
  {
  }

  lemma OnePartFollowsScope(mapping: Mapping, record: Record)
    requires IsOnePart(mapping)
    ensures Expand(PlainEnv(), map[], mapping, record).result.Ok? <==> GenerateScope(PlainEnv(), SyntheticPart(), record).Ok?
  {
    NameMints(mapping, record);
    NameMints(SyntheticPart(), record);
    var x := Expansion(PlainEnv(), map[], GenerateId(PlainEnv(), mapping, record).value, record);
    assert mapping.attributes[1..] == [];
    assert AttributesYield(x, mapping.attributes) == Then(AttributeYield(x, "part", mapping.attributes[0].attribute), NO_LINKS);
  }

  lemma NameMints(mapping: Mapping, record: Record)
    requires mapping.compiledEntityName.Some? && mapping.compiledEntityName.value.Static?
    ensures GenerateId(PlainEnv(), mapping, record).Ok?
  {
    var template := mapping.compiledEntityName.value;
    var text: string := [] + template.literal;
    assert ResolveComplete(PlainEnv().engine, template, record) == Ok(Some(Str(template.literal)));
    assert JoinedFrom(PlainEnv().engine, [template][1..], record, text) == Ok(Some(text));
    assert ResolveJoined(PlainEnv().engine, [template], record) == Ok(Some(text));
  }

  lemma ScopeOfField(record: Record)
    ensures GenerateScope(PlainEnv(), SyntheticPart(), record).Ok?
            <==> "s" !in record || IsAbsent(record["s"]) || Written(PlainEnv().engine, record["s"]) in {"", "/ok"}
  {
    FieldS(record);
    assert [Simple("s")][1..] == [];
    assert ParsedScopes(PlainEnv(), [Simple("s")], record).Ok? <==> ParsedScope(PlainEnv(), Simple("s"), record).Ok?;
  }

  function SyntheticPart(): Mapping {
    Compiler.CompiledMapping(PlainEnv().engine, ScopedBySynthetic().attributes[0].attribute.synthetic.value)
  }

  lemma FieldS(record: Record)
    ensures ReadField("s", record) == if "s" in record then record["s"] else Null
  {
    assert "s"[1..] == [] && Segments([]) == [[]] && ['s'] + [] == "s";
    assert Segments("s") == ["s"];
    assert ["s"][1..] == [];
    if "s" in record { assert Lookup(record["s"], ["s"][1..]) == Some(record["s"]); }
  }
}
