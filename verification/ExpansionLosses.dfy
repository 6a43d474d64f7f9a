/** What a record's expansion fails on, and what it leaves out and records instead. */
module ExpansionLosses {
  import opened Wrappers
  import opened Templates
  import opened Mappings
  import opened Minting
  import opened Expansions

  /** A fault in the mapping: neither an identifier that names nothing nor a template the record fails. */
  predicate Faulty<T>(minted: Result<T, UrnError>) {
    minted.Err? && !minted.error.EmptyId? && !minted.error.TemplateFailed?
  }

  function Failures<T>(minted: Result<T, UrnError>): seq<TemplateError> {
    if minted.Err? && minted.error.TemplateFailed? then [minted.error.error] else []
  }

  // The failures recorded under a path, in order.
  function LostAt(lost: seq<Loss>, path: Path): seq<TemplateError> {
    if lost == [] then []
    else (if lost[0].path == path then [lost[0].error] else []) + LostAt(lost[1..], path)
  }

  lemma {:induction false} LostAtBoth(a: seq<Loss>, b: seq<Loss>, path: Path)
    ensures LostAt(a + b, path) == LostAt(a, path) + LostAt(b, path)
  {
    if a == [] {
      assert a + b == b;
    } else {
      assert (a + b)[1..] == a[1..] + b;
      LostAtBoth(a[1..], b, path);
    }
  }

  lemma LostThen(a: Outcome<Yield>, b: Outcome<Yield>, path: Path)
    ensures Then(a, b).result.Ok? <==> a.result.Ok? && b.result.Ok?
    ensures a.result.Ok? ==> LostAt(Then(a, b).lost, path) == LostAt(a.lost, path) + LostAt(b.lost, path)
  {
    LostAtBoth(a.lost, b.lost, path);
  }

  /** Only a fault fails a link, and only a template's failure is recorded. */
  lemma KeepLoses<T>(entity: Urn, minted: Result<T, UrnError>, path: Path, at: Path)
    ensures var kept := Keep(entity, minted, path);
            && (kept.result.Err? <==> Faulty(minted))
            && (kept.result.Ok? ==> kept.result.value == if minted.Ok? then Some(minted.value) else None)
            && LostAt(kept.lost, at) == (if at == path then Failures(minted) else [])
            && forall i :: 0 <= i < |kept.lost| ==> kept.lost[i].entity == entity
  {
    assert Keep(entity, minted, path).lost != [] ==> Keep(entity, minted, path).lost[1..] == [];
  }

  lemma LinkedLoses(entity: Urn, minted: Result<seq<Urn>, UrnError>, path: Path, key: Key, at: Path)
    ensures var linked := Linked(Keep(entity, minted, path), key);
            (linked.result.Err? <==> Faulty(minted)) && LostAt(linked.lost, at) == if at == path then Failures(minted) else []
  {
    KeepLoses(entity, minted, path, at);
  }

  // ---- One attribute ----

  predicate SoundSynthetic(env: Env, synthetic: Mapping, data: Record) {
    var id := GenerateId(env, synthetic, data);
    !Faulty(id) && (id.Ok? ==> GenerateScope(env, synthetic, data).Ok? && ResolveExpiry(env, synthetic, data).Ok?)
  }

  ghost predicate SoundTokens(x: Expansion, synthetic: Mapping, tokens: seq<string>) {
    forall token :: token in tokens ==> SoundSynthetic(x.env, synthetic, TokenData(x, token))
  }

  predicate SoundInstances(x: Expansion, attribute: Attribute, instances: seq<Instance>, from: nat)
    requires from <= |instances|
    decreases |instances| - from
  {
    from < |instances| ==>
      !Faulty(MintedByInstance(x.env, instances[from], attribute, x.data)) && SoundInstances(x, attribute, instances, from + 1)
  }

  /** Nothing an attribute declares is at fault for this record. */
  ghost predicate Sound(x: Expansion, attribute: Attribute) {
    if attribute.synthetic.Some? then
      var synthetic := attribute.synthetic.value;
      if attribute.target.Some? && attribute.kind.ListRelationship? then
        var tokens := SourceIdentifiers(x.env, attribute, x.data);
        !Faulty(tokens) && (tokens.Ok? ==> SoundTokens(x, synthetic, tokens.value))
      else
        var named := ChildId(x.env, attribute, x.data);
        (Asks(attribute) ==> !Faulty(named)) && (!Asks(attribute) || named.Ok? ==> SoundSynthetic(x.env, synthetic, x.data))
    else if IsRelationship(attribute.kind) && attribute.target.Some? then
      if attribute.instances.Declared? then SoundInstances(x, attribute, attribute.instances.list, 0)
      else !Faulty(Minted(x.env, attribute, x.data))
    else true
  }

  function TokenFailures(x: Expansion, synthetic: Mapping, tokens: seq<string>): seq<TemplateError> {
    if tokens == [] then []
    else Failures(GenerateId(x.env, synthetic, TokenData(x, tokens[0]))) + TokenFailures(x, synthetic, tokens[1..])
  }

  function InstanceFailures(x: Expansion, attribute: Attribute, instances: seq<Instance>, from: nat): seq<TemplateError>
    requires from <= |instances|
    decreases |instances| - from
  {
    if from == |instances| then []
    else Failures(MintedByInstance(x.env, instances[from], attribute, x.data)) + InstanceFailures(x, attribute, instances, from + 1)
  }

  /** The templates of one attribute that fail for this record, each costing a link. */
  function OwnFailures(x: Expansion, attribute: Attribute): seq<TemplateError> {
    if attribute.synthetic.Some? then
      var synthetic := attribute.synthetic.value;
      if attribute.target.Some? && attribute.kind.ListRelationship? then
        var tokens := SourceIdentifiers(x.env, attribute, x.data);
        if tokens.Ok? then TokenFailures(x, synthetic, tokens.value) else Failures(tokens)
      else
        var named := ChildId(x.env, attribute, x.data);
        if Asks(attribute) && named.Err? then Failures(named) else Failures(GenerateId(x.env, synthetic, x.data))
    else if IsRelationship(attribute.kind) && attribute.target.Some? then
      if attribute.instances.Declared? then InstanceFailures(x, attribute, attribute.instances.list, 0)
      else Failures(Minted(x.env, attribute, x.data))
    else []
  }

  lemma SyntheticLoses(x: Expansion, path: Path, synthetic: Mapping, data: Record, parent: Option<Edge>, at: Path)
    ensures var made := SyntheticFragment(x, path, synthetic, data, parent);
            && (made.result.Ok? <==> SoundSynthetic(x.env, synthetic, data))
            && LostAt(made.lost, at) == if at == path then Failures(GenerateId(x.env, synthetic, data)) else []
  {
    KeepLoses(x.entity, GenerateId(x.env, synthetic, data), path, at);
  }

  lemma {:induction false} TokensLose(x: Expansion, name: Name, synthetic: Mapping, tokens: seq<string>, at: Path)
    ensures TokensYield(x, name, synthetic, tokens).result.Ok? <==> SoundTokens(x, synthetic, tokens)
    ensures TokensYield(x, name, synthetic, tokens).result.Ok?
            ==> LostAt(TokensYield(x, name, synthetic, tokens).lost, at) == if at == [name] then TokenFailures(x, synthetic, tokens) else []
  {
    if tokens != [] {
      SyntheticLoses(x, [name], synthetic, TokenData(x, tokens[0]), None, at);
      LostThen(TokenYield(x, name, synthetic, tokens[0]), TokensYield(x, name, synthetic, tokens[1..]), at);
      TokensLose(x, name, synthetic, tokens[1..], at);
      assert SoundTokens(x, synthetic, tokens) <==> SoundSynthetic(x.env, synthetic, TokenData(x, tokens[0])) && SoundTokens(x, synthetic, tokens[1..]) by {
        assert tokens == [tokens[0]] + tokens[1..];
      }
    }
  }

  lemma {:induction false} InstancesLose(x: Expansion, name: Name, attribute: Attribute, instances: seq<Instance>, from: nat, at: Path)
    requires from <= |instances|
    ensures InstancesYield(x, name, attribute, instances, from).result.Ok? <==> SoundInstances(x, attribute, instances, from)
    ensures InstancesYield(x, name, attribute, instances, from).result.Ok?
            ==> LostAt(InstancesYield(x, name, attribute, instances, from).lost, at)
                == if at == [name] then InstanceFailures(x, attribute, instances, from) else []
    decreases |instances| - from
  {
    if from < |instances| {
      var minted := MintedByInstance(x.env, instances[from], attribute, x.data);
      LinkedLoses(x.entity, minted, [name], InstanceKey(name, from), at);
      LostThen(Linked(Keep(x.entity, minted, [name]), InstanceKey(name, from)), InstancesYield(x, name, attribute, instances, from + 1), at);
      InstancesLose(x, name, attribute, instances, from + 1, at);
    }
  }

  lemma SyntheticEntityLoses(x: Expansion, name: Name, attribute: Attribute, synthetic: Mapping, at: Path)
    ensures var made, named := SyntheticEntity(x, name, attribute, synthetic), ChildId(x.env, attribute, x.data);
            && (made.result.Ok? <==> (Asks(attribute) ==> !Faulty(named)) && (!Asks(attribute) || named.Ok? ==> SoundSynthetic(x.env, synthetic, x.data)))
            && LostAt(made.lost, at)
               == if at != [name] then [] else if Asks(attribute) && named.Err? then Failures(named) else Failures(GenerateId(x.env, synthetic, x.data))
  {
    KeepLoses(x.entity, ChildId(x.env, attribute, x.data), [name], at);
    SyntheticLoses(x, [name], synthetic, x.data, Some(Edge(PathKey([name]), x.entity)), at);
  }

  /** An attribute fails the record exactly on a fault, and else loses exactly the links whose templates fail. */
  lemma AttributeLoses(x: Expansion, name: Name, attribute: Attribute, at: Path)
    ensures AttributeYield(x, name, attribute).result.Ok? <==> Sound(x, attribute)
    ensures AttributeYield(x, name, attribute).result.Ok?
            ==> LostAt(AttributeYield(x, name, attribute).lost, at) == if at == [name] then OwnFailures(x, attribute) else []
  {
    if attribute.synthetic.Some? {
      if attribute.target.Some? && attribute.kind.ListRelationship? {
        var tokens := SourceIdentifiers(x.env, attribute, x.data);
        KeepLoses(x.entity, tokens, [name], at);
        if tokens.Ok? { TokensLose(x, name, attribute.synthetic.value, tokens.value, at); }
      } else {
        SyntheticEntityLoses(x, name, attribute, attribute.synthetic.value, at);
      }
    } else if IsRelationship(attribute.kind) && attribute.target.Some? {
      if attribute.instances.Declared? {
        InstancesLose(x, name, attribute, attribute.instances.list, 0, at);
      } else {
        KeepLoses(x.entity, Minted(x.env, attribute, x.data), [name], at);
      }
    }
  }

  // ---- Every attribute ----

  ghost predicate AllSound(x: Expansion, entries: seq<Entry>) {
    forall i :: 0 <= i < |entries| ==> Sound(x, entries[i].attribute)
  }

  lemma {:induction false} AttributesLose(x: Expansion, entries: seq<Entry>, at: Path)
    requires Keyed(entries)
    ensures AttributesYield(x, entries).result.Ok? <==> AllSound(x, entries)
    ensures AttributesYield(x, entries).result.Ok?
            ==> LostAt(AttributesYield(x, entries).lost, at)
                == if |at| == 1 && Find(entries, at[0]).Some? then OwnFailures(x, Find(entries, at[0]).value) else []
  {
    if entries != [] {
      AttributeLoses(x, entries[0].name, entries[0].attribute, at);
      LostThen(AttributeYield(x, entries[0].name, entries[0].attribute), AttributesYield(x, entries[1..]), at);
      AttributesLose(x, entries[1..], at);
      FirstAndRestSound(x, entries);
    }
  }

  lemma FirstAndRestSound(x: Expansion, entries: seq<Entry>)
    requires entries != []
    ensures AllSound(x, entries) <==> Sound(x, entries[0].attribute) && AllSound(x, entries[1..])
  {
    assert forall i :: 0 < i < |entries| ==> entries[i] == entries[1..][i - 1];
  }

  // ---- What lies beneath them ----

  predicate SoundLink(x: Expansion, attribute: Attribute) {
    attribute.target.Some? && IsRelationship(attribute.kind) ==> !Faulty(Minted(x.env, attribute, x.data))
  }

  ghost predicate SoundBeneath(x: Expansion, entries: seq<Entry>)
    decreases entries
  {
    entries != [] ==>
      && SoundLink(x, entries[0].attribute)
      && SoundBeneath(x, entries[0].attribute.properties)
      && SoundBeneath(x, entries[1..])
  }

  function LinkFailures(x: Expansion, attribute: Attribute): seq<TemplateError> {
    if attribute.target.Some? && IsRelationship(attribute.kind) then Failures(Minted(x.env, attribute, x.data)) else []
  }

  // The failures of the declaration at a path beneath `entries`.
  function FailuresBeneath(x: Expansion, entries: seq<Entry>, path: Path): seq<TemplateError>
    decreases |path|
  {
    if path == [] then []
    else
      match Find(entries, path[0])
      case None => []
      case Some(attribute) => if |path| > 1 then FailuresBeneath(x, attribute.properties, path[1..]) else LinkFailures(x, attribute)
  }

  function FailuresUnder(x: Expansion, entries: seq<Entry>, path: Path, at: Path): seq<TemplateError> {
    if path <= at then FailuresBeneath(x, entries, at[|path|..]) else []
  }

  function BranchFailures(x: Expansion, attribute: Attribute, child: Path, at: Path): seq<TemplateError> {
    (if at == child then LinkFailures(x, attribute) else []) + FailuresUnder(x, attribute.properties, child, at)
  }

  lemma OnlyOneBranchFails(x: Expansion, entries: seq<Entry>, path: Path, at: Path)
    requires Keyed(entries) && entries != []
    ensures FailuresUnder(x, entries, path, at)
            == BranchFailures(x, entries[0].attribute, path + [entries[0].name], at) + FailuresUnder(x, entries[1..], path, at)
  {
    var child := path + [entries[0].name];
    if path < at {
      assert child <= at <==> at[|path|] == entries[0].name;
      if child <= at {
        assert at[|path|..][1..] == at[|child|..];
        assert at == child <==> |at| == |child|;
      }
    }
  }

  lemma LinkLoses(x: Expansion, attribute: Attribute, path: Path, at: Path)
    ensures NestedLink(x, attribute, path).result.Ok? <==> SoundLink(x, attribute)
    ensures LostAt(NestedLink(x, attribute, path).lost, at) == if at == path then LinkFailures(x, attribute) else []
  {
    KeepLoses(x.entity, Minted(x.env, attribute, x.data), path, at);
  }

  lemma {:induction false} NestedLose(x: Expansion, entries: seq<Entry>, path: Path, at: Path)
    requires Keyed(entries)
    ensures NestedYield(x, entries, path).result.Ok? <==> SoundBeneath(x, entries)
    ensures NestedYield(x, entries, path).result.Ok? ==> LostAt(NestedYield(x, entries, path).lost, at) == FailuresUnder(x, entries, path, at)
    decreases entries
  {
    if entries != [] {
      var attribute, child := entries[0].attribute, path + [entries[0].name];
      var link, beneath, rest := NestedLink(x, attribute, child), NestedYield(x, attribute.properties, child), NestedYield(x, entries[1..], path);
      LinkLoses(x, attribute, child, at);
      NestedLose(x, attribute.properties, child, at);
      NestedLose(x, entries[1..], path, at);
      LostThen(link, beneath, at);
      LostThen(Then(link, beneath), rest, at);
      OnlyOneBranchFails(x, entries, path, at);
    }
  }

  ghost predicate AllSoundBeneath(x: Expansion, entries: seq<Entry>) {
    entries != [] ==> SoundBeneath(x, entries[0].attribute.properties) && AllSoundBeneath(x, entries[1..])
  }

  lemma {:induction false} AllNestedLose(x: Expansion, entries: seq<Entry>, at: Path)
    requires Keyed(entries)
    ensures AllNestedYield(x, entries).result.Ok? <==> AllSoundBeneath(x, entries)
    ensures AllNestedYield(x, entries).result.Ok?
            ==> LostAt(AllNestedYield(x, entries).lost, at)
                == if at != [] && Find(entries, at[0]).Some? then FailuresBeneath(x, Find(entries, at[0]).value.properties, at[1..]) else []
  {
    if entries != [] {
      var properties, path := entries[0].attribute.properties, [entries[0].name];
      NestedLose(x, properties, path, at);
      LostThen(NestedYield(x, properties, path), AllNestedYield(x, entries[1..]), at);
      AllNestedLose(x, entries[1..], at);
      assert at != [] ==> (path <= at <==> at[0] == entries[0].name);
    }
  }

  // ---- The whole record ----

  /** The failures a record meets under a path: those of the one declaration the path names. */
  function DeclaredFailures(x: Expansion, entries: seq<Entry>, at: Path): seq<TemplateError> {
    if at == [] || Find(entries, at[0]).None? then []
    else if |at| == 1 then OwnFailures(x, Find(entries, at[0]).value)
    else FailuresBeneath(x, Find(entries, at[0]).value.properties, at[1..])
  }

  lemma LinksLose(x: Expansion, mapping: Mapping, at: Path)
    requires IsLoaded(mapping)
    ensures LinksYield(x, mapping).result.Ok? <==> AllSound(x, mapping.attributes) && AllSoundBeneath(x, mapping.attributes)
    ensures LinksYield(x, mapping).result.Ok? ==> LostAt(LinksYield(x, mapping).lost, at) == DeclaredFailures(x, mapping.attributes, at)
  {
    GateChangesNothing(x, mapping);
    AttributesLose(x, mapping.attributes, at);
    AllNestedLose(x, mapping.attributes, at);
    LostThen(AttributesYield(x, mapping.attributes), AllNestedYield(x, mapping.attributes), at);
  }

  /**
  A record fails exactly when its own identity, scope, or expiry does, or something its mapping
  declares is at fault: a link whose source names nothing or fails to render never fails it.
  */
  lemma OnlyFaultsFail(env: Env, vars: Record, mapping: Mapping, data: Record)
    requires IsLoaded(mapping)
    ensures ExpandValue(env, vars, mapping, data).result.Ok?
            <==> && GenerateId(env, mapping, data).Ok? && GenerateScope(env, mapping, data).Ok? && ResolveExpiry(env, mapping, data).Ok?
                 && var x := Expansion(env, vars, GenerateId(env, mapping, data).value, data);
                    AllSound(x, mapping.attributes) && AllSoundBeneath(x, mapping.attributes)
  {
    if GenerateId(env, mapping, data).Ok? {
      LinksLose(Expansion(env, vars, GenerateId(env, mapping, data).value, data), mapping, []);
    }
  }

  /** Under every path, an expanded record records exactly the failures of the declaration the path names. */
  lemma LossesNameTheirDeclarations(env: Env, vars: Record, mapping: Mapping, data: Record, at: Path)
    requires IsLoaded(mapping)
    ensures var expanded := ExpandValue(env, vars, mapping, data);
            expanded.result.Ok? ==>
              LostAt(expanded.lost, at) == DeclaredFailures(Expansion(env, vars, GenerateId(env, mapping, data).value, data), mapping.attributes, at)
  {
    if GenerateId(env, mapping, data).Ok? {
      LinksLose(Expansion(env, vars, GenerateId(env, mapping, data).value, data), mapping, at);
    }
  }
}
