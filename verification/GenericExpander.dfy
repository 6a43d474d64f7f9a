/** The expander: the loops that mint a record's entity, its links, and the entities derived beside it. */
module GenericExpander {
  import opened Wrappers
  import opened Templates
  import opened Mappings
  import opened Minting
  import opened Expansions

  /** Where a batch's lost links are recorded. */
  class LinkLosses {
    var lost: seq<Loss>

    constructor ()
      ensures lost == []
    {
      lost := [];
    }
  }

  // A run of code came to an outcome: its result, and the losses it added to those before it.
  ghost predicate CameTo<T>(result: Result<T, ExpanderError>, before: seq<Loss>, after: seq<Loss>, outcome: Outcome<T>) {
    result == outcome.result && after == before + outcome.lost
  }

  // Keeps what minting one link yielded, recording a template's failure where it costs the link.
  method KeepLink<T>(entity: Urn, minted: Result<T, UrnError>, path: Path, losses: LinkLosses) returns (r: Result<Option<T>, ExpanderError>)
    modifies losses
    ensures CameTo(r, old(losses.lost), losses.lost, Keep(entity, minted, path))
  {
    match minted
    case Ok(value) => return Ok(Some(value));
    case Err(EmptyId(_)) => return Ok(None);
    case Err(TemplateFailed(error)) =>
      losses.lost := losses.lost + [Loss(path, entity, error)];
      return Ok(None);
    case Err(error) => return Err(ExpanderError.Urn(error));
  }

  function Plus(made: Yield, more: Yield): Yield {
    Yield(made.edges + more.edges, made.fragments + more.fragments)
  }

  // ---- Steps taken in order, until one fails ----

  function InOrder(steps: seq<Outcome<Yield>>): Outcome<Yield> {
    if steps == [] then NO_LINKS else Then(InOrder(steps[..|steps| - 1]), steps[|steps| - 1])
  }

  lemma {:induction false} FailsEarly(steps: seq<Outcome<Yield>>, n: nat)
    requires n <= |steps| && InOrder(steps[..n]).result.Err?
    ensures InOrder(steps) == InOrder(steps[..n])
  {
    if n < |steps| {
      assert steps[..|steps| - 1][..n] == steps[..n];
      FailsEarly(steps[..|steps| - 1], n);
    } else {
      assert steps[..n] == steps;
    }
  }

  // One step more fails them all, or adds what it made.
  lemma OneMore(steps: seq<Outcome<Yield>>, i: nat, made: Yield, lost: seq<Loss>)
    requires i < |steps| && InOrder(steps[..i]) == Outcome(Ok(made), lost)
    ensures steps[i].result.Err? ==> InOrder(steps) == Outcome(steps[i].result, lost + steps[i].lost)
    ensures steps[i].result.Ok? ==> InOrder(steps[..i + 1]) == Outcome(Ok(Plus(made, steps[i].result.value)), lost + steps[i].lost)
  {
    assert steps[..i + 1][..i] == steps[..i];
    if steps[i].result.Err? { FailsEarly(steps, i + 1); }
  }

  lemma {:induction false} FirstInOrder(steps: seq<Outcome<Yield>>)
    requires steps != []
    ensures InOrder(steps) == Then(steps[0], InOrder(steps[1..]))
  {
    var n := |steps| - 1;
    if n == 0 {
      ThenInAnyGrouping(steps[0], NO_LINKS, NO_LINKS);
    } else {
      FirstInOrder(steps[..n]);
      assert steps[..n][1..] == steps[1..][..n - 1] && steps[1..][n - 1] == steps[n];
      ThenInAnyGrouping(steps[0], InOrder(steps[1..][..n - 1]), steps[n]);
    }
  }

  // The links of the instance at an index, under its own key.
  function InstanceYield(x: Expansion, name: Name, attribute: Attribute, instance: Instance, index: nat): Outcome<Yield> {
    Linked(Keep(x.entity, MintedByInstance(x.env, instance, attribute, x.data), [name]), InstanceKey(name, index))
  }

  // A sub-attribute's branch: its own objects, then those of what lies beneath it.
  function BranchYield(x: Expansion, entry: Entry, path: Path): Outcome<Yield> {
    Then(NestedLink(x, entry.attribute, path + [entry.name]), NestedYield(x, entry.attribute.properties, path + [entry.name]))
  }

  /** What a loop of the expander steps over: tokens, instances, or declarations. */
  datatype Work =
    | OverTokens(name: Name, synthetic: Mapping, tokens: seq<string>)
    | OverInstances(name: Name, attribute: Attribute, instances: seq<Instance>)
    | OverAttributes(entries: seq<Entry>)
    | OverNested(entries: seq<Entry>, path: Path)
    | OverAllNested(entries: seq<Entry>)

  function Size(work: Work): nat {
    match work
    case OverTokens(_, _, tokens) => |tokens|
    case OverInstances(_, _, instances) => |instances|
    case OverAttributes(entries) => |entries|
    case OverNested(entries, _) => |entries|
    case OverAllNested(entries) => |entries|
  }

  // Nested work descends into declarations, and top-level work into nested work, tokens, and instances.
  function Level(work: Work): nat {
    match work
    case OverTokens(_, _, _) => 0
    case OverInstances(_, _, _) => 0
    case OverNested(_, _) => 1
    case _ => 2
  }

  const NO_ENTRIES: seq<Entry> := []

  function Beneath(work: Work): seq<Entry> {
    match work
    case OverNested(entries, _) => entries
    case _ => NO_ENTRIES
  }

  function StepAt(x: Expansion, work: Work, i: nat): Outcome<Yield>
    requires i < Size(work)
  {
    match work
    case OverTokens(name, synthetic, tokens) => TokenYield(x, name, synthetic, tokens[i])
    case OverInstances(name, attribute, instances) => InstanceYield(x, name, attribute, instances[i], i)
    case OverAttributes(entries) => AttributeYield(x, entries[i].name, entries[i].attribute)
    case OverNested(entries, path) => BranchYield(x, entries[i], path)
    case OverAllNested(entries) => NestedYield(x, entries[i].attribute.properties, [entries[i].name])
  }

  function WholeFrom(x: Expansion, work: Work, from: nat): Outcome<Yield>
    requires from <= Size(work)
  {
    match work
    case OverTokens(name, synthetic, tokens) => TokensYield(x, name, synthetic, tokens[from..])
    case OverInstances(name, attribute, instances) => InstancesYield(x, name, attribute, instances, from)
    case OverAttributes(entries) => AttributesYield(x, entries[from..])
    case OverNested(entries, path) => NestedYield(x, entries[from..], path)
    case OverAllNested(entries) => AllNestedYield(x, entries[from..])
  }

  ghost predicate AreSteps(x: Expansion, work: Work, from: nat, steps: seq<Outcome<Yield>>) {
    && |steps| == Size(work) - from
    && forall i {:trigger StepAt(x, work, i)} :: from <= i < Size(work) ==> steps[i - from] == StepAt(x, work, i)
  }

  lemma OneThenRest(x: Expansion, work: Work, from: nat)
    requires from < Size(work)
    ensures WholeFrom(x, work, from) == Then(StepAt(x, work, from), WholeFrom(x, work, from + 1))
  {
    match work
    case OverTokens(_, _, tokens) => assert tokens[from..][1..] == tokens[from + 1..];
    case OverInstances(_, _, _) =>
    case OverAttributes(entries) => assert entries[from..][1..] == entries[from + 1..];
    case OverNested(entries, _) => assert entries[from..][1..] == entries[from + 1..];
    case OverAllNested(entries) => assert entries[from..][1..] == entries[from + 1..];
  }

  /** Taking the steps in order comes to the whole. */
  lemma {:induction false} StepsOf(x: Expansion, work: Work, from: nat) returns (steps: seq<Outcome<Yield>>)
    requires from <= Size(work)
    ensures AreSteps(x, work, from, steps) && InOrder(steps) == WholeFrom(x, work, from)
    decreases Size(work) - from
  {
    steps := [];
    if from < Size(work) {
      var rest := StepsOf(x, work, from + 1);
      steps := [StepAt(x, work, from)] + rest;
      assert steps[1..] == rest;
      FirstInOrder(steps);
      OneThenRest(x, work, from);
    } else {
      NothingLeft(x, work);
    }
  }

  lemma NothingLeft(x: Expansion, work: Work)
    ensures WholeFrom(x, work, Size(work)) == NO_LINKS
  {
  }

  // Records each object one link's source minted under a key.
  method PushLinks(entity: Urn, minted: Result<seq<Urn>, UrnError>, path: Path, key: Key, losses: LinkLosses) returns (r: Result<Yield, ExpanderError>)
    modifies losses
    ensures CameTo(r, old(losses.lost), losses.lost, Linked(Keep(entity, minted, path), key))
  {
    var kept := KeepLink(entity, minted, path, losses);
    if kept.Err? { return Err(kept.error); }
    if kept.value.None? { return Ok(NO_YIELD); }
    var urns := kept.value.value;
    var contexts: seq<Edge> := [];
    for i := 0 to |urns|
      invariant contexts + Edges(key, urns[i..]) == Edges(key, urns)
      invariant losses.lost == old(losses.lost)
    {
      assert urns[i..][1..] == urns[i + 1..];
      contexts := contexts + [Edge(key, urns[i])];
    }
    assert urns[|urns|..] == [] && contexts == Edges(key, urns);
    return Ok(Yield(contexts, []));
  }

  class Expander {
    const env: Env
    const vars: Record
    const router: Router

    constructor (env: Env, vars: Record, router: Router)
      ensures this.env == env && this.vars == vars && this.router == router
    {
      this.env, this.vars, this.router := env, vars, router;
    }

    // Inserts the run's variables under their reserved key, unless there are none.
    function Inject(record: Record): (injected: Record)
      ensures injected == Injected(vars, record)
    {
      if vars == map[] then record else record["vars" := Obj(vars)]
    }

    /** Takes the steps of some work in order: what they make is collected, and the first to fail ends it. */
    method TakeSteps(x: Expansion, work: Work, ghost steps: seq<Outcome<Yield>>, losses: LinkLosses) returns (r: Result<Yield, ExpanderError>)
      requires x.env == env && x.vars == vars && AreSteps(x, work, 0, steps)
      modifies losses
      ensures CameTo(r, old(losses.lost), losses.lost, InOrder(steps))
      decreases Level(work), Beneath(work), 3
    {
      var made := NO_YIELD;
      ghost var lost: seq<Loss> := [];
      for i := 0 to Size(work)
        invariant InOrder(steps[..i]) == Outcome(Ok(made), lost) && losses.lost == old(losses.lost) + lost
      {
        OneMore(steps, i, made, lost);
        var one := TakeStep(x, work, i, steps, losses);
        if one.Err? { return Err(one.error); }
        made, lost := Plus(made, one.value), lost + steps[i].lost;
      }
      assert steps[..|steps|] == steps;
      return Ok(made);
    }

    method TakeStep(x: Expansion, work: Work, i: nat, ghost steps: seq<Outcome<Yield>>, losses: LinkLosses) returns (r: Result<Yield, ExpanderError>)
      requires x.env == env && x.vars == vars && AreSteps(x, work, 0, steps) && i < Size(work)
      modifies losses
      ensures CameTo(r, old(losses.lost), losses.lost, steps[i])
      decreases Level(work), Beneath(work), 2
    {
      assert steps[i] == StepAt(x, work, i);
      match work
      case OverTokens(name, synthetic, tokens) =>
        r := ExpandToken(x, name, synthetic, tokens[i], losses);
      case OverInstances(name, attribute, instances) =>
        r := PushLinks(x.entity, MintedByInstance(env, instances[i], attribute, x.data), [name], InstanceKey(name, i), losses);
      case OverAttributes(entries) =>
        r := ExpandAttribute(x, entries[i].name, entries[i].attribute, losses);
      case OverNested(entries, path) =>
        r := MintBranch(x, entries[i], path, losses);
      case OverAllNested(entries) =>
        r := MintNestedRelationships(x, entries[i].attribute, [entries[i].name], losses);
    }

    /** One entity and one link per token that names one; a token that names none costs neither the rest nor the record. */
    method ExpandSyntheticTargets(x: Expansion, name: Name, attribute: Attribute, synthetic: Mapping, losses: LinkLosses)
      returns (r: Result<Yield, ExpanderError>)
      requires x.env == env && x.vars == vars
      modifies losses
      ensures CameTo(r, old(losses.lost), losses.lost, SyntheticTargets(x, name, attribute, synthetic))
      decreases 0, NO_ENTRIES, 4
    {
      var kept := KeepLink(x.entity, SourceIdentifiers(env, attribute, x.data), [name], losses);
      if kept.Err? { return Err(kept.error); }
      if kept.value.None? { return Ok(NO_YIELD); }
      var work := OverTokens(name, synthetic, kept.value.value);
      ghost var steps := StepsOf(x, work, 0);
      assert work.tokens[0..] == work.tokens;
      r := TakeSteps(x, work, steps, losses);
    }

    // The token is the one column of a positional record, and its id is minted once for link and entity.
    method ExpandToken(x: Expansion, name: Name, synthetic: Mapping, token: string, losses: LinkLosses) returns (r: Result<Yield, ExpanderError>)
      requires x.env == env && x.vars == vars
      modifies losses
      ensures CameTo(r, old(losses.lost), losses.lost, TokenYield(x, name, synthetic, token))
    {
      var made := ExpandSynthetic(x, [name], synthetic, Inject(map["0" := Str(token)]), None, losses);
      if made.Err? { return Err(made.error); }
      if made.value.None? { return Ok(NO_YIELD); }
      return Ok(Yield([Edge(PathKey([name]), made.value.value.urn)], [made.value.value]));
    }

    // Mints one synthetic entity: its identity may name none, but its scope and expiry may not fail.
    method ExpandSynthetic(x: Expansion, path: Path, synthetic: Mapping, data: Record, parent: Option<Edge>, losses: LinkLosses)
      returns (r: Result<Option<Fragment>, ExpanderError>)
      requires x.env == env
      modifies losses
      ensures CameTo(r, old(losses.lost), losses.lost, SyntheticFragment(x, path, synthetic, data, parent))
    {
      var urn := KeepLink(x.entity, GenerateId(env, synthetic, data), path, losses);
      if urn.Err? { return Err(urn.error); }
      if urn.value.None? { return Ok(None); }
      var scope := GenerateScope(env, synthetic, data);
      if scope.Err? { return Err(ExpanderError.Urn(scope.error)); }
      var expiresAt := ResolveExpiry(env, synthetic, data);
      if expiresAt.Err? { return Err(Expiry(expiresAt.error)); }
      return Ok(Some(Fragment(data, urn.value.value, scope.value, expiresAt.value, [], parent, synthetic)));
    }

    /** The one synthetic entity of a non-list attribute, linked back to the main entity. */
    method ExpandSyntheticEntity(x: Expansion, name: Name, attribute: Attribute, synthetic: Mapping, losses: LinkLosses)
      returns (r: Result<Option<Fragment>, ExpanderError>)
      requires x.env == env
      modifies losses
      ensures CameTo(r, old(losses.lost), losses.lost, SyntheticEntity(x, name, attribute, synthetic))
    {
      if attribute.target.Some? && attribute.source.Some? {
        var named := KeepLink(x.entity, ChildId(env, attribute, x.data), [name], losses);
        if named.Err? { return Err(named.error); }
        if named.value.None? { return Ok(None); }
      }
      r := ExpandSynthetic(x, [name], synthetic, x.data, Some(Edge(PathKey([name]), x.entity)), losses);
    }

    /** What one top-level attribute adds, by the branch its declaration selects. */
    method ExpandAttribute(x: Expansion, name: Name, attribute: Attribute, losses: LinkLosses) returns (r: Result<Yield, ExpanderError>)
      requires x.env == env && x.vars == vars
      modifies losses
      ensures CameTo(r, old(losses.lost), losses.lost, AttributeYield(x, name, attribute))
      decreases 1, NO_ENTRIES, 4
    {
      if attribute.synthetic.Some? {
        if attribute.target.Some? && attribute.kind.ListRelationship? {
          r := ExpandSyntheticTargets(x, name, attribute, attribute.synthetic.value, losses);
        } else {
          var made := ExpandSyntheticEntity(x, name, attribute, attribute.synthetic.value, losses);
          if made.Err? { return Err(made.error); }
          return Ok(if made.value.Some? then Yield([], [made.value.value]) else NO_YIELD);
        }
      } else if IsRelationship(attribute.kind) && attribute.target.Some? {
        if attribute.instances.Declared? {
          // Each instance's objects are recorded under the instance that minted them.
          var work := OverInstances(name, attribute, attribute.instances.list);
          ghost var steps := StepsOf(x, work, 0);
          r := TakeSteps(x, work, steps, losses);
        } else {
          r := PushLinks(x.entity, Minted(env, attribute, x.data), [name], PathKey([name]), losses);
        }
      } else {
        return Ok(NO_YIELD);
      }
    }

    /** Mints the objects of every relationship declared beneath an attribute, each under its whole path. */
    method MintNestedRelationships(x: Expansion, attribute: Attribute, path: Path, losses: LinkLosses) returns (r: Result<Yield, ExpanderError>)
      requires x.env == env && x.vars == vars
      modifies losses
      ensures CameTo(r, old(losses.lost), losses.lost, NestedYield(x, attribute.properties, path))
      decreases 1, attribute, 4
    {
      var work := OverNested(attribute.properties, path);
      ghost var steps := StepsOf(x, work, 0);
      assert work.entries[0..] == work.entries;
      r := TakeSteps(x, work, steps, losses);
    }

    // A sub-attribute's own objects, when it is a relationship with a target, then those beneath it.
    method MintBranch(x: Expansion, entry: Entry, path: Path, losses: LinkLosses) returns (r: Result<Yield, ExpanderError>)
      requires x.env == env && x.vars == vars
      modifies losses
      ensures CameTo(r, old(losses.lost), losses.lost, BranchYield(x, entry, path))
      decreases 1, entry, 5
    {
      var property, child := entry.attribute, path + [entry.name];
      var own := NO_YIELD;
      if property.target.Some? && IsRelationship(property.kind) {
        var linked := PushLinks(x.entity, Minted(env, property, x.data), child, PathKey(child), losses);
        if linked.Err? { return linked; }
        own := linked.value;
      }
      var nested := MintNestedRelationships(x, property, child, losses);
      if nested.Err? { return nested; }
      return Ok(Plus(own, nested.value));
    }

    // Every attribute's own links, then, when the mapping declares any, the nested ones.
    method ExpandLinks(x: Expansion, mapping: Mapping, losses: LinkLosses) returns (r: Result<Yield, ExpanderError>)
      requires x.env == env && x.vars == vars
      modifies losses
      ensures CameTo(r, old(losses.lost), losses.lost, LinksYield(x, mapping))
    {
      var entries := mapping.attributes;
      assert entries[0..] == entries;
      ThenInAnyGrouping(AttributesYield(x, entries), NO_LINKS, NO_LINKS);
      ghost var steps := StepsOf(x, OverAttributes(entries), 0);
      r := TakeSteps(x, OverAttributes(entries), steps, losses);
      if r.Err? || !mapping.hasNestedRelationships { return r; }
      steps := StepsOf(x, OverAllNested(entries), 0);
      var nested := TakeSteps(x, OverAllNested(entries), steps, losses);
      if nested.Err? { return nested; }
      return Ok(Plus(r.value, nested.value));
    }

    /** Expands one record under the mapping its collection selects; a record none is bound for fails. */
    method Expand(collection: Option<string>, record: Record, losses: LinkLosses) returns (r: Result<seq<Fragment>, ExpanderError>)
      modifies losses
      ensures CameTo(r, old(losses.lost), losses.lost, ExpandRouted(env, vars, router, collection, record))
    {
      var mapping := Select(router, collection);
      if mapping.Err? { return Err(mapping.error); }
      r := ExpandUnder(mapping.value, record, losses);
    }

    /** Expands one record under its mapping: only its own identity, scope, and expiry, and faults in the mapping, fail it. */
    method ExpandUnder(mapping: Mapping, record: Record, losses: LinkLosses) returns (r: Result<seq<Fragment>, ExpanderError>)
      modifies losses
      ensures CameTo(r, old(losses.lost), losses.lost, Expansions.Expand(env, vars, mapping, record))
    {
      var data := Inject(record);
      var urn := GenerateId(env, mapping, data);
      if urn.Err? { return Err(ExpanderError.Urn(urn.error)); }
      var scope := GenerateScope(env, mapping, data);
      if scope.Err? { return Err(ExpanderError.Urn(scope.error)); }
      var expiresAt := ResolveExpiry(env, mapping, data);
      if expiresAt.Err? { return Err(Expiry(expiresAt.error)); }
      var links := ExpandLinks(Expansion(env, vars, urn.value, data), mapping, losses);
      if links.Err? { return Err(links.error); }
      return Ok(links.value.fragments + [Fragment(data, urn.value, scope.value, expiresAt.value, links.value.edges, None, mapping)]);
    }
  }
}
