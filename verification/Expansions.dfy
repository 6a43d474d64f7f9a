/** What one record expands into: its entity, the entities derived beside it, and the links between them. */
module Expansions {
  import opened Wrappers
  import opened Templates
  import opened Mappings
  import opened Minting

  type Path = seq<Name>

  /** Where a minted object is recorded: under its relationship's path, or under the instance that minted it. */
  datatype Key = PathKey(path: Path) | InstanceKey(attribute: Name, index: nat)

  datatype Edge = Edge(key: Key, urn: Urn)

  // The main fragment carries the objects it links to; a synthetic one may carry its parent.
  datatype Fragment = Fragment(data: Record, urn: Urn, scope: Option<Scopes>, expiresAt: Option<int>,
                               children: seq<Edge>, parent: Option<Edge>, mapping: Mapping)

  /** A link left out because a template failed, under its relationship's path. */
  datatype Loss = Loss(path: Path, entity: Urn, error: TemplateError)

  datatype ExpanderError =
    | Urn(error: UrnError)
    | Expiry(template: TemplateError)
    | UnmatchedCollection(collection: string)
    | CollectionMissing

  datatype Yield = Yield(edges: seq<Edge>, fragments: seq<Fragment>)

  datatype Outcome<T> = Outcome(result: Result<T, ExpanderError>, lost: seq<Loss>)

  datatype Expansion = Expansion(env: Env, vars: Record, entity: Urn, data: Record)

  const NO_YIELD := Yield([], [])

  const NO_LINKS: Outcome<Yield> := Outcome(Ok(NO_YIELD), [])

  function Keep<T>(entity: Urn, minted: Result<T, UrnError>, path: Path): Outcome<Option<T>> {
    match minted
    case Ok(value) => Outcome(Ok(Some(value)), [])
    case Err(EmptyId(_)) => Outcome(Ok(None), [])
    case Err(TemplateFailed(error)) => Outcome(Ok(None), [Loss(path, entity, error)])
    case Err(error) => Outcome(Err(Urn(error)), [])
  }

  // One outcome and then the next, which a failure forestalls.
  function Then(first: Outcome<Yield>, next: Outcome<Yield>): Outcome<Yield> {
    if first.result.Err? then first
    else if next.result.Err? then Outcome(next.result, first.lost + next.lost)
    else
      var a, b := first.result.value, next.result.value;
      Outcome(Ok(Yield(a.edges + b.edges, a.fragments + b.fragments)), first.lost + next.lost)
  }

  lemma ThenInAnyGrouping(a: Outcome<Yield>, b: Outcome<Yield>, c: Outcome<Yield>)
    ensures Then(Then(a, b), c) == Then(a, Then(b, c))
    ensures Then(NO_LINKS, a) == a == Then(a, NO_LINKS)
  {
    if a.result.Ok? && b.result.Ok? && c.result.Ok? {
      var x, y, z := a.result.value, b.result.value, c.result.value;
      assert (x.edges + y.edges) + z.edges == x.edges + (y.edges + z.edges);
      assert (x.fragments + y.fragments) + z.fragments == x.fragments + (y.fragments + z.fragments);
    }
    assert (a.lost + b.lost) + c.lost == a.lost + (b.lost + c.lost);
    assert [] + a.lost == a.lost + [] == a.lost;
    if a.result.Ok? {
      var x := a.result.value;
      assert [] + x.edges == x.edges + [] == x.edges && [] + x.fragments == x.fragments + [] == x.fragments;
    }
  }

  function Edges(key: Key, urns: seq<Urn>): (edges: seq<Edge>)
    ensures |edges| == |urns|
  {
    if urns == [] then [] else [Edge(key, urns[0])] + Edges(key, urns[1..])
  }

  function Linked(kept: Outcome<Option<seq<Urn>>>, key: Key): Outcome<Yield> {
    match kept.result
    case Err(error) => Outcome(Err(error), kept.lost)
    case Ok(None) => Outcome(Ok(NO_YIELD), kept.lost)
    case Ok(Some(urns)) => Outcome(Ok(Yield(Edges(key, urns), [])), kept.lost)
  }

  // ---- One attribute ----

  function Injected(vars: Record, record: Record): Record {
    if vars == map[] then record else record["vars" := Obj(vars)]
  }

  function TokenData(x: Expansion, token: string): Record {
    Injected(x.vars, map["0" := Str(token)])
  }

  // The entity a synthetic mapping makes of some data, or nothing when it names none.
  function SyntheticFragment(x: Expansion, path: Path, synthetic: Mapping, data: Record, parent: Option<Edge>): Outcome<Option<Fragment>> {
    var kept := Keep(x.entity, GenerateId(x.env, synthetic, data), path);
    if kept.result.Err? then Outcome(Err(kept.result.error), kept.lost)
    else if kept.result.value.None? then Outcome(Ok(None), kept.lost)
    else
      match GenerateScope(x.env, synthetic, data)
      case Err(error) => Outcome(Err(Urn(error)), kept.lost)
      case Ok(scope) =>
        match ResolveExpiry(x.env, synthetic, data)
        case Err(error) => Outcome(Err(Expiry(error)), kept.lost)
        case Ok(expiresAt) => Outcome(Ok(Some(Fragment(data, kept.result.value.value, scope, expiresAt, [], parent, synthetic))), kept.lost)
  }

  function TokenYield(x: Expansion, name: Name, synthetic: Mapping, token: string): Outcome<Yield> {
    var made := SyntheticFragment(x, [name], synthetic, TokenData(x, token), None);
    match made.result
    case Err(error) => Outcome(Err(error), made.lost)
    case Ok(None) => Outcome(Ok(NO_YIELD), made.lost)
    case Ok(Some(fragment)) => Outcome(Ok(Yield([Edge(PathKey([name]), fragment.urn)], [fragment])), made.lost)
  }

  function TokensYield(x: Expansion, name: Name, synthetic: Mapping, tokens: seq<string>): Outcome<Yield> {
    if tokens == [] then NO_LINKS
    else Then(TokenYield(x, name, synthetic, tokens[0]), TokensYield(x, name, synthetic, tokens[1..]))
  }

  /** One entity, and one link to it, per token of a list relationship's source that names one. */
  function SyntheticTargets(x: Expansion, name: Name, attribute: Attribute, synthetic: Mapping): Outcome<Yield> {
    var kept := Keep(x.entity, SourceIdentifiers(x.env, attribute, x.data), [name]);
    match kept.result
    case Err(error) => Outcome(Err(error), kept.lost)
    case Ok(None) => Outcome(Ok(NO_YIELD), kept.lost)
    case Ok(Some(tokens)) => TokensYield(x, name, synthetic, tokens)
  }

  /** The one synthetic entity of any other attribute, unless its relationship's source names no target. */
  function SyntheticEntity(x: Expansion, name: Name, attribute: Attribute, synthetic: Mapping): Outcome<Option<Fragment>> {
    var asked := attribute.target.Some? && attribute.source.Some?;
    var kept := Keep(x.entity, ChildId(x.env, attribute, x.data), [name]);
    if asked && kept.result.Err? then Outcome(Err(kept.result.error), kept.lost)
    else if asked && kept.result.value.None? then Outcome(Ok(None), kept.lost)
    else SyntheticFragment(x, [name], synthetic, x.data, Some(Edge(PathKey([name]), x.entity)))
  }

  function Emitted(made: Outcome<Option<Fragment>>): Outcome<Yield> {
    match made.result
    case Err(error) => Outcome(Err(error), made.lost)
    case Ok(None) => Outcome(Ok(NO_YIELD), made.lost)
    case Ok(Some(fragment)) => Outcome(Ok(Yield([], [fragment])), made.lost)
  }

  function InstancesYield(x: Expansion, name: Name, attribute: Attribute, instances: seq<Instance>, from: nat): Outcome<Yield>
    requires from <= |instances|
    decreases |instances| - from
  {
    if from == |instances| then NO_LINKS
    else
      Then(Linked(Keep(x.entity, MintedByInstance(x.env, instances[from], attribute, x.data), [name]), InstanceKey(name, from)),
           InstancesYield(x, name, attribute, instances, from + 1))
  }

  /** What one top-level attribute contributes. */
  function AttributeYield(x: Expansion, name: Name, attribute: Attribute): Outcome<Yield> {
    if attribute.synthetic.Some? then
      if attribute.target.Some? && attribute.kind.ListRelationship? then SyntheticTargets(x, name, attribute, attribute.synthetic.value)
      else Emitted(SyntheticEntity(x, name, attribute, attribute.synthetic.value))
    else if IsRelationship(attribute.kind) && attribute.target.Some? then
      if attribute.instances.Declared? then InstancesYield(x, name, attribute, attribute.instances.list, 0)
      else Linked(Keep(x.entity, Minted(x.env, attribute, x.data), [name]), PathKey([name]))
    else NO_LINKS
  }

  function AttributesYield(x: Expansion, entries: seq<Entry>): Outcome<Yield> {
    if entries == [] then NO_LINKS
    else Then(AttributeYield(x, entries[0].name, entries[0].attribute), AttributesYield(x, entries[1..]))
  }

  // ---- Nested relationships ----

  function NestedLink(x: Expansion, attribute: Attribute, path: Path): Outcome<Yield> {
    if attribute.target.Some? && IsRelationship(attribute.kind)
    then Linked(Keep(x.entity, Minted(x.env, attribute, x.data), path), PathKey(path))
    else NO_LINKS
  }

  /** What the relationships declared beneath an attribute contribute, each under its whole path. */
  function NestedYield(x: Expansion, entries: seq<Entry>, path: Path): Outcome<Yield>
    decreases entries
  {
    if entries == [] then NO_LINKS
    else
      var child := path + [entries[0].name];
      Then(Then(NestedLink(x, entries[0].attribute, child), NestedYield(x, entries[0].attribute.properties, child)),
           NestedYield(x, entries[1..], path))
  }

  function AllNestedYield(x: Expansion, entries: seq<Entry>): Outcome<Yield> {
    if entries == [] then NO_LINKS
    else Then(NestedYield(x, entries[0].attribute.properties, [entries[0].name]), AllNestedYield(x, entries[1..]))
  }

  // ---- The whole record ----

  function LinksYield(x: Expansion, mapping: Mapping): Outcome<Yield> {
    Then(AttributesYield(x, mapping.attributes),
         if mapping.hasNestedRelationships then AllNestedYield(x, mapping.attributes) else NO_LINKS)
  }

  // The main fragment carries the links and comes after the entities derived beside it.
  function WithMain(links: Outcome<Yield>, main: Fragment): Outcome<seq<Fragment>> {
    match links.result
    case Err(error) => Outcome(Err(error), links.lost)
    case Ok(made) => Outcome(Ok(made.fragments + [main.(children := made.edges)]), links.lost)
  }

  /** The fragments a record expands into, the main one last, and the links it loses. */
  function ExpandValue(env: Env, vars: Record, mapping: Mapping, data: Record): Outcome<seq<Fragment>> {
    match GenerateId(env, mapping, data)
    case Err(error) => Outcome(Err(Urn(error)), [])
    case Ok(urn) =>
      match GenerateScope(env, mapping, data)
      case Err(error) => Outcome(Err(Urn(error)), [])
      case Ok(scope) =>
        match ResolveExpiry(env, mapping, data)
        case Err(error) => Outcome(Err(Expiry(error)), [])
        case Ok(expiresAt) =>
          WithMain(LinksYield(Expansion(env, vars, urn, data), mapping), Fragment(data, urn, scope, expiresAt, [], None, mapping))
  }

  /** The expansion of a record under a mapping, the run's variables in its reach. */
  function Expand(env: Env, vars: Record, mapping: Mapping, record: Record): Outcome<seq<Fragment>> {
    ExpandValue(env, vars, mapping, Injected(vars, record))
  }

  // One mapping for every record, or one per collection a record may be labelled with.
  datatype Router = OneMapping(mapping: Mapping) | PerCollection(routes: map<string, Mapping>)

  function Select(router: Router, collection: Option<string>): Result<Mapping, ExpanderError> {
    match router
    case OneMapping(mapping) => Ok(mapping)
    case PerCollection(routes) =>
      match collection
      case None => Err(CollectionMissing)
      case Some(name) => if name in routes then Ok(routes[name]) else Err(UnmatchedCollection(name))
  }

  /** With one mapping the label is never asked for; with several it decides alone, and one that is missing is told from one that is not bound. */
  lemma SelectsByLabel(router: Router, collection: Option<string>, mapping: Mapping)
    ensures router.OneMapping? ==> Select(router, collection) == Ok(router.mapping)
    ensures router.PerCollection? ==>
              && (Select(router, collection) == Ok(mapping) <==> exists name :: collection == Some(name) && name in router.routes && router.routes[name] == mapping)
              && (Select(router, collection) == Err(CollectionMissing) <==> collection.None?)
              && (forall name :: Select(router, collection) == Err(UnmatchedCollection(name)) <==> collection == Some(name) && name !in router.routes)
  {
    if collection.Some? { assert collection == Some(collection.value); }
  }

  /** The expansion of a record under the mapping its collection selects; nothing is lost when none is. */
  function ExpandRouted(env: Env, vars: Record, router: Router, collection: Option<string>, record: Record): Outcome<seq<Fragment>> {
    match Select(router, collection)
    case Err(error) => Outcome(Err(error), [])
    case Ok(mapping) => Expand(env, vars, mapping, record)
  }

  function Main(fragments: seq<Fragment>): Fragment
    requires fragments != []
  {
    fragments[|fragments| - 1]
  }

  /** The identity, scope, and expiry of an entity are those its mapping gives its own data. */
  predicate HoldsMembers(env: Env, fragment: Fragment) {
    && GenerateId(env, fragment.mapping, fragment.data) == Ok(fragment.urn)
    && GenerateScope(env, fragment.mapping, fragment.data) == Ok(fragment.scope)
    && ResolveExpiry(env, fragment.mapping, fragment.data) == Ok(fragment.expiresAt)
  }

  /** The main entity is what the mapping makes of the record with the run's variables, under no parent. */
  lemma MainHoldsItsMembers(env: Env, vars: Record, mapping: Mapping, record: Record)
    requires Expand(env, vars, mapping, record).result.Ok?
    ensures var main := Main(Expand(env, vars, mapping, record).result.value);
            && HoldsMembers(env, main) && main.mapping == mapping && main.parent.None?
            && main.data == if vars == map[] then record else record["vars" := Obj(vars)]
  {
  }

  // ---- Objects recorded under a key ----

  function Objects(edges: seq<Edge>, key: Key): seq<Urn> {
    if edges == [] then []
    else (if edges[0].key == key then [edges[0].urn] else []) + Objects(edges[1..], key)
  }

  lemma {:induction false} ObjectsOfBoth(a: seq<Edge>, b: seq<Edge>, key: Key)
    ensures Objects(a + b, key) == Objects(a, key) + Objects(b, key)
  {
    if a == [] {
      assert a + b == b;
    } else {
      assert (a + b)[1..] == a[1..] + b;
      ObjectsOfBoth(a[1..], b, key);
    }
  }

  lemma {:induction false} ObjectsOfEdges(under: Key, urns: seq<Urn>, key: Key)
    ensures Objects(Edges(under, urns), key) == if key == under then urns else []
  {
    if urns != [] {
      assert Edges(under, urns)[1..] == Edges(under, urns[1..]);
      ObjectsOfEdges(under, urns[1..], key);
    }
  }

  function ObjectsIn(outcome: Outcome<Yield>, key: Key): seq<Urn> {
    if outcome.result.Ok? then Objects(outcome.result.value.edges, key) else []
  }

  lemma ObjectsThen(a: Outcome<Yield>, b: Outcome<Yield>, key: Key)
    requires Then(a, b).result.Ok?
    ensures a.result.Ok? && b.result.Ok? && ObjectsIn(Then(a, b), key) == ObjectsIn(a, key) + ObjectsIn(b, key)
  {
    ObjectsOfBoth(a.result.value.edges, b.result.value.edges, key);
  }

  // What a relationship keeps of what its source mints: nothing when the source names no target.
  function Kept(minted: Result<seq<Urn>, UrnError>): seq<Urn> {
    if minted.Ok? then minted.value else []
  }

  lemma ObjectsLinked(entity: Urn, minted: Result<seq<Urn>, UrnError>, path: Path, under: Key, key: Key)
    ensures var linked := Linked(Keep(entity, minted, path), under);
            linked.result.Ok? ==> ObjectsIn(linked, key) == if key == under then Kept(minted) else []
  {
    if minted.Ok? { ObjectsOfEdges(under, minted.value, key); }
  }

  // ---- What each declaration mints ----

  function Find(entries: seq<Entry>, name: Name): Option<Attribute> {
    if entries == [] then None
    else if entries[0].name == name then Some(entries[0].attribute)
    else Find(entries[1..], name)
  }

  /** Every declaration is keyed by its name, as are the sub-attributes beneath it. */
  ghost predicate Keyed(entries: seq<Entry>)
    decreases entries
  {
    entries != [] ==>
      && Find(entries[1..], entries[0].name).None?
      && Keyed(entries[0].attribute.properties)
      && Keyed(entries[1..])
  }

  function NamedBy(x: Expansion, synthetic: Mapping, token: string): seq<(string, Urn)> {
    var minted := GenerateId(x.env, synthetic, TokenData(x, token));
    if minted.Ok? then [(token, minted.value)] else []
  }

  // The URNs of a synthetic identity over the tokens that name one, in order.
  function Naming(x: Expansion, synthetic: Mapping, tokens: seq<string>): seq<(string, Urn)> {
    if tokens == [] then []
    else NamedBy(x, synthetic, tokens[0]) + Naming(x, synthetic, tokens[1..])
  }

  function Seconds<T, U>(pairs: seq<(T, U)>): (seconds: seq<U>)
    ensures |seconds| == |pairs| && forall i :: 0 <= i < |pairs| ==> seconds[i] == pairs[i].1
  {
    seq(|pairs|, i requires 0 <= i < |pairs| => pairs[i].1)
  }

  /** What the tokens of a list relationship with a synthetic entity name: the tokens that do, each with its URN. */
  function Named(x: Expansion, attribute: Attribute, synthetic: Mapping): seq<(string, Urn)> {
    var tokens := SourceIdentifiers(x.env, attribute, x.data);
    if tokens.Ok? then Naming(x, synthetic, tokens.value) else []
  }

  // A relationship, to one entity or to a list of them, that says of what type they are.
  predicate Links(attribute: Attribute) {
    attribute.target.Some? && (attribute.kind == Relationship || attribute.kind == ListRelationship)
  }

  // What a top-level declaration mints under its own path.
  function TopObjects(x: Expansion, attribute: Attribute): seq<Urn> {
    if !Links(attribute) then []
    else if attribute.synthetic.Some? then
      if attribute.kind == ListRelationship then Seconds(Named(x, attribute, attribute.synthetic.value)) else []
    else if attribute.instances.Undeclared? then Kept(Minted(x.env, attribute, x.data))
    else []
  }

  function InstanceObjects(x: Expansion, attribute: Attribute, index: nat): seq<Urn> {
    if Links(attribute) && attribute.synthetic.None? && attribute.instances.Declared?
       && index < |attribute.instances.list|
    then Kept(MintedByInstance(x.env, attribute.instances.list[index], attribute, x.data))
    else []
  }

  // What the declaration at a path beneath `entries` mints.
  function NestedObjects(x: Expansion, entries: seq<Entry>, path: Path): seq<Urn>
    decreases |path|
  {
    if path == [] then []
    else
      match Find(entries, path[0])
      case None => []
      case Some(attribute) =>
        if |path| > 1 then NestedObjects(x, attribute.properties, path[1..])
        else if Links(attribute) then Kept(Minted(x.env, attribute, x.data))
        else []
  }

  /** What minting the one declaration a key names yields. */
  function DeclaredObjects(x: Expansion, attributes: seq<Entry>, key: Key): seq<Urn> {
    match key
    case InstanceKey(name, index) =>
      var found := Find(attributes, name);
      if found.Some? then InstanceObjects(x, found.value, index) else []
    case PathKey(path) =>
      if path == [] then []
      else
        var found := Find(attributes, path[0]);
        if found.None? then []
        else if |path| == 1 then TopObjects(x, found.value)
        else NestedObjects(x, found.value.properties, path[1..])
  }

  // ---- Every key holds what its declaration mints ----

  lemma {:induction false} InstanceKeysHold(x: Expansion, name: Name, attribute: Attribute, instances: seq<Instance>, from: nat, key: Key)
    requires from <= |instances| && InstancesYield(x, name, attribute, instances, from).result.Ok?
    ensures ObjectsIn(InstancesYield(x, name, attribute, instances, from), key)
            == if key.InstanceKey? && key.attribute == name && from <= key.index < |instances|
               then Kept(MintedByInstance(x.env, instances[key.index], attribute, x.data)) else []
    decreases |instances| - from
  {
    if from < |instances| {
      var minted := MintedByInstance(x.env, instances[from], attribute, x.data);
      ObjectsThen(Linked(Keep(x.entity, minted, [name]), InstanceKey(name, from)), InstancesYield(x, name, attribute, instances, from + 1), key);
      ObjectsLinked(x.entity, minted, [name], InstanceKey(name, from), key);
      InstanceKeysHold(x, name, attribute, instances, from + 1, key);
    }
  }

  // Links and entities in step: both are, in order, one for each token named.
  ghost predicate InStep(x: Expansion, name: Name, made: Yield, named: seq<(string, Urn)>) {
    && made.edges == Edges(PathKey([name]), Seconds(named))
    && |made.fragments| == |named|
    && forall i :: 0 <= i < |named| ==> made.fragments[i].urn == named[i].1 && made.fragments[i].data == TokenData(x, named[i].0)
  }

  lemma TokenInStep(x: Expansion, name: Name, synthetic: Mapping, token: string)
    requires TokenYield(x, name, synthetic, token).result.Ok?
    ensures InStep(x, name, TokenYield(x, name, synthetic, token).result.value, NamedBy(x, synthetic, token))
  {
    var named := NamedBy(x, synthetic, token);
    if named != [] { assert Seconds(named) == [named[0].1] && Seconds(named)[1..] == []; }
  }

  lemma {:induction false} EdgesOfBoth(key: Key, a: seq<Urn>, b: seq<Urn>)
    ensures Edges(key, a + b) == Edges(key, a) + Edges(key, b)
  {
    if a == [] {
      assert a + b == b;
    } else {
      assert (a + b)[1..] == a[1..] + b;
      EdgesOfBoth(key, a[1..], b);
    }
  }

  lemma BothInStep(x: Expansion, name: Name, a: Yield, b: Yield, first: seq<(string, Urn)>, rest: seq<(string, Urn)>)
    requires InStep(x, name, a, first) && InStep(x, name, b, rest)
    ensures InStep(x, name, Yield(a.edges + b.edges, a.fragments + b.fragments), first + rest)
  {
    assert Seconds(first + rest) == Seconds(first) + Seconds(rest);
    EdgesOfBoth(PathKey([name]), Seconds(first), Seconds(rest));
  }

  /**
  The links of a synthetic list relationship and the entities it emits are in step: both are, in
  order, one for each token the synthetic identity names.
  */
  lemma {:induction false} LinksFollowEntities(x: Expansion, name: Name, synthetic: Mapping, tokens: seq<string>)
    requires TokensYield(x, name, synthetic, tokens).result.Ok?
    ensures InStep(x, name, TokensYield(x, name, synthetic, tokens).result.value, Naming(x, synthetic, tokens))
  {
    if tokens != [] {
      TokenInStep(x, name, synthetic, tokens[0]);
      LinksFollowEntities(x, name, synthetic, tokens[1..]);
      BothInStep(x, name, TokenYield(x, name, synthetic, tokens[0]).result.value, TokensYield(x, name, synthetic, tokens[1..]).result.value,
                 NamedBy(x, synthetic, tokens[0]), Naming(x, synthetic, tokens[1..]));
    }
  }

  // What one top-level declaration mints under a key.
  function OwnObjects(x: Expansion, name: Name, attribute: Attribute, key: Key): seq<Urn> {
    match key
    case InstanceKey(owner, index) => if owner == name then InstanceObjects(x, attribute, index) else []
    case PathKey(path) => if path == [name] then TopObjects(x, attribute) else []
  }

  lemma AttributeKeysHold(x: Expansion, name: Name, attribute: Attribute, key: Key)
    requires AttributeYield(x, name, attribute).result.Ok?
    ensures ObjectsIn(AttributeYield(x, name, attribute), key) == OwnObjects(x, name, attribute, key)
  {
    if attribute.synthetic.Some? {
      var synthetic := attribute.synthetic.value;
      var tokens := SourceIdentifiers(x.env, attribute, x.data);
      if attribute.target.Some? && attribute.kind.ListRelationship? && tokens.Ok? {
        LinksFollowEntities(x, name, synthetic, tokens.value);
        ObjectsOfEdges(PathKey([name]), Seconds(Naming(x, synthetic, tokens.value)), key);
      }
    } else if IsRelationship(attribute.kind) && attribute.target.Some? {
      if attribute.instances.Declared? {
        InstanceKeysHold(x, name, attribute, attribute.instances.list, 0, key);
      } else {
        ObjectsLinked(x.entity, Minted(x.env, attribute, x.data), [name], PathKey([name]), key);
      }
    }
  }

  // The name of the top-level declaration a key belongs to.
  function Owner(key: Key): Name {
    match key
    case InstanceKey(name, _) => name
    case PathKey(path) => if path == [] then [] else path[0]
  }

  // What the top-level declaration a key belongs to mints under it.
  function OwnedObjects(x: Expansion, entries: seq<Entry>, key: Key): seq<Urn> {
    match Find(entries, Owner(key))
    case None => []
    case Some(attribute) => OwnObjects(x, Owner(key), attribute, key)
  }

  lemma OnlyOneOwner(x: Expansion, entries: seq<Entry>, key: Key)
    requires Keyed(entries) && entries != []
    ensures OwnedObjects(x, entries, key) == OwnObjects(x, entries[0].name, entries[0].attribute, key) + OwnedObjects(x, entries[1..], key)
  {
  }

  lemma {:induction false} AttributesKeysHold(x: Expansion, entries: seq<Entry>, key: Key)
    requires Keyed(entries) && AttributesYield(x, entries).result.Ok?
    ensures ObjectsIn(AttributesYield(x, entries), key) == OwnedObjects(x, entries, key)
  {
    if entries != [] {
      var name, attribute := entries[0].name, entries[0].attribute;
      ObjectsThen(AttributeYield(x, name, attribute), AttributesYield(x, entries[1..]), key);
      AttributeKeysHold(x, name, attribute, key);
      AttributesKeysHold(x, entries[1..], key);
      OnlyOneOwner(x, entries, key);
    }
  }

  // What a sub-attribute and everything beneath it mint under a path that starts at it.
  function BranchObjects(x: Expansion, attribute: Attribute, path: Path): seq<Urn>
    requires path != []
  {
    if |path| > 1 then NestedObjects(x, attribute.properties, path[1..])
    else if attribute.target.Some? && IsRelationship(attribute.kind) then Kept(Minted(x.env, attribute, x.data))
    else []
  }

  lemma OnlyOneBranch(x: Expansion, entries: seq<Entry>, path: Path)
    requires Keyed(entries) && entries != [] && path != []
    ensures NestedObjects(x, entries, path)
            == (if path[0] == entries[0].name then BranchObjects(x, entries[0].attribute, path) else []) + NestedObjects(x, entries[1..], path)
  {
  }

  lemma BranchKeysHold(x: Expansion, attribute: Attribute, child: Path, key: Key)
    requires child != [] && Then(NestedLink(x, attribute, child), NestedYield(x, attribute.properties, child)).result.Ok?
    requires ObjectsIn(NestedYield(x, attribute.properties, child), key) == BeneathPath(x, attribute.properties, child, key)
    ensures ObjectsIn(Then(NestedLink(x, attribute, child), NestedYield(x, attribute.properties, child)), key) == InBranch(x, attribute, child, key)
  {
    ObjectsThen(NestedLink(x, attribute, child), NestedYield(x, attribute.properties, child), key);
    ObjectsLinked(x.entity, Minted(x.env, attribute, x.data), child, PathKey(child), key);
    InBranchIsOwnOrBeneath(x, attribute, child, key);
  }

  // What a branch mints under a key is its own objects at its path, and else those beneath it.
  lemma InBranchIsOwnOrBeneath(x: Expansion, attribute: Attribute, child: Path, key: Key)
    requires child != []
    ensures InBranch(x, attribute, child, key)
            == (if key == PathKey(child) && Links(attribute) then Kept(Minted(x.env, attribute, x.data)) else [])
               + BeneathPath(x, attribute.properties, child, key)
  {
    if key.PathKey? && child <= key.path {
      assert key.path[|child| - 1..][1..] == key.path[|child|..];
      assert key.path == child <==> |key.path| == |child|;
    }
  }

  // What the declarations at a path mint under a key that leads beneath it.
  function BeneathPath(x: Expansion, entries: seq<Entry>, path: Path, key: Key): seq<Urn> {
    if key.PathKey? && path <= key.path then NestedObjects(x, entries, key.path[|path|..]) else []
  }

  function InBranch(x: Expansion, attribute: Attribute, child: Path, key: Key): seq<Urn>
    requires child != []
  {
    if key.PathKey? && child <= key.path then BranchObjects(x, attribute, key.path[|child| - 1..]) else []
  }

  lemma OnlyOneBranchHolds(x: Expansion, entries: seq<Entry>, path: Path, key: Key)
    requires Keyed(entries) && entries != []
    ensures BeneathPath(x, entries, path, key)
            == InBranch(x, entries[0].attribute, path + [entries[0].name], key) + BeneathPath(x, entries[1..], path, key)
  {
    if key.PathKey? && path < key.path {
      OnlyOneBranch(x, entries, key.path[|path|..]);
      assert path + [entries[0].name] <= key.path <==> key.path[|path|] == entries[0].name;
    }
  }

  /** The nested objects under a key are those of the declaration at the rest of its path. */
  lemma {:induction false} NestedKeysHold(x: Expansion, entries: seq<Entry>, path: Path, key: Key)
    requires Keyed(entries) && NestedYield(x, entries, path).result.Ok?
    ensures ObjectsIn(NestedYield(x, entries, path), key) == BeneathPath(x, entries, path, key)
    decreases entries
  {
    if entries != [] {
      var attribute, child := entries[0].attribute, path + [entries[0].name];
      var branch := Then(NestedLink(x, attribute, child), NestedYield(x, attribute.properties, child));
      ObjectsThen(branch, NestedYield(x, entries[1..], path), key);
      NestedKeysHold(x, attribute.properties, child, key);
      BranchKeysHold(x, attribute, child, key);
      NestedKeysHold(x, entries[1..], path, key);
      OnlyOneBranchHolds(x, entries, path, key);
    }
  }

  lemma {:induction false} AllNestedKeysHold(x: Expansion, entries: seq<Entry>, key: Key)
    requires Keyed(entries) && AllNestedYield(x, entries).result.Ok?
    ensures ObjectsIn(AllNestedYield(x, entries), key)
            == match Find(entries, Owner(key))
               case None => []
               case Some(attribute) => if key.PathKey? && key.path != [] then NestedObjects(x, attribute.properties, key.path[1..]) else []
  {
    if entries != [] {
      var name := entries[0].name;
      ObjectsThen(NestedYield(x, entries[0].attribute.properties, [name]), AllNestedYield(x, entries[1..]), key);
      NestedKeysHold(x, entries[0].attribute.properties, [name], key);
      AllNestedKeysHold(x, entries[1..], key);
    }
  }

  // ---- The gate ----

  lemma {:induction false} NothingNested(x: Expansion, entries: seq<Entry>, path: Path)
    requires !DeclareRelationship(entries)
    ensures NestedYield(x, entries, path) == NO_LINKS
    decreases entries
  {
    if entries != [] {
      NothingNested(x, entries[0].attribute.properties, path + [entries[0].name]);
      NothingNested(x, entries[1..], path);
    }
  }

  lemma {:induction false} NothingNestedAnywhere(x: Expansion, entries: seq<Entry>)
    requires !DetectNestedRelationships(entries)
    ensures AllNestedYield(x, entries) == NO_LINKS
  {
    if entries != [] {
      assert !DeclaresNestedRelationship(entries[0].attribute);
      NothingNested(x, entries[0].attribute.properties, [entries[0].name]);
      assert forall i :: 0 <= i < |entries[1..]| ==> entries[1..][i] == entries[i + 1];
      NothingNestedAnywhere(x, entries[1..]);
    }
  }

  /** Loading records whether anything is nested, and keys every declaration by its name. */
  ghost predicate IsLoaded(mapping: Mapping) {
    mapping.hasNestedRelationships == DetectNestedRelationships(mapping.attributes) && Keyed(mapping.attributes)
  }

  /** The walk the gate spares a mapping with nothing nested would have found nothing. */
  lemma GateChangesNothing(x: Expansion, mapping: Mapping)
    requires mapping.hasNestedRelationships == DetectNestedRelationships(mapping.attributes)
    ensures LinksYield(x, mapping) == Then(AttributesYield(x, mapping.attributes), AllNestedYield(x, mapping.attributes))
  {
    if !mapping.hasNestedRelationships { NothingNestedAnywhere(x, mapping.attributes); }
  }

  lemma LinkKeysHold(x: Expansion, mapping: Mapping, key: Key)
    requires IsLoaded(mapping) && LinksYield(x, mapping).result.Ok?
    ensures ObjectsIn(LinksYield(x, mapping), key) == DeclaredObjects(x, mapping.attributes, key)
  {
    GateChangesNothing(x, mapping);
    ObjectsThen(AttributesYield(x, mapping.attributes), AllNestedYield(x, mapping.attributes), key);
    AttributesKeysHold(x, mapping.attributes, key);
    AllNestedKeysHold(x, mapping.attributes, key);
  }

  /**
  Under every key, the main fragment carries exactly what minting the one declaration the key names
  yields, in minting order: no other declaration, instance, or token can add to it or take from it.
  */
  lemma KeysHoldTheirDeclarations(env: Env, vars: Record, mapping: Mapping, data: Record, key: Key)
    requires IsLoaded(mapping) && ExpandValue(env, vars, mapping, data).result.Ok?
    ensures var main := Main(ExpandValue(env, vars, mapping, data).result.value);
            Objects(main.children, key) == DeclaredObjects(Expansion(env, vars, main.urn, data), mapping.attributes, key)
  {
    LinkKeysHold(Expansion(env, vars, GenerateId(env, mapping, data).value, data), mapping, key);
  }

  // ---- Every fragment comes from one declaration ----

  function Joined(parts: seq<seq<Fragment>>): seq<Fragment> {
    if parts == [] then [] else parts[0] + Joined(parts[1..])
  }

  function UrnsOf(fragments: seq<Fragment>): (urns: seq<Urn>)
    ensures |urns| == |fragments| && forall i :: 0 <= i < |fragments| ==> urns[i] == fragments[i].urn
  {
    seq(|fragments|, i requires 0 <= i < |fragments| => fragments[i].urn)
  }

  // A synthetic entity fed by the tokens of its own list relationship reads nothing else of the record.
  predicate FedByTokens(attribute: Attribute) {
    attribute.synthetic.Some? && attribute.target.Some? && attribute.kind.ListRelationship?
  }

  // Whether a synthetic entity is only emitted when its relationship's source names a target.
  predicate Asks(attribute: Attribute) {
    attribute.target.Some? && attribute.source.Some?
  }

  /**
  What one declaration emits: an entity per token that names one, over that token, or the one entity of
  the record, linked back to the main one, when source and identity name it, or nothing; each with the
  identity, scope, and expiry the synthetic mapping gives its own data.
  */
  ghost predicate EmittedBy(x: Expansion, name: Name, attribute: Attribute, part: seq<Fragment>) {
    if attribute.synthetic.None? then part == []
    else
      var synthetic := attribute.synthetic.value;
      if FedByTokens(attribute) then
        var named := Named(x, attribute, synthetic);
        && UrnsOf(part) == Seconds(named)
        && forall i :: 0 <= i < |part| ==>
             && part[i].data == TokenData(x, named[i].0) && part[i].mapping == synthetic && part[i].parent.None?
             && part[i].children == [] && HoldsMembers(x.env, part[i])
      else
        var id := GenerateId(x.env, synthetic, x.data);
        && |part| == (if id.Ok? && (Asks(attribute) ==> ChildId(x.env, attribute, x.data).Ok?) then 1 else 0)
        && forall i :: 0 <= i < |part| ==>
             && part[i].data == x.data && part[i].mapping == synthetic && HoldsMembers(x.env, part[i])
             && part[i].parent == Some(Edge(PathKey([name]), x.entity)) && part[i].children == []
  }

  lemma {:induction false} TokensEmit(x: Expansion, name: Name, synthetic: Mapping, tokens: seq<string>)
    requires TokensYield(x, name, synthetic, tokens).result.Ok?
    ensures forall f :: f in TokensYield(x, name, synthetic, tokens).result.value.fragments ==>
              f.mapping == synthetic && f.parent.None? && f.children == [] && HoldsMembers(x.env, f)
  {
    if tokens != [] { TokensEmit(x, name, synthetic, tokens[1..]); }
  }

  lemma AttributeEmits(x: Expansion, name: Name, attribute: Attribute)
    requires AttributeYield(x, name, attribute).result.Ok?
    ensures EmittedBy(x, name, attribute, AttributeYield(x, name, attribute).result.value.fragments)
  {
    if attribute.synthetic.Some? {
      if FedByTokens(attribute) {
        var tokens := SourceIdentifiers(x.env, attribute, x.data);
        if tokens.Ok? {
          LinksFollowEntities(x, name, attribute.synthetic.value, tokens.value);
          TokensEmit(x, name, attribute.synthetic.value, tokens.value);
        }
      }
    } else if attribute.instances.Declared? && IsRelationship(attribute.kind) && attribute.target.Some? {
      InstancesEmitNothing(x, name, attribute, attribute.instances.list, 0);
    }
  }

  lemma LinkEmitsNothing(kept: Outcome<Option<seq<Urn>>>, key: Key)
    ensures Linked(kept, key).result.Ok? ==> Linked(kept, key).result.value.fragments == []
  {
  }

  lemma {:induction false} InstancesEmitNothing(x: Expansion, name: Name, attribute: Attribute, instances: seq<Instance>, from: nat)
    requires from <= |instances| && InstancesYield(x, name, attribute, instances, from).result.Ok?
    ensures InstancesYield(x, name, attribute, instances, from).result.value.fragments == []
    decreases |instances| - from
  {
    if from < |instances| {
      var minted := MintedByInstance(x.env, instances[from], attribute, x.data);
      LinkEmitsNothing(Keep(x.entity, minted, [name]), InstanceKey(name, from));
      InstancesEmitNothing(x, name, attribute, instances, from + 1);
    }
  }

  lemma {:induction false} NestedEmitNothing(x: Expansion, entries: seq<Entry>, path: Path)
    requires NestedYield(x, entries, path).result.Ok?
    ensures NestedYield(x, entries, path).result.value.fragments == []
    decreases entries
  {
    if entries != [] {
      NestedEmitNothing(x, entries[0].attribute.properties, path + [entries[0].name]);
      NestedEmitNothing(x, entries[1..], path);
    }
  }

  lemma {:induction false} AllNestedEmitNothing(x: Expansion, entries: seq<Entry>)
    requires AllNestedYield(x, entries).result.Ok?
    ensures AllNestedYield(x, entries).result.value.fragments == []
  {
    if entries != [] {
      NestedEmitNothing(x, entries[0].attribute.properties, [entries[0].name]);
      AllNestedEmitNothing(x, entries[1..]);
    }
  }

  lemma {:induction false} AttributesEmit(x: Expansion, entries: seq<Entry>) returns (parts: seq<seq<Fragment>>)
    requires AttributesYield(x, entries).result.Ok?
    ensures Joined(parts) == AttributesYield(x, entries).result.value.fragments && |parts| == |entries|
    ensures forall i :: 0 <= i < |entries| ==> EmittedBy(x, entries[i].name, entries[i].attribute, parts[i])
  {
    parts := [];
    if entries != [] {
      AttributeEmits(x, entries[0].name, entries[0].attribute);
      var rest := AttributesEmit(x, entries[1..]);
      parts := [AttributeYield(x, entries[0].name, entries[0].attribute).result.value.fragments] + rest;
      assert parts[1..] == rest;
      forall i | 0 < i < |entries| ensures EmittedBy(x, entries[i].name, entries[i].attribute, parts[i]) {
        assert entries[i] == entries[1..][i - 1] && parts[i] == rest[i - 1];
      }
    }
  }

  lemma {:induction false} FindAt(entries: seq<Entry>, at: nat)
    requires Keyed(entries) && at < |entries|
    ensures Find(entries, entries[at].name) == Some(entries[at].attribute)
  {
    if at > 0 {
      FindAt(entries[1..], at - 1);
      assert entries[1..][at - 1] == entries[at];
    }
  }

  lemma TokensAreLinked(x: Expansion, mapping: Mapping, at: nat, part: seq<Fragment>)
    requires IsLoaded(mapping) && LinksYield(x, mapping).result.Ok? && at < |mapping.attributes|
    requires var entry := mapping.attributes[at]; FedByTokens(entry.attribute) && EmittedBy(x, entry.name, entry.attribute, part)
    ensures ObjectsIn(LinksYield(x, mapping), PathKey([mapping.attributes[at].name])) == UrnsOf(part)
  {
    FindAt(mapping.attributes, at);
    LinkKeysHold(x, mapping, PathKey([mapping.attributes[at].name]));
  }

  /**
  An expanded record's fragments are, in the order of the declarations, what each declaration emits, and
  then the main one. The main one's links to a declaration fed by tokens are those entities, in order.
  */
  lemma FragmentsFollowDeclarations(env: Env, vars: Record, mapping: Mapping, data: Record) returns (parts: seq<seq<Fragment>>)
    requires IsLoaded(mapping) && ExpandValue(env, vars, mapping, data).result.Ok?
    ensures var fragments := ExpandValue(env, vars, mapping, data).result.value;
            var main := Main(fragments);
            && fragments == Joined(parts) + [main] && |parts| == |mapping.attributes|
            && forall i :: 0 <= i < |parts| ==>
                 var entry := mapping.attributes[i];
                 && EmittedBy(Expansion(env, vars, main.urn, data), entry.name, entry.attribute, parts[i])
                 && (FedByTokens(entry.attribute) ==> Objects(main.children, PathKey([entry.name])) == UrnsOf(parts[i]))
  {
    var x := Expansion(env, vars, GenerateId(env, mapping, data).value, data);
    GateChangesNothing(x, mapping);
    AllNestedEmitNothing(x, mapping.attributes);
    parts := AttributesEmit(x, mapping.attributes);
    var main := Main(ExpandValue(env, vars, mapping, data).result.value);
    forall i | 0 <= i < |parts| && FedByTokens(mapping.attributes[i].attribute)
      ensures Objects(main.children, PathKey([mapping.attributes[i].name])) == UrnsOf(parts[i])
    {
      TokensAreLinked(x, mapping, i, parts[i]);
    }
  }
}
