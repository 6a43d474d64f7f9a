/** Compiling every template of a mapping once, and recording the source keys they read. */
module Compiler {
  import opened Wrappers
  import opened Templates
  import opened Mappings

  // ---- Where a template is declared ----

  datatype Nesting = SubAttribute | Member

  // A declaration descended through, and how what lies beneath it is nested in it.
  datatype Frame = Frame(name: Name, nesting: Nesting)

  datatype AttributePath = AttributePath(root: Name, subAttributes: seq<Name>, members: seq<Name>)

  datatype Site = EntityName | ScopeOf | ExpiresAt | SourceOf(path: AttributePath)

  /** A template and the declaration it is written in, which is also how a rejection names it. */
  datatype Declaration = Declaration(site: Site, text: string)

  // The names nested one way beneath the owners, outermost first.
  function Nested(owners: seq<Frame>, leaf: Name, nesting: Nesting): seq<Name> {
    if owners == [] then []
    else if owners[0].nesting == nesting then [if |owners| == 1 then leaf else owners[1].name] + Nested(owners[1..], leaf, nesting)
    else Nested(owners[1..], leaf, nesting)
  }

  function PathOf(owners: seq<Frame>, leaf: Name): AttributePath {
    AttributePath(if owners == [] then leaf else owners[0].name, Nested(owners, leaf, SubAttribute), Nested(owners, leaf, Member))
  }

  lemma {:induction false} NestedGrows(owners: seq<Frame>, last: Frame, leaf: Name, nesting: Nesting)
    ensures Nested(owners + [last], leaf, nesting) == Nested(owners, last.name, nesting) + if last.nesting == nesting then [leaf] else []
  {
    if owners == [] {
      assert (owners + [last])[1..] == [] && Nested([], leaf, nesting) == [];
    } else {
      assert (owners + [last])[1..] == owners[1..] + [last];
      NestedGrows(owners[1..], last, leaf, nesting);
    }
  }

  /** A declaration beneath another has that one's path, with its own name added the way it is nested. */
  lemma PathGrows(owners: seq<Frame>, name: Name, leaf: Name)
    ensures var above := PathOf(owners, name);
            && PathOf(owners + [Frame(name, SubAttribute)], leaf) == above.(subAttributes := above.subAttributes + [leaf])
            && PathOf(owners + [Frame(name, Member)], leaf) == above.(members := above.members + [leaf])
    ensures PathOf([], name) == AttributePath(name, [], [])
  {
    NestedGrows(owners, Frame(name, SubAttribute), leaf, SubAttribute);
    NestedGrows(owners, Frame(name, SubAttribute), leaf, Member);
    NestedGrows(owners, Frame(name, Member), leaf, SubAttribute);
    NestedGrows(owners, Frame(name, Member), leaf, Member);
  }

  // ---- Every template of a mapping, in the order it is compiled ----

  function DeclaredByItems(path: AttributePath, items: seq<Json>): seq<Declaration> {
    if items == [] then []
    else
      var before, last := DeclaredByItems(path, items[..|items| - 1]), items[|items| - 1];
      if last.Str? then before + [Declaration(SourceOf(path), last.chars)] else before
  }

  function DeclaredBySource(path: AttributePath, source: Option<Json>): seq<Declaration> {
    match source
    case Some(Str(text)) => [Declaration(SourceOf(path), text)]
    case Some(Arr(items)) => DeclaredByItems(path, items)
    case _ => []
  }

  function DeclaredByAttribute(owners: seq<Frame>, name: Name, attribute: Attribute): seq<Declaration>
    decreases attribute, 1
  {
    var path, sub := PathOf(owners, name), owners + [Frame(name, SubAttribute)];
    DeclaredBySource(path, attribute.source)
    + DeclaredByEntries(owners + [Frame(name, Member)], None, attribute.mappings)
    + DeclaredByEntries(owners, Some(name), attribute.languageMap)
    + DeclaredByEntries(sub, None, attribute.properties)
    + (if attribute.instances.Declared? then DeclaredByInstances(path, sub, attribute.instances.list) else [])
    + (if attribute.synthetic.Some? then DeclaredByMapping(attribute.synthetic.value) else [])
  }

  // An entry is reported under its own key unless it is given another's, as a language's is.
  function DeclaredByEntries(owners: seq<Frame>, reported: Option<Name>, entries: seq<Entry>): seq<Declaration>
    decreases entries, 0
  {
    if entries == [] then []
    else
      var last := entries[|entries| - 1];
      DeclaredByEntries(owners, reported, entries[..|entries| - 1])
      + DeclaredByAttribute(owners, if reported.Some? then reported.value else last.name, last.attribute)
  }

  function DeclaredByInstances(path: AttributePath, owners: seq<Frame>, instances: seq<Instance>): seq<Declaration>
    decreases instances, 0
  {
    if instances == [] then []
    else
      var last := instances[|instances| - 1];
      DeclaredByInstances(path, owners, instances[..|instances| - 1]) + DeclaredByInstance(path, owners, last)
  }

  function DeclaredByInstance(path: AttributePath, owners: seq<Frame>, instance: Instance): seq<Declaration>
    decreases instance, 0
  {
    DeclaredBySource(path, instance.source) + DeclaredByEntries(owners, None, instance.properties)
  }

  function DeclaredByScopes(sources: seq<string>): seq<Declaration> {
    seq(|sources|, i requires 0 <= i < |sources| => Declaration(ScopeOf, sources[i]))
  }

  function SourcesOfScope(scope: Option<Scope>): seq<string> {
    match scope
    case None => []
    case Some(Single(source)) => [source]
    case Some(Multiple(sources)) => sources
  }

  function DeclaredByMapping(mapping: Mapping): seq<Declaration>
    decreases mapping, 2
  {
    [Declaration(EntityName, mapping.entityName)]
    + DeclaredByScopes(SourcesOfScope(mapping.scope))
    + (if mapping.expiresAt.Some? then [Declaration(ExpiresAt, mapping.expiresAt.value)] else [])
    + DeclaredByEntries([], None, mapping.attributes)
  }

  lemma {:induction false} EntryIsDeclared(owners: seq<Frame>, reported: Option<Name>, entries: seq<Entry>, at: nat, declaration: Declaration)
    requires at < |entries|
    requires declaration in DeclaredByAttribute(owners, if reported.Some? then reported.value else entries[at].name, entries[at].attribute)
    ensures declaration in DeclaredByEntries(owners, reported, entries)
  {
    if at < |entries| - 1 { EntryIsDeclared(owners, reported, entries[..|entries| - 1], at, declaration); }
  }

  lemma {:induction false} InstanceIsDeclared(path: AttributePath, owners: seq<Frame>, instances: seq<Instance>, at: nat, declaration: Declaration)
    requires at < |instances| && declaration in DeclaredByInstance(path, owners, instances[at])
    ensures declaration in DeclaredByInstances(path, owners, instances)
  {
    if at < |instances| - 1 { InstanceIsDeclared(path, owners, instances[..|instances| - 1], at, declaration); }
  }

  // A template written as the one source of a declaration, reported under a path.
  ghost predicate Reports(declarations: seq<Declaration>, path: AttributePath, source: Option<Json>) {
    source.Some? && source.value.Str? ==> Declaration(SourceOf(path), source.value.chars) in declarations
  }

  lemma OwnSourceIsDeclared(owners: seq<Frame>, name: Name, attribute: Attribute)
    ensures Reports(DeclaredByAttribute(owners, name, attribute), PathOf(owners, name), attribute.source)
  {
  }

  /**
  A template is reported where it is written: a sub-attribute's under its attribute's path with its name
  among the sub-attributes, a member's with its name among the members, and that of an attribute, of one
  of its languages, or of one of its instances under the attribute's own path.
  */
  lemma ReportedWhereWritten(owners: seq<Frame>, name: Name, attribute: Attribute, at: nat)
    ensures var declared, path := DeclaredByAttribute(owners, name, attribute), PathOf(owners, name);
            && Reports(declared, path, attribute.source)
            && (at < |attribute.properties| ==>
                  var entry := attribute.properties[at];
                  Reports(declared, path.(subAttributes := path.subAttributes + [entry.name]), entry.attribute.source))
            && (at < |attribute.mappings| ==>
                  var entry := attribute.mappings[at];
                  Reports(declared, path.(members := path.members + [entry.name]), entry.attribute.source))
            && (at < |attribute.languageMap| ==> Reports(declared, path, attribute.languageMap[at].attribute.source))
            && (attribute.instances.Declared? && at < |attribute.instances.list| ==> Reports(declared, path, attribute.instances.list[at].source))
  {
    var sub, member := owners + [Frame(name, SubAttribute)], owners + [Frame(name, Member)];
    if at < |attribute.properties| {
      var entry := attribute.properties[at];
      PathGrows(owners, name, entry.name);
      EntryReports(sub, None, attribute.properties, at);
    }
    if at < |attribute.mappings| {
      PathGrows(owners, name, attribute.mappings[at].name);
      EntryReports(member, None, attribute.mappings, at);
    }
    if at < |attribute.languageMap| { EntryReports(owners, Some(name), attribute.languageMap, at); }
    if attribute.instances.Declared? && at < |attribute.instances.list| {
      InstanceReports(PathOf(owners, name), sub, attribute.instances.list, at);
    }
  }

  lemma EntryReports(owners: seq<Frame>, reported: Option<Name>, entries: seq<Entry>, at: nat)
    requires at < |entries|
    ensures Reports(DeclaredByEntries(owners, reported, entries),
                    PathOf(owners, if reported.Some? then reported.value else entries[at].name), entries[at].attribute.source)
  {
    var name, source := if reported.Some? then reported.value else entries[at].name, entries[at].attribute.source;
    OwnSourceIsDeclared(owners, name, entries[at].attribute);
    if source.Some? && source.value.Str? {
      EntryIsDeclared(owners, reported, entries, at, Declaration(SourceOf(PathOf(owners, name)), source.value.chars));
    }
  }

  lemma InstanceReports(path: AttributePath, owners: seq<Frame>, instances: seq<Instance>, at: nat)
    requires at < |instances|
    ensures Reports(DeclaredByInstances(path, owners, instances), path, instances[at].source)
  {
    var source := instances[at].source;
    if source.Some? && source.value.Str? {
      InstanceIsDeclared(path, owners, instances, at, Declaration(SourceOf(path), source.value.chars));
    }
  }

  function FirstUncompilable(engine: Engine, declarations: seq<Declaration>): Option<Declaration> {
    if declarations == [] then None
    else if engine.compiles(declarations[0].text).None? then Some(declarations[0])
    else FirstUncompilable(engine, declarations[1..])
  }

  lemma FirstOfOne(engine: Engine, declaration: Declaration)
    ensures FirstUncompilable(engine, [declaration]) == if engine.compiles(declaration.text).None? then Some(declaration) else None
  {
    assert FirstUncompilable(engine, [declaration][1..]) == None;
  }

  lemma {:induction false} FirstOfBoth(engine: Engine, a: seq<Declaration>, b: seq<Declaration>)
    ensures FirstUncompilable(engine, a + b)
            == if FirstUncompilable(engine, a).Some? then FirstUncompilable(engine, a) else FirstUncompilable(engine, b)
  {
    if a == [] {
      assert a + b == b;
    } else {
      assert (a + b)[1..] == a[1..] + b;
      FirstOfBoth(engine, a[1..], b);
    }
  }

  /** A mapping is rejected exactly when a template of its own or of an entity derived beside it does not compile, for the first such. */
  lemma {:induction false} RejectsTheFirst(engine: Engine, declarations: seq<Declaration>)
    ensures FirstUncompilable(engine, declarations).None? <==> forall i :: 0 <= i < |declarations| ==> engine.compiles(declarations[i].text).Some?
    ensures forall at :: 0 <= at < |declarations| && engine.compiles(declarations[at].text).None?
                         && (forall i :: 0 <= i < at ==> engine.compiles(declarations[i].text).Some?)
                         ==> FirstUncompilable(engine, declarations) == Some(declarations[at])
  {
    if declarations != [] {
      RejectsTheFirst(engine, declarations[1..]);
      forall at | 0 < at < |declarations| && engine.compiles(declarations[at].text).None?
                  && (forall i :: 0 <= i < at ==> engine.compiles(declarations[i].text).Some?)
        ensures FirstUncompilable(engine, declarations) == Some(declarations[at])
      {
        assert engine.compiles(declarations[0].text).Some?;
        forall i | 0 <= i < at - 1 ensures engine.compiles(declarations[1..][i].text).Some? {
          assert declarations[1..][i] == declarations[i + 1];
        }
        assert declarations[1..][at - 1] == declarations[at];
      }
      assert forall i :: 0 < i < |declarations| ==> declarations[i] == declarations[1..][i - 1];
    }
  }

  // ---- The compiled mapping ----

  function Compiled(engine: Engine, text: string): CompiledTemplate {
    match engine.compiles(text)
    case Some(template) => template
    case None => Static(text)
  }

  function CompiledItem(engine: Engine, item: Json): CompiledTemplate {
    if item.Str? then Compiled(engine, item.chars) else Static(engine.prints(item))
  }

  function ItemsOf(source: Option<Json>): seq<Json> {
    match source
    case None => []
    case Some(Arr(items)) => items
    case Some(value) => [value]
  }

  function CompiledItems(engine: Engine, items: seq<Json>): (compiled: seq<CompiledTemplate>)
    ensures |compiled| == |items|
  {
    if items == [] then [] else CompiledItems(engine, items[..|items| - 1]) + [CompiledItem(engine, items[|items| - 1])]
  }

  // A source that declares no template is no source.
  function CompiledSource(engine: Engine, source: Option<Json>): Option<seq<CompiledTemplate>> {
    if ItemsOf(source) == [] then None else Some(CompiledItems(engine, ItemsOf(source)))
  }

  function CompiledAttribute(engine: Engine, attribute: Attribute): Attribute
    decreases attribute, 1
  {
    attribute.(
      compiledSource := CompiledSource(engine, attribute.source),
      mappings := CompiledEntries(engine, attribute.mappings),
      languageMap := CompiledEntries(engine, attribute.languageMap),
      properties := CompiledEntries(engine, attribute.properties),
      instances := if attribute.instances.Declared? then Declared(CompiledInstances(engine, attribute.instances.list)) else Undeclared,
      synthetic := if attribute.synthetic.Some? then Some(CompiledMapping(engine, attribute.synthetic.value)) else None)
  }

  function CompiledEntries(engine: Engine, entries: seq<Entry>): (compiled: seq<Entry>)
    ensures |compiled| == |entries|
    ensures forall i :: 0 <= i < |entries| ==> compiled[i] == Entry(entries[i].name, CompiledAttribute(engine, entries[i].attribute))
    decreases entries, 0
  {
    if entries == [] then []
    else
      var last := entries[|entries| - 1];
      CompiledEntries(engine, entries[..|entries| - 1]) + [Entry(last.name, CompiledAttribute(engine, last.attribute))]
  }

  function CompiledInstances(engine: Engine, instances: seq<Instance>): (compiled: seq<Instance>)
    ensures |compiled| == |instances|
    decreases instances, 0
  {
    if instances == [] then []
    else
      var last := instances[|instances| - 1];
      CompiledInstances(engine, instances[..|instances| - 1]) + [CompiledInstance(engine, last)]
  }

  function CompiledInstance(engine: Engine, instance: Instance): Instance
    decreases instance, 0
  {
    instance.(compiledSource := CompiledSource(engine, instance.source), properties := CompiledEntries(engine, instance.properties))
  }

  function CompiledTexts(engine: Engine, texts: seq<string>): (compiled: seq<CompiledTemplate>)
    ensures |compiled| == |texts|
  {
    if texts == [] then [] else CompiledTexts(engine, texts[..|texts| - 1]) + [Compiled(engine, texts[|texts| - 1])]
  }

  function CompiledScopeOf(engine: Engine, scope: Option<Scope>): Option<CompiledScope> {
    match scope
    case None => None
    case Some(Single(source)) => Some(CompiledSingle(Compiled(engine, source)))
    case Some(Multiple(sources)) => Some(CompiledMultiple(CompiledTexts(engine, sources)))
  }

  function CompiledOptional(engine: Engine, text: Option<string>): Option<CompiledTemplate> {
    if text.Some? then Some(Compiled(engine, text.value)) else None
  }

  // What is not declared keeps whatever it was compiled to.
  function CompiledMapping(engine: Engine, mapping: Mapping): Mapping
    decreases mapping, 2
  {
    var attributes := CompiledEntries(engine, mapping.attributes);
    var scope, expiresAt := CompiledScopeOf(engine, mapping.scope), CompiledOptional(engine, mapping.expiresAt);
    mapping.(
      compiledEntityName := Some(Compiled(engine, mapping.entityName)),
      compiledScope := if scope.Some? then scope else mapping.compiledScope,
      compiledExpiresAt := if expiresAt.Some? then expiresAt else mapping.compiledExpiresAt,
      attributes := attributes,
      sourceReads := Absorb(Absorb(Absorb(ReadsOf(engine, Compiled(engine, mapping.entityName)), ReadsOfScope(engine, scope)),
                                   ReadsOfOptional(engine, expiresAt)),
                            ReadsOfEntries(engine, attributes)))
  }

  /** Loading leaves nothing compiled that is not declared. */
  predicate AsLoaded(mapping: Mapping) {
    (mapping.scope.None? ==> mapping.compiledScope.None?) && (mapping.expiresAt.None? ==> mapping.compiledExpiresAt.None?)
  }

  /** The recorded reads are those of the compiled templates, the synthetic entities' left out. */
  lemma ReadsAreRecorded(engine: Engine, mapping: Mapping)
    requires AsLoaded(mapping)
    ensures CompiledMapping(engine, mapping).sourceReads == ReadsOfMapping(engine, CompiledMapping(engine, mapping))
  {
  }

  // ---- Compiling again changes nothing ----

  lemma {:induction false} AttributeCompilesOnce(engine: Engine, attribute: Attribute)
    ensures CompiledAttribute(engine, CompiledAttribute(engine, attribute)) == CompiledAttribute(engine, attribute)
    decreases attribute, 1
  {
    EntriesCompileOnce(engine, attribute.mappings);
    EntriesCompileOnce(engine, attribute.languageMap);
    EntriesCompileOnce(engine, attribute.properties);
    if attribute.instances.Declared? { InstancesCompileOnce(engine, attribute.instances.list); }
    if attribute.synthetic.Some? { MappingCompilesOnce(engine, attribute.synthetic.value); }
  }

  lemma {:induction false} EntriesCompileOnce(engine: Engine, entries: seq<Entry>)
    ensures CompiledEntries(engine, CompiledEntries(engine, entries)) == CompiledEntries(engine, entries)
    decreases entries, 0
  {
    var compiled := CompiledEntries(engine, entries);
    forall i | 0 <= i < |entries| ensures CompiledEntries(engine, compiled)[i] == compiled[i] {
      AttributeCompilesOnce(engine, entries[i].attribute);
    }
  }

  lemma {:induction false} InstancesCompileOnce(engine: Engine, instances: seq<Instance>)
    ensures CompiledInstances(engine, CompiledInstances(engine, instances)) == CompiledInstances(engine, instances)
    decreases instances, 0
  {
    if instances != [] {
      var n := |instances| - 1;
      InstancesCompileOnce(engine, instances[..n]);
      EntriesCompileOnce(engine, instances[n].properties);
      assert CompiledInstances(engine, instances)[..n] == CompiledInstances(engine, instances[..n]);
    }
  }

  /** A compiled mapping compiles to itself: its templates are kept as they were written. */
  lemma {:induction false} MappingCompilesOnce(engine: Engine, mapping: Mapping)
    ensures CompiledMapping(engine, CompiledMapping(engine, mapping)) == CompiledMapping(engine, mapping)
    decreases mapping, 2
  {
    EntriesCompileOnce(engine, mapping.attributes);
  }

  // ---- Compilation ----

  datatype Compilation<T> = Compilation(value: T, read: SourceReads)

  // What compiling `declarations` into `value` comes to: the first failure, or the value and its reads.
  function Outcome<T>(engine: Engine, declarations: seq<Declaration>, value: T, read: SourceReads): Result<Compilation<T>, Declaration> {
    match FirstUncompilable(engine, declarations)
    case Some(declaration) => Err(declaration)
    case None => Ok(Compilation(value, read))
  }

  method CompileTemplate(engine: Engine, declaration: Declaration, read: SourceReads) returns (r: Result<Compilation<CompiledTemplate>, Declaration>)
    ensures var compiled := Compiled(engine, declaration.text);
            r == Outcome(engine, [declaration], compiled, Absorb(read, ReadsOf(engine, compiled)))
  {
    var compiled := engine.compiles(declaration.text);
    FirstOfOne(engine, declaration);
    if compiled.None? { return Err(declaration); }
    return Ok(Compilation(compiled.value, Absorb(read, ReadsOf(engine, compiled.value))));
  }

  method CompileSource(engine: Engine, source: Option<Json>, path: AttributePath, read: SourceReads)
    returns (r: Result<Compilation<Option<seq<CompiledTemplate>>>, Declaration>)
    ensures var compiled := CompiledSource(engine, source);
            r == Outcome(engine, DeclaredBySource(path, source), compiled, Absorb(read, ReadsOfSource(engine, compiled)))
  {
    var items := ItemsOf(source);
    var known := read;
    var compiled: seq<CompiledTemplate> := [];
    SourceIsItsItems(path, source);
    AbsorbInAnyGrouping(read, NOTHING, NOTHING);
    for i := 0 to |items|
      invariant FirstUncompilable(engine, DeclaredByItems(path, items[..i])).None?
      invariant compiled == CompiledItems(engine, items[..i]) && known == Absorb(read, ReadsOfAll(engine, compiled))
    {
      OneItemMore(engine, path, items, i, read);
      if items[i].Str? {
        var one := CompileTemplate(engine, Declaration(SourceOf(path), items[i].chars), known);
        if one.Err? { return Err(one.error); }
        compiled, known := compiled + [one.value.value], one.value.read;
      } else {
        compiled := compiled + [Static(engine.prints(items[i]))];
      }
    }
    assert items[..|items|] == items;
    return Ok(Compilation(if compiled == [] then None else Some(compiled), known));
  }

  // What compiling one item more of a source adds to what was compiled, read, and may have failed.
  lemma OneItemMore(engine: Engine, path: AttributePath, items: seq<Json>, i: nat, read: SourceReads)
    requires i < |items| && FirstUncompilable(engine, DeclaredByItems(path, items[..i])).None?
    ensures var compiled, item := CompiledItems(engine, items[..i]), CompiledItem(engine, items[i]);
            && CompiledItems(engine, items[..i + 1]) == compiled + [item]
            && Absorb(read, ReadsOfAll(engine, compiled + [item])) == Absorb(Absorb(read, ReadsOfAll(engine, compiled)), ReadsOf(engine, item))
            && (item.Static? ==> Absorb(read, ReadsOfAll(engine, compiled + [item])) == Absorb(read, ReadsOfAll(engine, compiled)))
    ensures var one := if items[i].Str? then FirstUncompilable(engine, [Declaration(SourceOf(path), items[i].chars)]) else None;
            && FirstUncompilable(engine, DeclaredByItems(path, items[..i + 1])) == one
            && (one.Some? ==> FirstUncompilable(engine, DeclaredByItems(path, items)) == one)
  {
    var compiled, item := CompiledItems(engine, items[..i]), CompiledItem(engine, items[i]);
    assert items[..i + 1][..i] == items[..i] && (compiled + [item])[..i] == compiled;
    AbsorbInAnyGrouping(read, ReadsOfAll(engine, compiled), ReadsOf(engine, item));
    AbsorbInAnyGrouping(Absorb(read, ReadsOfAll(engine, compiled)), NOTHING, NOTHING);
    if items[i].Str? {
      FirstOfBoth(engine, DeclaredByItems(path, items[..i]), [Declaration(SourceOf(path), items[i].chars)]);
    }
    ItemsArePrefix(path, items, i + 1);
    FirstOfPrefix(engine, DeclaredByItems(path, items[..i + 1]), DeclaredByItems(path, items));
  }

  lemma SourceIsItsItems(path: AttributePath, source: Option<Json>)
    ensures DeclaredBySource(path, source) == DeclaredByItems(path, ItemsOf(source))
  {
    match source
    case None =>
    case Some(Arr(_)) =>
    case Some(value) => assert [value][..0] == [];
  }

  lemma {:induction false} ItemsArePrefix(path: AttributePath, items: seq<Json>, n: nat)
    requires n <= |items|
    ensures DeclaredByItems(path, items[..n]) <= DeclaredByItems(path, items)
  {
    if n == |items| {
      assert items[..n] == items;
    } else {
      assert items[..|items| - 1][..n] == items[..n];
      ItemsArePrefix(path, items[..|items| - 1], n);
    }
  }

  // A failure among the first declarations is the first of them all.
  lemma FirstOfPrefix(engine: Engine, prefix: seq<Declaration>, whole: seq<Declaration>)
    requires prefix <= whole
    ensures FirstUncompilable(engine, prefix).Some? ==> FirstUncompilable(engine, whole) == FirstUncompilable(engine, prefix)
  {
    FirstOfBoth(engine, prefix, whole[|prefix|..]);
    assert prefix + whole[|prefix|..] == whole;
  }

  lemma SetInPlace<T>(done: seq<T>, items: seq<T>, item: T)
    requires |done| < |items|
    ensures (done + items[|done|..])[|done| := item] == (done + [item]) + items[|done| + 1..]
  {
  }

  // Compiles a list of declarations in place, each reported under its own key or under `reported`.
  method CompileEntries(engine: Engine, owners: seq<Frame>, reported: Option<Name>, entries: seq<Entry>, read: SourceReads)
    returns (r: Result<Compilation<seq<Entry>>, Declaration>)
    ensures var compiled := CompiledEntries(engine, entries);
            r == Outcome(engine, DeclaredByEntries(owners, reported, entries), compiled, Absorb(read, ReadsOfEntries(engine, compiled)))
    decreases entries, 0
  {
    var compiled, known := entries, read;
    NoEntryYet(engine, owners, reported, entries, read);
    for i := 0 to |entries|
      invariant EntriesCompiled(engine, owners, reported, entries, i, read, compiled, known)
    {
      OneEntryMore(engine, owners, reported, entries, i, read, compiled, known);
      var name := if reported.Some? then reported.value else entries[i].name;
      var one := CompileAttribute(engine, owners, name, entries[i].attribute, known);
      if one.Err? { return Err(one.error); }
      compiled, known := compiled[i := Entry(entries[i].name, one.value.value)], one.value.read;
    }
    EveryEntry(engine, owners, reported, entries, read, compiled, known);
    return Ok(Compilation(compiled, known));
  }

  // The first `n` entries compile, and have been compiled in place.
  ghost predicate EntriesCompiled(engine: Engine, owners: seq<Frame>, reported: Option<Name>, entries: seq<Entry>, n: nat,
                                  read: SourceReads, compiled: seq<Entry>, known: SourceReads)
    requires n <= |entries|
  {
    && FirstUncompilable(engine, DeclaredByEntries(owners, reported, entries[..n])).None?
    && compiled == CompiledEntries(engine, entries[..n]) + entries[n..]
    && known == Absorb(read, ReadsOfEntries(engine, CompiledEntries(engine, entries[..n])))
  }

  lemma NoEntryYet(engine: Engine, owners: seq<Frame>, reported: Option<Name>, entries: seq<Entry>, read: SourceReads)
    ensures EntriesCompiled(engine, owners, reported, entries, 0, read, entries, read)
  {
    AbsorbInAnyGrouping(read, NOTHING, NOTHING);
  }

  lemma EveryEntry(engine: Engine, owners: seq<Frame>, reported: Option<Name>, entries: seq<Entry>,
                   read: SourceReads, compiled: seq<Entry>, known: SourceReads)
    requires EntriesCompiled(engine, owners, reported, entries, |entries|, read, compiled, known)
    ensures FirstUncompilable(engine, DeclaredByEntries(owners, reported, entries)).None?
    ensures compiled == CompiledEntries(engine, entries) && known == Absorb(read, ReadsOfEntries(engine, compiled))
  {
    assert entries[..|entries|] == entries && entries[|entries|..] == [];
  }

  lemma OneEntryMore(engine: Engine, owners: seq<Frame>, reported: Option<Name>, entries: seq<Entry>, i: nat,
                     read: SourceReads, compiled: seq<Entry>, known: SourceReads)
    requires i < |entries| && EntriesCompiled(engine, owners, reported, entries, i, read, compiled, known)
    ensures var name := if reported.Some? then reported.value else entries[i].name;
            var entry := Entry(entries[i].name, CompiledAttribute(engine, entries[i].attribute));
            var one := FirstUncompilable(engine, DeclaredByAttribute(owners, name, entries[i].attribute));
            && (one.Some? ==> FirstUncompilable(engine, DeclaredByEntries(owners, reported, entries)) == one)
            && (one.None? ==> EntriesCompiled(engine, owners, reported, entries, i + 1, read, compiled[i := entry],
                                              Absorb(known, ReadsOfAttribute(engine, entry.attribute))))
  {
    var done, entry := CompiledEntries(engine, entries[..i]), Entry(entries[i].name, CompiledAttribute(engine, entries[i].attribute));
    var name := if reported.Some? then reported.value else entries[i].name;
    assert entries[..i + 1][..i] == entries[..i] && (done + [entry])[..i] == done;
    AbsorbInAnyGrouping(read, ReadsOfEntries(engine, done), ReadsOfAttribute(engine, entry.attribute));
    FirstOfBoth(engine, DeclaredByEntries(owners, reported, entries[..i]), DeclaredByAttribute(owners, name, entries[i].attribute));
    EntriesArePrefix(owners, reported, entries, i + 1);
    FirstOfPrefix(engine, DeclaredByEntries(owners, reported, entries[..i + 1]), DeclaredByEntries(owners, reported, entries));
    SetInPlace(done, entries, entry);
  }

  lemma {:induction false} EntriesArePrefix(owners: seq<Frame>, reported: Option<Name>, entries: seq<Entry>, n: nat)
    requires n <= |entries|
    ensures DeclaredByEntries(owners, reported, entries[..n]) <= DeclaredByEntries(owners, reported, entries)
  {
    if n == |entries| {
      assert entries[..n] == entries;
    } else {
      assert entries[..|entries| - 1][..n] == entries[..n];
      EntriesArePrefix(owners, reported, entries[..|entries| - 1], n);
    }
  }

  // Compiles one instance's source, then its own properties.
  method CompileInstance(engine: Engine, path: AttributePath, owners: seq<Frame>, instance: Instance, read: SourceReads)
    returns (r: Result<Compilation<Instance>, Declaration>)
    ensures var compiled := CompiledInstance(engine, instance);
            r == Outcome(engine, DeclaredByInstance(path, owners, instance), compiled, Absorb(read, ReadsOfInstance(engine, compiled)))
    decreases instance, 0
  {
    FirstOfBoth(engine, DeclaredBySource(path, instance.source), DeclaredByEntries(owners, None, instance.properties));
    var compiled := CompiledInstance(engine, instance);
    AbsorbInAnyGrouping(read, ReadsOfSource(engine, compiled.compiledSource), ReadsOfEntries(engine, compiled.properties));
    var source := CompileSource(engine, instance.source, path, read);
    if source.Err? { return Err(source.error); }
    var properties := CompileEntries(engine, owners, None, instance.properties, source.value.read);
    if properties.Err? { return Err(properties.error); }
    return Ok(Compilation(instance.(compiledSource := source.value.value, properties := properties.value.value), properties.value.read));
  }

  method CompileInstances(engine: Engine, path: AttributePath, owners: seq<Frame>, instances: seq<Instance>, read: SourceReads)
    returns (r: Result<Compilation<seq<Instance>>, Declaration>)
    ensures var compiled := CompiledInstances(engine, instances);
            r == Outcome(engine, DeclaredByInstances(path, owners, instances), compiled, Absorb(read, ReadsOfInstances(engine, compiled)))
    decreases instances, 0
  {
    var compiled, known := instances, read;
    NoInstanceYet(engine, path, owners, instances, read);
    for i := 0 to |instances|
      invariant InstancesCompiled(engine, path, owners, instances, i, read, compiled, known)
    {
      var one := CompileInstance(engine, path, owners, instances[i], known);
      OneInstanceMore(engine, path, owners, instances, i, read, compiled, known);
      if one.Err? { return Err(one.error); }
      compiled, known := compiled[i := one.value.value], one.value.read;
    }
    EveryInstance(engine, path, owners, instances, read, compiled, known);
    return Ok(Compilation(compiled, known));
  }

  ghost predicate InstancesCompiled(engine: Engine, path: AttributePath, owners: seq<Frame>, instances: seq<Instance>, n: nat,
                                    read: SourceReads, compiled: seq<Instance>, known: SourceReads)
    requires n <= |instances|
  {
    && FirstUncompilable(engine, DeclaredByInstances(path, owners, instances[..n])).None?
    && compiled == CompiledInstances(engine, instances[..n]) + instances[n..]
    && known == Absorb(read, ReadsOfInstances(engine, CompiledInstances(engine, instances[..n])))
  }

  lemma NoInstanceYet(engine: Engine, path: AttributePath, owners: seq<Frame>, instances: seq<Instance>, read: SourceReads)
    ensures InstancesCompiled(engine, path, owners, instances, 0, read, instances, read)
  {
    AbsorbInAnyGrouping(read, NOTHING, NOTHING);
  }

  lemma EveryInstance(engine: Engine, path: AttributePath, owners: seq<Frame>, instances: seq<Instance>,
                      read: SourceReads, compiled: seq<Instance>, known: SourceReads)
    requires InstancesCompiled(engine, path, owners, instances, |instances|, read, compiled, known)
    ensures FirstUncompilable(engine, DeclaredByInstances(path, owners, instances)).None?
    ensures compiled == CompiledInstances(engine, instances) && known == Absorb(read, ReadsOfInstances(engine, compiled))
  {
    assert instances[..|instances|] == instances && instances[|instances|..] == [];
  }

  lemma OneInstanceMore(engine: Engine, path: AttributePath, owners: seq<Frame>, instances: seq<Instance>, i: nat,
                        read: SourceReads, compiled: seq<Instance>, known: SourceReads)
    requires i < |instances| && InstancesCompiled(engine, path, owners, instances, i, read, compiled, known)
    ensures var instance := CompiledInstance(engine, instances[i]);
            var one := FirstUncompilable(engine, DeclaredByInstance(path, owners, instances[i]));
            && (one.Some? ==> FirstUncompilable(engine, DeclaredByInstances(path, owners, instances)) == one)
            && (one.None? ==> InstancesCompiled(engine, path, owners, instances, i + 1, read, compiled[i := instance],
                                                Absorb(known, ReadsOfInstance(engine, instance))))
  {
    var done, instance := CompiledInstances(engine, instances[..i]), CompiledInstance(engine, instances[i]);
    assert instances[..i + 1][..i] == instances[..i] && (done + [instance])[..i] == done;
    AbsorbInAnyGrouping(read, ReadsOfInstances(engine, done), ReadsOfInstance(engine, instance));
    FirstOfBoth(engine, DeclaredByInstances(path, owners, instances[..i]), DeclaredByInstance(path, owners, instances[i]));
    InstancesArePrefix(path, owners, instances, i + 1);
    FirstOfPrefix(engine, DeclaredByInstances(path, owners, instances[..i + 1]), DeclaredByInstances(path, owners, instances));
    SetInPlace(done, instances, instance);
  }

  lemma {:induction false} InstancesArePrefix(path: AttributePath, owners: seq<Frame>, instances: seq<Instance>, n: nat)
    requires n <= |instances|
    ensures DeclaredByInstances(path, owners, instances[..n]) <= DeclaredByInstances(path, owners, instances)
  {
    if n == |instances| {
      assert instances[..n] == instances;
    } else {
      assert instances[..|instances| - 1][..n] == instances[..n];
      InstancesArePrefix(path, owners, instances[..|instances| - 1], n);
    }
  }

  // What an attribute's parts read, absorbed one after another, is what the attribute reads.
  lemma AbsorbedInOrder(read: SourceReads, source: SourceReads, mappings: SourceReads, languages: SourceReads,
                        properties: SourceReads, instances: SourceReads)
    ensures Absorb(Absorb(Absorb(Absorb(Absorb(read, source), mappings), languages), properties), instances)
            == Absorb(read, Absorb(Absorb(Absorb(source, Absorb(mappings, languages)), properties), instances))
  {
    AbsorbInAnyGrouping(Absorb(read, source), mappings, languages);
    AbsorbInAnyGrouping(read, source, Absorb(mappings, languages));
    AbsorbInAnyGrouping(read, Absorb(source, Absorb(mappings, languages)), properties);
    AbsorbInAnyGrouping(read, Absorb(Absorb(source, Absorb(mappings, languages)), properties), instances);
  }

  // The first failure of an attribute is the first failure of the first of its parts that has one.
  lemma FirstOfParts(engine: Engine, owners: seq<Frame>, name: Name, attribute: Attribute)
    ensures var path, sub := PathOf(owners, name), owners + [Frame(name, SubAttribute)];
            var source := FirstUncompilable(engine, DeclaredBySource(path, attribute.source));
            var mappings := FirstUncompilable(engine, DeclaredByEntries(owners + [Frame(name, Member)], None, attribute.mappings));
            var languages := FirstUncompilable(engine, DeclaredByEntries(owners, Some(name), attribute.languageMap));
            var properties := FirstUncompilable(engine, DeclaredByEntries(sub, None, attribute.properties));
            var instances := FirstUncompilable(engine, if attribute.instances.Declared? then DeclaredByInstances(path, sub, attribute.instances.list) else []);
            var synthetic := FirstUncompilable(engine, if attribute.synthetic.Some? then DeclaredByMapping(attribute.synthetic.value) else []);
            FirstUncompilable(engine, DeclaredByAttribute(owners, name, attribute))
            == if source.Some? then source else if mappings.Some? then mappings else if languages.Some? then languages
               else if properties.Some? then properties else if instances.Some? then instances else synthetic
  {
    var path, sub := PathOf(owners, name), owners + [Frame(name, SubAttribute)];
    var source := DeclaredBySource(path, attribute.source);
    var mappings := DeclaredByEntries(owners + [Frame(name, Member)], None, attribute.mappings);
    var languages := DeclaredByEntries(owners, Some(name), attribute.languageMap);
    var properties := DeclaredByEntries(sub, None, attribute.properties);
    var instances := if attribute.instances.Declared? then DeclaredByInstances(path, sub, attribute.instances.list) else [];
    FirstOfBoth(engine, source, mappings);
    FirstOfBoth(engine, source + mappings, languages);
    FirstOfBoth(engine, source + mappings + languages, properties);
    FirstOfBoth(engine, source + mappings + languages + properties, instances);
    FirstOfBoth(engine, source + mappings + languages + properties + instances,
                if attribute.synthetic.Some? then DeclaredByMapping(attribute.synthetic.value) else []);
  }

  /** Compiles an attribute's source and everything beneath it; a synthetic entity's reads stay its own. */
  method CompileAttribute(engine: Engine, owners: seq<Frame>, name: Name, attribute: Attribute, read: SourceReads)
    returns (r: Result<Compilation<Attribute>, Declaration>)
    ensures var compiled := CompiledAttribute(engine, attribute);
            r == Outcome(engine, DeclaredByAttribute(owners, name, attribute), compiled, Absorb(read, ReadsOfAttribute(engine, compiled)))
    decreases attribute, 1
  {
    FirstOfParts(engine, owners, name, attribute);
    var path, members, sub := PathOf(owners, name), owners + [Frame(name, Member)], owners + [Frame(name, SubAttribute)];
    var source := CompileSource(engine, attribute.source, path, read);
    if source.Err? { return Err(source.error); }
    var mappings := CompileEntries(engine, members, None, attribute.mappings, source.value.read);
    if mappings.Err? { return Err(mappings.error); }
    var languages := CompileEntries(engine, owners, Some(name), attribute.languageMap, mappings.value.read);
    if languages.Err? { return Err(languages.error); }
    var properties := CompileEntries(engine, sub, None, attribute.properties, languages.value.read);
    if properties.Err? { return Err(properties.error); }
    var compiled := attribute.(compiledSource := source.value.value, mappings := mappings.value.value,
                               languageMap := languages.value.value, properties := properties.value.value);
    var known := properties.value.read;
    AbsorbInAnyGrouping(known, NOTHING, NOTHING);
    if attribute.instances.Declared? {
      var instances := CompileInstances(engine, path, sub, attribute.instances.list, known);
      if instances.Err? { return Err(instances.error); }
      compiled, known := compiled.(instances := Declared(instances.value.value)), instances.value.read;
    }
    if attribute.synthetic.Some? {
      var synthetic := CompileMapping(engine, attribute.synthetic.value);
      if synthetic.Err? { return Err(synthetic.error); }
      compiled := compiled.(synthetic := Some(synthetic.value));
    }
    AbsorbedInOrder(read, ReadsOfSource(engine, compiled.compiledSource), ReadsOfEntries(engine, compiled.mappings),
                    ReadsOfEntries(engine, compiled.languageMap), ReadsOfEntries(engine, compiled.properties),
                    if compiled.instances.Declared? then ReadsOfInstances(engine, compiled.instances.list) else NOTHING);
    return Ok(Compilation(compiled, known));
  }

  method CompileScope(engine: Engine, scope: Option<Scope>, read: SourceReads) returns (r: Result<Compilation<Option<CompiledScope>>, Declaration>)
    ensures var compiled := CompiledScopeOf(engine, scope);
            r == Outcome(engine, DeclaredByScopes(SourcesOfScope(scope)), compiled, Absorb(read, ReadsOfScope(engine, compiled)))
  {
    AbsorbInAnyGrouping(read, NOTHING, NOTHING);
    match scope
    case None => return Ok(Compilation(None, read));
    case Some(Single(source)) =>
      assert DeclaredByScopes([source]) == [Declaration(ScopeOf, source)];
      var one := CompileTemplate(engine, Declaration(ScopeOf, source), read);
      if one.Err? { return Err(one.error); }
      return Ok(Compilation(Some(CompiledSingle(one.value.value)), one.value.read));
    case Some(Multiple(sources)) =>
      var all := CompileScopes(engine, sources, read);
      if all.Err? { return Err(all.error); }
      return Ok(Compilation(Some(CompiledMultiple(all.value.value)), all.value.read));
  }

  method CompileScopes(engine: Engine, sources: seq<string>, read: SourceReads) returns (r: Result<Compilation<seq<CompiledTemplate>>, Declaration>)
    ensures var compiled := CompiledTexts(engine, sources);
            r == Outcome(engine, DeclaredByScopes(sources), compiled, Absorb(read, ReadsOfAll(engine, compiled)))
  {
    AbsorbInAnyGrouping(read, NOTHING, NOTHING);
    var compiled: seq<CompiledTemplate> := [];
    var known := read;
    for i := 0 to |sources|
      invariant FirstUncompilable(engine, DeclaredByScopes(sources[..i])).None?
      invariant compiled == CompiledTexts(engine, sources[..i]) && known == Absorb(read, ReadsOfAll(engine, compiled))
    {
      OneScopeMore(engine, sources, i, read);
      var one := CompileTemplate(engine, Declaration(ScopeOf, sources[i]), known);
      if one.Err? { return Err(one.error); }
      compiled, known := compiled + [one.value.value], one.value.read;
    }
    assert sources[..|sources|] == sources;
    return Ok(Compilation(compiled, known));
  }

  lemma OneScopeMore(engine: Engine, sources: seq<string>, i: nat, read: SourceReads)
    requires i < |sources| && FirstUncompilable(engine, DeclaredByScopes(sources[..i])).None?
    ensures var compiled, template := CompiledTexts(engine, sources[..i]), Compiled(engine, sources[i]);
            && CompiledTexts(engine, sources[..i + 1]) == compiled + [template]
            && Absorb(read, ReadsOfAll(engine, compiled + [template])) == Absorb(Absorb(read, ReadsOfAll(engine, compiled)), ReadsOf(engine, template))
    ensures var one := FirstUncompilable(engine, [Declaration(ScopeOf, sources[i])]);
            && FirstUncompilable(engine, DeclaredByScopes(sources[..i + 1])) == one
            && (one.Some? ==> FirstUncompilable(engine, DeclaredByScopes(sources)) == one)
  {
    var compiled, template := CompiledTexts(engine, sources[..i]), Compiled(engine, sources[i]);
    assert sources[..i + 1][..i] == sources[..i] && (compiled + [template])[..i] == compiled;
    AbsorbInAnyGrouping(read, ReadsOfAll(engine, compiled), ReadsOf(engine, template));
    assert DeclaredByScopes(sources[..i + 1]) == DeclaredByScopes(sources[..i]) + [Declaration(ScopeOf, sources[i])];
    FirstOfBoth(engine, DeclaredByScopes(sources[..i]), [Declaration(ScopeOf, sources[i])]);
    FirstOfPrefix(engine, DeclaredByScopes(sources[..i + 1]), DeclaredByScopes(sources));
  }

  /**
  Compiles every template of a mapping, an entity derived beside it included, or names the first that
  does not compile.
  */
  method CompileMapping(engine: Engine, mapping: Mapping) returns (r: Result<Mapping, Declaration>)
    ensures r == match FirstUncompilable(engine, DeclaredByMapping(mapping))
                 case Some(declaration) => Err(declaration)
                 case None => Ok(CompiledMapping(engine, mapping))
    decreases mapping, 2
  {
    var name := [Declaration(EntityName, mapping.entityName)];
    var scopes := DeclaredByScopes(SourcesOfScope(mapping.scope));
    var expiry := if mapping.expiresAt.Some? then [Declaration(ExpiresAt, mapping.expiresAt.value)] else [];
    FirstOfBoth(engine, name, scopes);
    FirstOfBoth(engine, name + scopes, expiry);
    FirstOfBoth(engine, name + scopes + expiry, DeclaredByEntries([], None, mapping.attributes));

    var entityName := CompileTemplate(engine, Declaration(EntityName, mapping.entityName), NOTHING);
    if entityName.Err? { return Err(entityName.error); }
    var compiled := mapping.(compiledEntityName := Some(entityName.value.value));
    var scope := CompileScope(engine, mapping.scope, entityName.value.read);
    if scope.Err? { return Err(scope.error); }
    if scope.value.value.Some? { compiled := compiled.(compiledScope := scope.value.value); }
    var known := scope.value.read;
    AbsorbInAnyGrouping(NOTHING, entityName.value.read, NOTHING);
    AbsorbInAnyGrouping(known, NOTHING, NOTHING);
    if mapping.expiresAt.Some? {
      var expiresAt := CompileTemplate(engine, Declaration(ExpiresAt, mapping.expiresAt.value), known);
      if expiresAt.Err? { return Err(expiresAt.error); }
      compiled, known := compiled.(compiledExpiresAt := Some(expiresAt.value.value)), expiresAt.value.read;
    }
    var attributes := CompileEntries(engine, [], None, mapping.attributes, known);
    if attributes.Err? { return Err(attributes.error); }
    return Ok(compiled.(attributes := attributes.value.value, sourceReads := attributes.value.read));
  }
}
