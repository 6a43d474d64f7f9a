/** What it is for a mapping to be compiled, said of its structure and not of how it is compiled. */
module CompiledForms {
  import opened Wrappers
  import opened Templates
  import opened Mappings
  import opened Compiler

  // The template a text compiles to, or the text of a literal that is none.
  ghost predicate ItemForm(engine: Engine, item: Json, compiled: CompiledTemplate) {
    if item.Str? then engine.compiles(item.chars) == Some(compiled) else compiled == Static(engine.prints(item))
  }

  // One template per item of a list, or the one of any other source; none for a source without any.
  ghost predicate SourceForm(engine: Engine, source: Option<Json>, compiled: Option<seq<CompiledTemplate>>) {
    if source.None? || source.value == Arr([]) then compiled.None?
    else if source.value.Arr? then
      && compiled.Some? && |compiled.value| == |source.value.elements|
      && forall i :: 0 <= i < |compiled.value| ==> ItemForm(engine, source.value.elements[i], compiled.value[i])
    else
      compiled.Some? && |compiled.value| == 1 && ItemForm(engine, source.value, compiled.value[0])
  }

  ghost predicate AttributeForm(engine: Engine, attribute: Attribute, compiled: Attribute)
    decreases attribute, 1
  {
    && SourceForm(engine, attribute.source, compiled.compiledSource)
    && EntriesForm(engine, attribute.mappings, compiled.mappings)
    && EntriesForm(engine, attribute.languageMap, compiled.languageMap)
    && EntriesForm(engine, attribute.properties, compiled.properties)
    && compiled.instances.Declared? == attribute.instances.Declared?
    && (attribute.instances.Declared? ==> InstancesForm(engine, attribute.instances.list, compiled.instances.list))
    && compiled.synthetic.Some? == attribute.synthetic.Some?
    && (attribute.synthetic.Some? ==> MappingForm(engine, attribute.synthetic.value, compiled.synthetic.value))
    && compiled.kind == attribute.kind && compiled.source == attribute.source && compiled.target == attribute.target
  }

  ghost predicate EntriesForm(engine: Engine, entries: seq<Entry>, compiled: seq<Entry>)
    decreases entries, 0
  {
    && |compiled| == |entries|
    && forall i :: 0 <= i < |entries| ==> compiled[i].name == entries[i].name && AttributeForm(engine, entries[i].attribute, compiled[i].attribute)
  }

  ghost predicate InstanceForm(engine: Engine, instance: Instance, compiled: Instance)
    decreases instance, 0
  {
    && SourceForm(engine, instance.source, compiled.compiledSource) && compiled.source == instance.source
    && EntriesForm(engine, instance.properties, compiled.properties)
  }

  ghost predicate InstancesForm(engine: Engine, instances: seq<Instance>, compiled: seq<Instance>)
    decreases instances, 0
  {
    |compiled| == |instances| && forall i :: 0 <= i < |instances| ==> InstanceForm(engine, instances[i], compiled[i])
  }

  ghost predicate ScopeForm(engine: Engine, scope: Option<Scope>, compiled: Option<CompiledScope>) {
    match scope
    case None => compiled.None?
    case Some(Single(text)) => compiled.Some? && compiled.value.CompiledSingle? && engine.compiles(text) == Some(compiled.value.template)
    case Some(Multiple(texts)) =>
      && compiled.Some? && compiled.value.CompiledMultiple? && |compiled.value.templates| == |texts|
      && forall i :: 0 <= i < |texts| ==> engine.compiles(texts[i]) == Some(compiled.value.templates[i])
  }

  ghost predicate OptionalForm(engine: Engine, text: Option<string>, compiled: Option<CompiledTemplate>) {
    if text.None? then compiled.None? else compiled.Some? && engine.compiles(text.value) == compiled
  }

  /** Every template of a mapping, at any depth and of an entity derived beside it too, stands compiled in its place. */
  ghost predicate MappingForm(engine: Engine, mapping: Mapping, compiled: Mapping)
    decreases mapping, 2
  {
    && compiled.compiledEntityName.Some? && engine.compiles(mapping.entityName) == compiled.compiledEntityName
    && (mapping.scope.Some? ==> ScopeForm(engine, mapping.scope, compiled.compiledScope))
    && (mapping.expiresAt.Some? ==> OptionalForm(engine, mapping.expiresAt, compiled.compiledExpiresAt))
    && (mapping.scope.None? ==> compiled.compiledScope == mapping.compiledScope)
    && (mapping.expiresAt.None? ==> compiled.compiledExpiresAt == mapping.compiledExpiresAt)
    && EntriesForm(engine, mapping.attributes, compiled.attributes)
    && compiled.entityType == mapping.entityType && compiled.entityName == mapping.entityName
    && compiled.scope == mapping.scope && compiled.expiresAt == mapping.expiresAt
    && compiled.hasNestedRelationships == mapping.hasNestedRelationships
  }

  // No declaration fails to compile.
  predicate AllCompile(engine: Engine, declarations: seq<Declaration>) {
    FirstUncompilable(engine, declarations).None?
  }

  lemma BothCompile(engine: Engine, a: seq<Declaration>, b: seq<Declaration>)
    ensures AllCompile(engine, a + b) <==> AllCompile(engine, a) && AllCompile(engine, b)
  {
    FirstOfBoth(engine, a, b);
  }

  lemma OneCompiles(engine: Engine, declaration: Declaration)
    ensures AllCompile(engine, [declaration]) <==> engine.compiles(declaration.text).Some?
  {
    FirstOfOne(engine, declaration);
  }

  // ---- Sources ----

  lemma {:induction false} ItemsCompile(engine: Engine, path: AttributePath, items: seq<Json>)
    ensures AllCompile(engine, DeclaredByItems(path, items))
            <==> forall i :: 0 <= i < |items| ==> ItemForm(engine, items[i], CompiledItems(engine, items)[i])
  {
    if items != [] {
      var n := |items| - 1;
      ItemsCompile(engine, path, items[..n]);
      if items[n].Str? {
        var last := Declaration(SourceOf(path), items[n].chars);
        BothCompile(engine, DeclaredByItems(path, items[..n]), [last]);
        OneCompiles(engine, last);
      }
      assert forall i :: 0 <= i < n ==> items[..n][i] == items[i] && CompiledItems(engine, items)[i] == CompiledItems(engine, items[..n])[i];
    }
  }

  lemma SourceCompiles(engine: Engine, path: AttributePath, source: Option<Json>)
    ensures AllCompile(engine, DeclaredBySource(path, source)) <==> SourceForm(engine, source, CompiledSource(engine, source))
  {
    SourceIsItsItems(path, source);
    ItemsCompile(engine, path, ItemsOf(source));
  }

  // ---- Declarations ----

  // An attribute's declarations compile exactly when all of its parts' do.
  lemma PartsCompile(engine: Engine, owners: seq<Frame>, name: Name, attribute: Attribute)
    ensures var path, sub := PathOf(owners, name), owners + [Frame(name, SubAttribute)];
            AllCompile(engine, DeclaredByAttribute(owners, name, attribute))
            <==> && AllCompile(engine, DeclaredBySource(path, attribute.source))
                 && AllCompile(engine, DeclaredByEntries(owners + [Frame(name, Member)], None, attribute.mappings))
                 && AllCompile(engine, DeclaredByEntries(owners, Some(name), attribute.languageMap))
                 && AllCompile(engine, DeclaredByEntries(sub, None, attribute.properties))
                 && (attribute.instances.Declared? ==> AllCompile(engine, DeclaredByInstances(path, sub, attribute.instances.list)))
                 && (attribute.synthetic.Some? ==> AllCompile(engine, DeclaredByMapping(attribute.synthetic.value)))
  {
    FirstOfParts(engine, owners, name, attribute);
  }

  lemma {:induction false} AttributeCompiles(engine: Engine, owners: seq<Frame>, name: Name, attribute: Attribute)
    ensures AllCompile(engine, DeclaredByAttribute(owners, name, attribute)) <==> AttributeForm(engine, attribute, CompiledAttribute(engine, attribute))
    decreases attribute, 1
  {
    var path, sub := PathOf(owners, name), owners + [Frame(name, SubAttribute)];
    PartsCompile(engine, owners, name, attribute);
    SourceCompiles(engine, path, attribute.source);
    EntriesCompile(engine, owners + [Frame(name, Member)], None, attribute.mappings);
    EntriesCompile(engine, owners, Some(name), attribute.languageMap);
    EntriesCompile(engine, sub, None, attribute.properties);
    if attribute.instances.Declared? { InstancesCompile(engine, path, sub, attribute.instances.list); }
    if attribute.synthetic.Some? { MappingCompiles(engine, attribute.synthetic.value); }
  }

  lemma InitAndLast<T>(xs: seq<T>)
    requires xs != []
    ensures xs == xs[..|xs| - 1] + [xs[|xs| - 1]]
  {
  }

  lemma OneFormMore(engine: Engine, entries: seq<Entry>, compiled: seq<Entry>, entry: Entry, last: Entry)
    requires |compiled| == |entries| && last.name == entry.name
    ensures EntriesForm(engine, entries + [entry], compiled + [last])
            <==> EntriesForm(engine, entries, compiled) && AttributeForm(engine, entry.attribute, last.attribute)
  {
    var all, done := entries + [entry], compiled + [last];
    assert forall i :: 0 <= i < |entries| ==> all[i] == entries[i] && done[i] == compiled[i];
    assert all[|entries|] == entry && done[|entries|] == last;
  }

  lemma OneInstanceFormMore(engine: Engine, instances: seq<Instance>, compiled: seq<Instance>, instance: Instance, last: Instance)
    requires |compiled| == |instances|
    ensures InstancesForm(engine, instances + [instance], compiled + [last])
            <==> InstancesForm(engine, instances, compiled) && InstanceForm(engine, instance, last)
  {
    var all, done := instances + [instance], compiled + [last];
    assert forall i :: 0 <= i < |instances| ==> all[i] == instances[i] && done[i] == compiled[i];
    assert all[|instances|] == instance && done[|instances|] == last;
  }

  lemma EntriesOfMore(engine: Engine, owners: seq<Frame>, reported: Option<Name>, entries: seq<Entry>, entry: Entry)
    ensures var name := if reported.Some? then reported.value else entry.name;
            AllCompile(engine, DeclaredByEntries(owners, reported, entries + [entry]))
            <==> AllCompile(engine, DeclaredByEntries(owners, reported, entries)) && AllCompile(engine, DeclaredByAttribute(owners, name, entry.attribute))
    ensures CompiledEntries(engine, entries + [entry]) == CompiledEntries(engine, entries) + [Entry(entry.name, CompiledAttribute(engine, entry.attribute))]
  {
    var name := if reported.Some? then reported.value else entry.name;
    assert (entries + [entry])[..|entries|] == entries;
    BothCompile(engine, DeclaredByEntries(owners, reported, entries), DeclaredByAttribute(owners, name, entry.attribute));
  }

  lemma {:induction false} EntriesCompile(engine: Engine, owners: seq<Frame>, reported: Option<Name>, entries: seq<Entry>)
    ensures AllCompile(engine, DeclaredByEntries(owners, reported, entries)) <==> EntriesForm(engine, entries, CompiledEntries(engine, entries))
    decreases entries, 0
  {
    if entries != [] {
      var init, last := entries[..|entries| - 1], entries[|entries| - 1];
      InitAndLast(entries);
      var name := if reported.Some? then reported.value else last.name;
      EntriesCompile(engine, owners, reported, init);
      AttributeCompiles(engine, owners, name, last.attribute);
      MoreCompile(engine, owners, reported, init, last);
    }
  }

  lemma MoreCompile(engine: Engine, owners: seq<Frame>, reported: Option<Name>, entries: seq<Entry>, entry: Entry)
    requires AllCompile(engine, DeclaredByEntries(owners, reported, entries)) <==> EntriesForm(engine, entries, CompiledEntries(engine, entries))
    requires var name := if reported.Some? then reported.value else entry.name;
             AllCompile(engine, DeclaredByAttribute(owners, name, entry.attribute))
             <==> AttributeForm(engine, entry.attribute, CompiledAttribute(engine, entry.attribute))
    ensures AllCompile(engine, DeclaredByEntries(owners, reported, entries + [entry]))
            <==> EntriesForm(engine, entries + [entry], CompiledEntries(engine, entries + [entry]))
  {
    EntriesOfMore(engine, owners, reported, entries, entry);
    OneFormMore(engine, entries, CompiledEntries(engine, entries), entry, Entry(entry.name, CompiledAttribute(engine, entry.attribute)));
  }

  lemma InstancesOfMore(engine: Engine, path: AttributePath, owners: seq<Frame>, instances: seq<Instance>, instance: Instance)
    ensures AllCompile(engine, DeclaredByInstances(path, owners, instances + [instance]))
            <==> AllCompile(engine, DeclaredByInstances(path, owners, instances)) && AllCompile(engine, DeclaredByInstance(path, owners, instance))
    ensures CompiledInstances(engine, instances + [instance]) == CompiledInstances(engine, instances) + [CompiledInstance(engine, instance)]
  {
    assert (instances + [instance])[..|instances|] == instances;
    BothCompile(engine, DeclaredByInstances(path, owners, instances), DeclaredByInstance(path, owners, instance));
  }

  lemma {:induction false} InstanceCompiles(engine: Engine, path: AttributePath, owners: seq<Frame>, instance: Instance)
    ensures AllCompile(engine, DeclaredByInstance(path, owners, instance)) <==> InstanceForm(engine, instance, CompiledInstance(engine, instance))
    decreases instance, 0
  {
    SourceCompiles(engine, path, instance.source);
    EntriesCompile(engine, owners, None, instance.properties);
    BothCompile(engine, DeclaredBySource(path, instance.source), DeclaredByEntries(owners, None, instance.properties));
  }

  lemma {:induction false} InstancesCompile(engine: Engine, path: AttributePath, owners: seq<Frame>, instances: seq<Instance>)
    ensures AllCompile(engine, DeclaredByInstances(path, owners, instances)) <==> InstancesForm(engine, instances, CompiledInstances(engine, instances))
    decreases instances, 0
  {
    if instances != [] {
      var init, last := instances[..|instances| - 1], instances[|instances| - 1];
      InitAndLast(instances);
      InstancesCompile(engine, path, owners, init);
      InstanceCompiles(engine, path, owners, last);
      InstancesOfMore(engine, path, owners, init, last);
      OneInstanceFormMore(engine, init, CompiledInstances(engine, init), last, CompiledInstance(engine, last));
    }
  }

  lemma {:induction false} ScopesCompile(engine: Engine, sources: seq<string>)
    ensures AllCompile(engine, DeclaredByScopes(sources))
            <==> forall i :: 0 <= i < |sources| ==> engine.compiles(sources[i]) == Some(CompiledTexts(engine, sources)[i])
  {
    if sources != [] {
      var n := |sources| - 1;
      ScopesCompile(engine, sources[..n]);
      assert DeclaredByScopes(sources) == DeclaredByScopes(sources[..n]) + [Declaration(ScopeOf, sources[n])];
      BothCompile(engine, DeclaredByScopes(sources[..n]), [Declaration(ScopeOf, sources[n])]);
      OneCompiles(engine, Declaration(ScopeOf, sources[n]));
      assert forall i :: 0 <= i < n ==> sources[..n][i] == sources[i] && CompiledTexts(engine, sources)[i] == CompiledTexts(engine, sources[..n])[i];
    } else {
      assert DeclaredByScopes(sources) == [];
    }
  }

  lemma ScopeCompiles(engine: Engine, scope: Option<Scope>)
    ensures AllCompile(engine, DeclaredByScopes(SourcesOfScope(scope))) <==> ScopeForm(engine, scope, CompiledScopeOf(engine, scope))
  {
    ScopesCompile(engine, SourcesOfScope(scope));
    if scope.Some? && scope.value.Single? {
      assert CompiledTexts(engine, [scope.value.source]) == [Compiled(engine, scope.value.source)] by {
        assert [scope.value.source][..0] == [];
      }
    }
  }

  lemma ExpiryCompiles(engine: Engine, text: Option<string>)
    ensures AllCompile(engine, if text.Some? then [Declaration(ExpiresAt, text.value)] else [])
            <==> OptionalForm(engine, text, CompiledOptional(engine, text))
  {
    if text.Some? { OneCompiles(engine, Declaration(ExpiresAt, text.value)); }
  }

  /**
  A mapping is accepted exactly when every template in it compiles, wherever it stands, and the compiled
  mapping then holds each in its place, and everything else as it was declared.
  */
  lemma {:induction false} MappingCompiles(engine: Engine, mapping: Mapping)
    ensures AllCompile(engine, DeclaredByMapping(mapping)) <==> MappingForm(engine, mapping, CompiledMapping(engine, mapping))
    decreases mapping, 2
  {
    var name := [Declaration(EntityName, mapping.entityName)];
    var scopes := DeclaredByScopes(SourcesOfScope(mapping.scope));
    var expiry := if mapping.expiresAt.Some? then [Declaration(ExpiresAt, mapping.expiresAt.value)] else [];
    BothCompile(engine, name, scopes);
    BothCompile(engine, name + scopes, expiry);
    BothCompile(engine, name + scopes + expiry, DeclaredByEntries([], None, mapping.attributes));
    OneCompiles(engine, name[0]);
    ScopeCompiles(engine, mapping.scope);
    ExpiryCompiles(engine, mapping.expiresAt);
    EntriesCompile(engine, [], None, mapping.attributes);
  }
}
