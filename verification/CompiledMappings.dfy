/** A compiled mapping expands as the mapping it was loaded as declares. */
module CompiledMappings {
  import opened Wrappers
  import opened Templates
  import opened Mappings
  import opened Minting
  import opened Expansions
  import opened Compiler

  lemma {:induction false} FindCompiled(engine: Engine, entries: seq<Entry>, name: Name)
    ensures Find(CompiledEntries(engine, entries), name)
            == match Find(entries, name) case None => None case Some(attribute) => Some(CompiledAttribute(engine, attribute))
  {
    if entries != [] {
      TailCompiles(engine, entries);
      FindCompiled(engine, entries[1..], name);
    }
  }

  lemma TailCompiles(engine: Engine, entries: seq<Entry>)
    requires entries != []
    ensures CompiledEntries(engine, entries)[1..] == CompiledEntries(engine, entries[1..])
  {
  }

  lemma {:induction false} KeyedCompiled(engine: Engine, entries: seq<Entry>)
    requires Keyed(entries)
    ensures Keyed(CompiledEntries(engine, entries))
    decreases entries
  {
    if entries != [] {
      TailCompiles(engine, entries);
      FindCompiled(engine, entries[1..], entries[0].name);
      KeyedCompiled(engine, entries[0].attribute.properties);
      KeyedCompiled(engine, entries[1..]);
    }
  }

  lemma {:induction false} NestingCompiled(engine: Engine, entries: seq<Entry>)
    ensures DeclareRelationship(CompiledEntries(engine, entries)) == DeclareRelationship(entries)
    decreases entries
  {
    if entries != [] {
      TailCompiles(engine, entries);
      NestingCompiled(engine, entries[0].attribute.properties);
      NestingCompiled(engine, entries[1..]);
    }
  }

  lemma LoadedCompiles(engine: Engine, mapping: Mapping)
    requires IsLoaded(mapping)
    ensures IsLoaded(CompiledMapping(engine, mapping))
  {
    KeyedCompiled(engine, mapping.attributes);
    var compiled := CompiledEntries(engine, mapping.attributes);
    forall i | 0 <= i < |compiled|
      ensures DeclaresNestedRelationship(compiled[i].attribute) == DeclaresNestedRelationship(mapping.attributes[i].attribute)
    {
      NestingCompiled(engine, mapping.attributes[i].attribute.properties);
    }
  }

  /** The links of a record under a compiled mapping are, key by key, what its declarations mint. */
  lemma CompiledKeysHold(env: Env, vars: Record, mapping: Mapping, data: Record, key: Key)
    requires IsLoaded(mapping) && ExpandValue(env, vars, CompiledMapping(env.engine, mapping), data).result.Ok?
    ensures var main := Main(ExpandValue(env, vars, CompiledMapping(env.engine, mapping), data).result.value);
            Objects(main.children, key)
            == DeclaredObjects(Expansion(env, vars, main.urn, data), CompiledEntries(env.engine, mapping.attributes), key)
  {
    LoadedCompiles(env.engine, mapping);
    KeysHoldTheirDeclarations(env, vars, CompiledMapping(env.engine, mapping), data, key);
  }
}
