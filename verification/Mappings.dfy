/** Mapping documents: how one source record becomes one entity, and the entities derived beside it. */
module Mappings {
  import opened Wrappers
  import opened Templates

  type Name = string

  datatype Kind =
    | Property | GeoProperty | LanguageProperty | VocabProperty | ListProperty | JsonProperty
    | Relationship | ListRelationship

  predicate IsRelationship(kind: Kind) {
    kind.Relationship? || kind.ListRelationship?
  }

  datatype Entry = Entry(name: Name, attribute: Attribute)

  datatype Instance = Instance(source: Option<Json>, compiledSource: Option<seq<CompiledTemplate>>, properties: seq<Entry>)

  // Declaring an empty list of instances is not the same as declaring none.
  datatype Instances = Undeclared | Declared(list: seq<Instance>)

  // `target` is the entity type a relationship points at. Properties that are not declared are read
  // exactly as declared empty ones, so both are the empty sequence.
  datatype Attribute = Attribute(
    kind: Kind,
    source: Option<Json>,
    compiledSource: Option<seq<CompiledTemplate>>,
    mappings: seq<Entry>,
    languageMap: seq<Entry>,
    synthetic: Option<Mapping>,
    target: Option<Name>,
    properties: seq<Entry>,
    instances: Instances
  )

  datatype Scope = Single(source: string) | Multiple(sources: seq<string>)

  datatype CompiledScope = CompiledSingle(template: CompiledTemplate) | CompiledMultiple(templates: seq<CompiledTemplate>)

  datatype Mapping = Mapping(
    entityType: Name,
    entityName: string,
    compiledEntityName: Option<CompiledTemplate>,
    scope: Option<Scope>,
    compiledScope: Option<CompiledScope>,
    expiresAt: Option<string>,
    compiledExpiresAt: Option<CompiledTemplate>,
    attributes: seq<Entry>,
    hasNestedRelationships: bool,
    sourceReads: SourceReads
  )

  // ---- Nested relationships ----

  /** Whether the sub-attributes of an attribute declare a relationship anywhere beneath it. */
  predicate DeclaresNestedRelationship(attribute: Attribute)
    decreases attribute, 1
  {
    DeclareRelationship(attribute.properties)
  }

  predicate DeclareRelationship(entries: seq<Entry>)
    decreases entries, 0
  {
    entries != []
    && (IsRelationship(entries[0].attribute.kind) || DeclaresNestedRelationship(entries[0].attribute) || DeclareRelationship(entries[1..]))
  }

  predicate DetectNestedRelationships(attributes: seq<Entry>) {
    exists i :: 0 <= i < |attributes| && DeclaresNestedRelationship(attributes[i].attribute)
  }

  // ---- What a mapping's own templates read ----

  function ReadsOfSource(engine: Engine, compiled: Option<seq<CompiledTemplate>>): SourceReads {
    if compiled.Some? then ReadsOfAll(engine, compiled.value) else NOTHING
  }

  /** What an attribute's templates read; a synthetic entity's templates are its own mapping's. */
  function ReadsOfAttribute(engine: Engine, attribute: Attribute): SourceReads
    decreases attribute, 1
  {
    var own := ReadsOfSource(engine, attribute.compiledSource);
    var nested := Absorb(ReadsOfEntries(engine, attribute.mappings), ReadsOfEntries(engine, attribute.languageMap));
    var instanced := if attribute.instances.Declared? then ReadsOfInstances(engine, attribute.instances.list) else NOTHING;
    Absorb(Absorb(Absorb(own, nested), ReadsOfEntries(engine, attribute.properties)), instanced)
  }

  function ReadsOfEntries(engine: Engine, entries: seq<Entry>): SourceReads
    decreases entries, 0
  {
    if entries == [] then NOTHING
    else Absorb(ReadsOfEntries(engine, entries[..|entries| - 1]), ReadsOfAttribute(engine, entries[|entries| - 1].attribute))
  }

  function ReadsOfInstances(engine: Engine, instances: seq<Instance>): SourceReads
    decreases instances, 0
  {
    if instances == [] then NOTHING
    else
      var last := instances[|instances| - 1];
      Absorb(ReadsOfInstances(engine, instances[..|instances| - 1]), ReadsOfInstance(engine, last))
  }

  function ReadsOfInstance(engine: Engine, instance: Instance): SourceReads
    decreases instance, 0
  {
    Absorb(ReadsOfSource(engine, instance.compiledSource), ReadsOfEntries(engine, instance.properties))
  }

  function ReadsOfScope(engine: Engine, scope: Option<CompiledScope>): SourceReads {
    match scope
    case None => NOTHING
    case Some(CompiledSingle(template)) => ReadsOf(engine, template)
    case Some(CompiledMultiple(templates)) => ReadsOfAll(engine, templates)
  }

  function ReadsOfOptional(engine: Engine, template: Option<CompiledTemplate>): SourceReads {
    if template.Some? then ReadsOf(engine, template.value) else NOTHING
  }

  function ReadsOfMapping(engine: Engine, mapping: Mapping): SourceReads {
    Absorb(Absorb(Absorb(ReadsOfOptional(engine, mapping.compiledEntityName), ReadsOfScope(engine, mapping.compiledScope)),
                  ReadsOfOptional(engine, mapping.compiledExpiresAt)),
           ReadsOfEntries(engine, mapping.attributes))
  }
}
