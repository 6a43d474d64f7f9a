/** The identifiers, scopes, and expiries a mapping's templates resolve to for one record. */
module Minting {
  import opened Wrappers
  import opened Templates
  import opened Mappings

  type Urn = string

  type Scopes = set<string>

  datatype UrnError =
    | TemplateFailed(error: TemplateError)
    | EmptyId(entityType: Name)
    | BuildUrn(nss: string)
    | InvalidScope(rejected: string)
    | MissingSource
    | NoTarget

  /** The engine, and the libraries that clean an identifier and judge a URN, a scope, or an instant. */
  datatype Env = Env(
    engine: Engine,
    cleans: string -> Option<string>,
    builds: string -> bool,
    admitsScope: string -> bool,
    instantOf: Json -> Option<int>
  )

  function TargetId(env: Env, entityType: Name, rawId: string): Result<Urn, UrnError> {
    match env.cleans(rawId)
    case None => Err(EmptyId(entityType))
    case Some(id) =>
      var nss := entityType + ":" + id;
      if env.builds(nss) then Ok("urn:ngsi-ld:" + nss) else Err(BuildUrn(nss))
  }

  function ResolveIdentifier(env: Env, templates: seq<CompiledTemplate>, entityType: Name, record: Record): Result<string, UrnError> {
    match ResolveJoined(env.engine, templates, record)
    case Err(error) => Err(TemplateFailed(error))
    case Ok(None) => Err(EmptyId(entityType))
    case Ok(Some(id)) => Ok(id)
  }

  function MintFrom(env: Env, templates: seq<CompiledTemplate>, entityType: Name, record: Record): Result<Urn, UrnError> {
    var rawId := ResolveIdentifier(env, templates, entityType, record);
    if rawId.Err? then Err(rawId.error) else TargetId(env, entityType, rawId.value)
  }

  /** The URN of the entity a record is under a mapping. */
  function GenerateId(env: Env, mapping: Mapping, record: Record): Result<Urn, UrnError> {
    match mapping.compiledEntityName
    case None => Err(MissingSource)
    case Some(template) => MintFrom(env, [template], mapping.entityType, record)
  }

  // An absent field anywhere in a scope's template, or empty text, is no scope.
  function ScopeText(env: Env, template: CompiledTemplate, record: Record): Result<Option<string>, UrnError> {
    match ResolveComplete(env.engine, template, record)
    case Err(error) => Err(TemplateFailed(error))
    case Ok(None) => Ok(None)
    case Ok(Some(value)) =>
      var text := Written(env.engine, value);
      Ok(if text == [] then None else Some(text))
  }

  function ParsedScope(env: Env, template: CompiledTemplate, record: Record): Result<Scopes, UrnError> {
    match ScopeText(env, template, record)
    case Err(error) => Err(error)
    case Ok(None) => Ok({})
    case Ok(Some(text)) => if env.admitsScope(text) then Ok({text}) else Err(InvalidScope(text))
  }

  function ParsedScopes(env: Env, templates: seq<CompiledTemplate>, record: Record): Result<Scopes, UrnError> {
    if templates == [] then Ok({})
    else
      var first := ParsedScope(env, templates[0], record);
      if first.Err? then first
      else
        var rest := ParsedScopes(env, templates[1..], record);
        if rest.Err? then rest else Ok(first.value + rest.value)
  }

  function GenerateScope(env: Env, mapping: Mapping, record: Record): Result<Option<Scopes>, UrnError> {
    match mapping.compiledScope
    case None => Ok(None)
    case Some(scope) =>
      match ParsedScopes(env, if scope.CompiledSingle? then [scope.template] else scope.templates, record)
      case Err(error) => Err(error)
      case Ok(scopes) => Ok(if scopes == {} then None else Some(scopes))
  }

  // A value that reads as no instant costs the record its expiry, not the record.
  function ResolveExpiry(env: Env, mapping: Mapping, record: Record): Result<Option<int>, TemplateError> {
    match mapping.compiledExpiresAt
    case None => Ok(None)
    case Some(template) =>
      match ResolveComplete(env.engine, template, record)
      case Err(error) => Err(error)
      case Ok(None) => Ok(None)
      case Ok(Some(value)) => Ok(env.instantOf(value))
  }

  // ---- Relationship objects ----

  // A literal source that was never compiled names its own text.
  function LiteralId(source: Option<Json>): Option<string> {
    match source
    case Some(Str(text)) => Some(text)
    case Some(Num(text)) => Some(text)
    case Some(Bool(value)) => Some(if value then "true" else "false")
    case _ => None
  }

  function ChildId(env: Env, attribute: Attribute, record: Record): Result<Urn, UrnError> {
    if attribute.target.None? then Err(NoTarget)
    else if attribute.compiledSource.Some? then MintFrom(env, attribute.compiledSource.value, attribute.target.value, record)
    else
      match LiteralId(attribute.source)
      case None => Err(MissingSource)
      case Some(text) => TargetId(env, attribute.target.value, text)
  }

  function SourceIdentifiers(env: Env, attribute: Attribute, record: Record): Result<seq<string>, UrnError> {
    if attribute.compiledSource.Some? then
      match ResolveTokens(env.engine, attribute.compiledSource.value, record)
      case Err(error) => Err(TemplateFailed(error))
      case Ok(tokens) => Ok(tokens)
    else Ok(if attribute.source.Some? then Identifiers(attribute.source.value) else [])
  }

  // An identifier that names no target is dropped; any other failure is the list's.
  function MintTargets(env: Env, entityType: Name, identifiers: seq<string>): Result<seq<Urn>, UrnError> {
    if identifiers == [] then Ok([])
    else
      var first := TargetId(env, entityType, identifiers[0]);
      if first.Err? && !first.error.EmptyId? then Err(first.error)
      else
        var rest := MintTargets(env, entityType, identifiers[1..]);
        if rest.Err? then rest else Ok((if first.Ok? then [first.value] else []) + rest.value)
  }

  function ChildIds(env: Env, attribute: Attribute, record: Record): Result<seq<Urn>, UrnError> {
    if attribute.target.None? then Err(NoTarget)
    else
      var identifiers := SourceIdentifiers(env, attribute, record);
      if identifiers.Err? then Err(identifiers.error) else MintTargets(env, attribute.target.value, identifiers.value)
  }

  function InstanceChildId(env: Env, instance: Instance, attribute: Attribute, record: Record): Result<Urn, UrnError> {
    if attribute.target.None? then Err(NoTarget)
    else
      match instance.compiledSource
      case None => Err(MissingSource)
      case Some(templates) => MintFrom(env, templates, attribute.target.value, record)
  }

  function InstanceChildIds(env: Env, instance: Instance, attribute: Attribute, record: Record): Result<seq<Urn>, UrnError> {
    if attribute.target.None? then Err(NoTarget)
    else
      match ResolveTokens(env.engine, if instance.compiledSource.Some? then instance.compiledSource.value else [], record)
      case Err(error) => Err(TemplateFailed(error))
      case Ok(tokens) => MintTargets(env, attribute.target.value, tokens)
  }

  function One(minted: Result<Urn, UrnError>): Result<seq<Urn>, UrnError> {
    match minted
    case Err(error) => Err(error)
    case Ok(urn) => Ok([urn])
  }

  /** The objects a relationship's own source mints, whichever of the two kinds it is. */
  function Minted(env: Env, attribute: Attribute, record: Record): Result<seq<Urn>, UrnError> {
    if attribute.kind.ListRelationship? then ChildIds(env, attribute, record) else One(ChildId(env, attribute, record))
  }

  function MintedByInstance(env: Env, instance: Instance, attribute: Attribute, record: Record): Result<seq<Urn>, UrnError> {
    if attribute.kind.ListRelationship? then InstanceChildIds(env, instance, attribute, record)
    else One(InstanceChildId(env, instance, attribute, record))
  }

  // ---- Records that agree mint alike ----

  lemma MintsAlike(env: Env, attribute: Attribute, a: Record, b: Record)
    requires ReportsItsReads(env.engine) && AgreeOn(ReadsOfSource(env.engine, attribute.compiledSource), a, b)
    ensures Minted(env, attribute, a) == Minted(env, attribute, b)
    ensures ChildId(env, attribute, a) == ChildId(env, attribute, b)
    ensures SourceIdentifiers(env, attribute, a) == SourceIdentifiers(env, attribute, b)
  {
    if attribute.compiledSource.Some? { SourcesResolveAlike(env.engine, attribute.compiledSource.value, a, b); }
  }

  lemma InstanceMintsAlike(env: Env, instance: Instance, attribute: Attribute, a: Record, b: Record)
    requires ReportsItsReads(env.engine) && AgreeOn(ReadsOfSource(env.engine, instance.compiledSource), a, b)
    ensures MintedByInstance(env, instance, attribute, a) == MintedByInstance(env, instance, attribute, b)
  {
    SourcesResolveAlike(env.engine, if instance.compiledSource.Some? then instance.compiledSource.value else [], a, b);
  }

  lemma {:induction false} ScopesAlike(env: Env, templates: seq<CompiledTemplate>, a: Record, b: Record)
    requires forall i :: 0 <= i < |templates| ==> Resolve(env.engine, templates[i], a) == Resolve(env.engine, templates[i], b)
    ensures ParsedScopes(env, templates, a) == ParsedScopes(env, templates, b)
  {
    if templates != [] {
      assert Resolve(env.engine, templates[0], a) == Resolve(env.engine, templates[0], b);
      ScopesAlike(env, templates[1..], a, b);
    }
  }

  /** What a mapping's own identity, scope, and expiry come to depends on nothing else it does not read. */
  lemma MembersAlike(env: Env, mapping: Mapping, a: Record, b: Record)
    requires ReportsItsReads(env.engine) && AgreeOn(ReadsOfMapping(env.engine, mapping), a, b)
    ensures GenerateId(env, mapping, a) == GenerateId(env, mapping, b)
    ensures GenerateScope(env, mapping, a) == GenerateScope(env, mapping, b)
    ensures ResolveExpiry(env, mapping, a) == ResolveExpiry(env, mapping, b)
  {
    var name, scope := ReadsOfOptional(env.engine, mapping.compiledEntityName), ReadsOfScope(env.engine, mapping.compiledScope);
    var expiry := ReadsOfOptional(env.engine, mapping.compiledExpiresAt);
    AgreeOnBoth(Absorb(Absorb(name, scope), expiry), ReadsOfEntries(env.engine, mapping.attributes), a, b);
    AgreeOnBoth(Absorb(name, scope), expiry, a, b);
    AgreeOnBoth(name, scope, a, b);
    if mapping.compiledEntityName.Some? {
      ResolvesAlike(env.engine, mapping.compiledEntityName.value, a, b);
      JoinsAlike(env.engine, [mapping.compiledEntityName.value], a, b, []);
    }
    if mapping.compiledScope.Some? {
      var templates := if mapping.compiledScope.value.CompiledSingle? then [mapping.compiledScope.value.template] else mapping.compiledScope.value.templates;
      forall i | 0 <= i < |templates| ensures Resolve(env.engine, templates[i], a) == Resolve(env.engine, templates[i], b) {
        if mapping.compiledScope.value.CompiledSingle? {
          ResolvesAlike(env.engine, templates[i], a, b);
        } else {
          AllResolveAlike(env.engine, templates, a, b, i);
        }
      }
      ScopesAlike(env, templates, a, b);
    }
    if mapping.compiledExpiresAt.Some? { ResolvesAlike(env.engine, mapping.compiledExpiresAt.value, a, b); }
  }

  /** Every identifier that names a target is minted, in order, and no other. */
  lemma {:induction false} TargetsAreMinted(env: Env, entityType: Name, identifiers: seq<string>)
    ensures MintTargets(env, entityType, identifiers).Ok?
            <==> forall i :: 0 <= i < |identifiers| ==> var minted := TargetId(env, entityType, identifiers[i]); minted.Ok? || minted.error.EmptyId?
    ensures MintTargets(env, entityType, identifiers).Ok?
            ==> MintTargets(env, entityType, identifiers).value == Naming(env, entityType, identifiers)
  {
    if identifiers != [] {
      TargetsAreMinted(env, entityType, identifiers[1..]);
      assert forall i :: 0 < i < |identifiers| ==> identifiers[i] == identifiers[1..][i - 1];
    }
  }

  function Naming(env: Env, entityType: Name, identifiers: seq<string>): seq<Urn> {
    if identifiers == [] then []
    else (if TargetId(env, entityType, identifiers[0]).Ok? then [TargetId(env, entityType, identifiers[0]).value] else [])
         + Naming(env, entityType, identifiers[1..])
  }

  // ---- Identifiers ----

  lemma PrefixCancels(prefix: string, a: string, b: string)
    ensures prefix + a == prefix + b <==> a == b
  {
    if prefix + a == prefix + b {
      assert a == (prefix + a)[|prefix|..] && b == (prefix + b)[|prefix|..];
    }
  }

  lemma {:induction false} FirstColonSplits(a: string, x: string, b: string, y: string)
    requires ':' !in a && ':' !in b && a + ":" + x == b + ":" + y
    ensures a == b && x == y
  {
    if a == [] || b == [] {
      assert (a + ":" + x)[0] == (b + ":" + y)[0];
      assert a == [] && b == [];
      PrefixCancels(":", x, y);
      assert a + ":" + x == ":" + x && b + ":" + y == ":" + y;
    } else {
      assert (a + ":" + x)[1..] == a[1..] + ":" + x && (b + ":" + y)[1..] == b[1..] + ":" + y;
      assert (a + ":" + x)[0] == a[0] && (b + ":" + y)[0] == b[0];
      FirstColonSplits(a[1..], x, b[1..], y);
      assert a == [a[0]] + a[1..] && b == [b[0]] + b[1..];
    }
  }

  /** Two identifiers mint one URN exactly when they are cleaned to one identifier of one entity type. */
  lemma OneUrnPerIdentifier(env: Env, typeA: Name, a: string, typeB: Name, b: string)
    requires ':' !in typeA && ':' !in typeB && TargetId(env, typeA, a).Ok? && TargetId(env, typeB, b).Ok?
    ensures TargetId(env, typeA, a) == TargetId(env, typeB, b) <==> typeA == typeB && env.cleans(a) == env.cleans(b)
  {
    if TargetId(env, typeA, a) == TargetId(env, typeB, b) {
      var idA, idB := env.cleans(a).value, env.cleans(b).value;
      PrefixCancels("urn:ngsi-ld:", typeA + ":" + idA, typeB + ":" + idB);
      FirstColonSplits(typeA, idA, typeB, idB);
    }
  }

  /** What a URN is minted of: the fixed prefix, the entity type, and the identifier the whole source resolves to, cleaned. */
  lemma MintedOfTheSource(env: Env, templates: seq<CompiledTemplate>, entityType: Name, record: Record)
    ensures forall urn :: MintFrom(env, templates, entityType, record) == Ok(urn) <==>
              exists text {:trigger env.cleans(text)} :: ResolveJoined(env.engine, templates, record) == Ok(Some(text)) && env.cleans(text).Some?
                && env.builds(entityType + ":" + env.cleans(text).value) && urn == "urn:ngsi-ld:" + (entityType + ":" + env.cleans(text).value)
    ensures MintFrom(env, templates, entityType, record) == Err(EmptyId(entityType)) <==>
              ResolveJoined(env.engine, templates, record) == Ok(None)
              || exists text {:trigger env.cleans(text)} :: ResolveJoined(env.engine, templates, record) == Ok(Some(text)) && env.cleans(text).None?
  {
    var joined := ResolveJoined(env.engine, templates, record);
    if joined.Ok? && joined.value.Some? {
      var cleaned := env.cleans(joined.value.value);
    }
  }

  // ---- Scopes and expiries ----

  // A template of a scope is at fault: it fails, or yields text that is no scope.
  predicate FaultyScope(env: Env, template: CompiledTemplate, record: Record) {
    var text := ScopeText(env, template, record);
    text.Err? || (text.value.Some? && !env.admitsScope(text.value.value))
  }

  // The texts the templates of a scope yield, the absent and the empty ones left out.
  function ScopesOf(env: Env, templates: seq<CompiledTemplate>, record: Record): Scopes {
    set template | template in templates
                   && ResolveComplete(env.engine, template, record).Ok? && ResolveComplete(env.engine, template, record).value.Some?
                   && Written(env.engine, ResolveComplete(env.engine, template, record).value.value) != ""
                 :: Written(env.engine, ResolveComplete(env.engine, template, record).value.value)
  }

  lemma ScopesOfMore(env: Env, templates: seq<CompiledTemplate>, record: Record)
    requires templates != [] && !FaultyScope(env, templates[0], record)
    ensures ParsedScope(env, templates[0], record).Ok?
    ensures ScopesOf(env, templates, record) == ParsedScope(env, templates[0], record).value + ScopesOf(env, templates[1..], record)
  {
    assert templates == [templates[0]] + templates[1..];
  }

  /** A list of scopes is all the texts its templates yield, and fails exactly when one of them is at fault. */
  lemma {:induction false} ScopesAreTheTexts(env: Env, templates: seq<CompiledTemplate>, record: Record)
    ensures ParsedScopes(env, templates, record).Ok? <==> forall i :: 0 <= i < |templates| ==> !FaultyScope(env, templates[i], record)
    ensures ParsedScopes(env, templates, record).Ok? ==> ParsedScopes(env, templates, record).value == ScopesOf(env, templates, record)
  {
    if templates != [] {
      ScopesAreTheTexts(env, templates[1..], record);
      assert forall i :: 0 < i < |templates| ==> templates[i] == templates[1..][i - 1];
      if FaultyScope(env, templates[0], record) {
        assert ParsedScope(env, templates[0], record).Err?;
      } else {
        ScopesOfMore(env, templates, record);
      }
    }
  }

  /** An entity has a scope exactly when its mapping declares one that yields any text. */
  lemma ScopedByItsTexts(env: Env, mapping: Mapping, record: Record)
    requires mapping.compiledScope.Some?
    ensures var scope := mapping.compiledScope.value;
            var templates := if scope.CompiledSingle? then [scope.template] else scope.templates;
            && (GenerateScope(env, mapping, record).Err? <==> exists i :: 0 <= i < |templates| && FaultyScope(env, templates[i], record))
            && (forall scopes :: GenerateScope(env, mapping, record) == Ok(Some(scopes)) ==> scopes == ScopesOf(env, templates, record) && scopes != {})
            && (GenerateScope(env, mapping, record) == Ok(None) ==> ScopesOf(env, templates, record) == {})
  {
    var scope := mapping.compiledScope.value;
    ScopesAreTheTexts(env, if scope.CompiledSingle? then [scope.template] else scope.templates, record);
  }

  /**
  An entity's expiry fails exactly when its template does, and is set exactly when the value is there and
  reads as an instant: a value that is absent or reads as none costs the expiry alone.
  */
  lemma ExpiresAsItsValueReads(env: Env, mapping: Mapping, record: Record)
    requires mapping.compiledExpiresAt.Some?
    ensures var resolved := Resolve(env.engine, mapping.compiledExpiresAt.value, record);
            && (ResolveExpiry(env, mapping, record).Err? <==> resolved.Err?)
            && (forall instant :: ResolveExpiry(env, mapping, record) == Ok(Some(instant)) <==>
                  && resolved.Ok? && (mapping.compiledExpiresAt.value.Static? || (resolved.value != Null && resolved.value != Str("")))
                  && env.instantOf(resolved.value) == Some(instant))
  {
  }

  // ---- One relationship, written in different ways ----

  // What a list keeps of one identifier.
  function ListOfOne(minted: Result<Urn, UrnError>): Result<seq<Urn>, UrnError> {
    match minted
    case Ok(urn) => Ok([urn])
    case Err(EmptyId(_)) => Ok([])
    case Err(error) => Err(error)
  }

  /** A list relationship over a source that holds one identifier links to what a plain relationship over it does. */
  lemma ListOfOneIsTheOne(env: Env, attribute: Attribute, record: Record, token: string)
    requires attribute.target.Some? && attribute.compiledSource.Some?
    requires SourceIdentifiers(env, attribute, record) == Ok([token])
    requires ResolveJoined(env.engine, attribute.compiledSource.value, record) == Ok(Some(token))
    ensures ChildIds(env, attribute, record) == ListOfOne(ChildId(env, attribute, record))
  {
    var target := attribute.target.value;
    var minted := TargetId(env, target, token);
    assert MintTargets(env, target, [token][1..]) == Ok([]);
    assert ChildId(env, attribute, record) == minted && ChildIds(env, attribute, record) == MintTargets(env, target, [token]);
    assert [token][0] == token;
    match minted
    case Ok(urn) => assert [urn] + [] == [urn];
    case Err(EmptyId(_)) => var none: seq<Urn> := []; assert none + none == none;
    case Err(_) =>
  }

  /** An instance links to what the attribute would, were the instance's source its own. */
  lemma InstanceMintsAsItsOwn(env: Env, instance: Instance, attribute: Attribute, record: Record)
    requires instance.compiledSource.Some?
    ensures MintedByInstance(env, instance, attribute, record)
            == Minted(env, attribute.(source := instance.source, compiledSource := instance.compiledSource), record)
  {
  }

  // JSON prints a number as it is spelled, and a flag as its name.
  predicate PrintsScalars(engine: Engine, value: Json) {
    && (value.Num? ==> engine.prints(value) == value.text)
    && (value.Bool? ==> engine.prints(value) == if value.value then "true" else "false")
  }

  predicate IsScalar(value: Json) {
    value.Str? || value.Num? || value.Bool?
  }

  /** A literal source that was not compiled mints what the static template it compiles to does; any other names no target. */
  lemma LiteralMintsAsCompiled(env: Env, attribute: Attribute, record: Record)
    requires attribute.target.Some? && attribute.compiledSource.None?
    requires attribute.source.Some? ==> PrintsScalars(env.engine, attribute.source.value)
    ensures attribute.source.None? || !IsScalar(attribute.source.value) ==> ChildId(env, attribute, record) == Err(MissingSource)
    ensures attribute.source.Some? && IsScalar(attribute.source.value) ==>
              var text := Written(env.engine, attribute.source.value);
              ChildId(env, attribute, record) == ChildId(env, attribute.(compiledSource := Some([Static(text)])), record)
    ensures attribute.source.Some? && attribute.source.value.Str? ==>
              var literal := Some([Static(attribute.source.value.chars)]);
              SourceIdentifiers(env, attribute, record) == SourceIdentifiers(env, attribute.(compiledSource := literal), record)
    ensures attribute.source.None? ==> SourceIdentifiers(env, attribute, record) == Ok([])
  {
    if attribute.source.Some? && IsScalar(attribute.source.value) {
      var text := Written(env.engine, attribute.source.value);
      assert JoinedFrom(env.engine, [Static(text)][1..], record, [] + text) == Ok(Some([] + text)) && [] + text == text;
      assert ResolveJoined(env.engine, [Static(text)], record) == Ok(Some(text));
      assert [Static(text)][..0] == [];
      assert ResolveTokens(env.engine, [Static(text)], record) == Ok([] + Identifiers(Str(text)));
      assert [] + Identifiers(Str(text)) == Identifiers(Str(text));
    }
  }
}
