/** Compiled templates: what each resolves to over a record, and which of the record's keys it reads. */
module Templates {
  import opened Wrappers
  import Text

  datatype Json =
    | Null
    | Bool(value: bool)
    | Num(text: string)
    | Str(chars: string)
    | Arr(elements: seq<Json>)
    | Obj(fields: map<string, Json>)

  type Record = map<string, Json>

  datatype TemplatePart = Literal(text: string) | Field(path: string)

  datatype CompiledTemplate =
    | Static(literal: string)
    | Simple(path: string)
    | Composite(parts: seq<TemplatePart>)
    | Expression(source: string)
    | Complex(source: string)

  datatype TemplateError = Render(source: string) | Decode(source: string)

  /** The templating engine and the JSON library, as what their callers see of them. */
  datatype Engine = Engine(
    compiles: string -> Option<CompiledTemplate>,
    reports: string -> set<string>,
    assigns: string -> set<string>,
    renders: (string, Record) -> Option<string>,
    decodes: string -> Option<Json>,
    prints: Json -> string
  )

  // ---- Field paths ----

  function Head(path: string): string {
    if path == [] || path[0] == '.' then [] else [path[0]] + Head(path[1..])
  }

  function Segments(path: string): (segments: seq<string>)
    ensures segments != []
  {
    if path == [] then [[]]
    else
      var rest := Segments(path[1..]);
      if path[0] == '.' then [[]] + rest else [[path[0]] + rest[0]] + rest[1..]
  }

  predicate IsWholeRecord(path: string) {
    path == "context"
  }

  function Lookup(data: Json, segments: seq<string>): Option<Json> {
    if segments == [] then Some(data)
    else if data.Obj? && segments[0] in data.fields then Lookup(data.fields[segments[0]], segments[1..])
    else None
  }

  // A field a sparse record lacks reads as null.
  function ReadField(path: string, record: Record): Json {
    match Lookup(Obj(record), Segments(path))
    case Some(value) => value
    case None => Null
  }

  /** The key a path is said to read is the first one its lookup asks for. */
  lemma {:induction false} HeadIsLookedUpFirst(path: string)
    ensures Segments(path)[0] == Head(path)
  {
    if path != [] { HeadIsLookedUpFirst(path[1..]); }
  }

  // ---- Source reads ----

  /** The top-level keys something reads: exactly these, or any at all. */
  datatype SourceReads = Keys(keys: set<string>) | Everything

  const NOTHING := Keys({})

  function Absorb(read: SourceReads, more: SourceReads): SourceReads {
    if read.Keys? && more.Keys? then Keys(read.keys + more.keys) else Everything
  }

  function OfField(path: string): SourceReads {
    if IsWholeRecord(path) then Everything else Keys({Head(path)})
  }

  predicate Contains(text: string, part: string) {
    part <= text || (text != [] && Contains(text[1..], part))
  }

  // The engine leaves assigned names and its own variables out of what it reports.
  function OfEngineTemplate(engine: Engine, source: string): SourceReads {
    if Contains(source, "__tera_") || "this" in engine.reports(source) then Everything
    else Keys(engine.reports(source) + engine.assigns(source))
  }

  function ReadsOfParts(parts: seq<TemplatePart>): SourceReads {
    if parts == [] then NOTHING
    else
      var before, last := ReadsOfParts(parts[..|parts| - 1]), parts[|parts| - 1];
      if last.Field? then Absorb(before, OfField(last.path)) else before
  }

  function ReadsOf(engine: Engine, template: CompiledTemplate): SourceReads {
    match template
    case Static(_) => NOTHING
    case Simple(path) => OfField(path)
    case Composite(parts) => ReadsOfParts(parts)
    case Expression(source) => OfEngineTemplate(engine, source)
    case Complex(source) => OfEngineTemplate(engine, source)
  }

  function ReadsOfAll(engine: Engine, templates: seq<CompiledTemplate>): SourceReads {
    if templates == [] then NOTHING
    else Absorb(ReadsOfAll(engine, templates[..|templates| - 1]), ReadsOf(engine, templates[|templates| - 1]))
  }

  /** Two records hold the same under every key that is read. */
  ghost predicate AgreeOn(read: SourceReads, a: Record, b: Record) {
    match read
    case Everything => a == b
    case Keys(keys) => forall key :: key in keys ==> (key in a <==> key in b) && (key in a ==> a[key] == b[key])
  }

  /** What the engine reports a template reading is all that template's rendering depends on. */
  ghost predicate ReportsItsReads(engine: Engine) {
    forall source, a, b {:trigger engine.renders(source, a), engine.renders(source, b)} ::
      AgreeOn(OfEngineTemplate(engine, source), a, b) ==> engine.renders(source, a) == engine.renders(source, b)
  }

  lemma AgreeOnBoth(read: SourceReads, more: SourceReads, a: Record, b: Record)
    requires AgreeOn(Absorb(read, more), a, b)
    ensures AgreeOn(read, a, b) && AgreeOn(more, a, b)
  {
  }

  lemma AbsorbInAnyGrouping(a: SourceReads, b: SourceReads, c: SourceReads)
    ensures Absorb(Absorb(a, b), c) == Absorb(a, Absorb(b, c))
    ensures Absorb(NOTHING, a) == a == Absorb(a, NOTHING)
  {
    if a.Keys? {
      assert {} + a.keys == a.keys + {} == a.keys;
      if b.Keys? && c.Keys? { assert (a.keys + b.keys) + c.keys == a.keys + (b.keys + c.keys); }
    }
  }

  // ---- Resolution ----

  predicate IsAbsent(value: Json) {
    value.Null? || (value.Str? && value.chars == [])
  }

  function Present(value: Json): Option<Json> {
    if IsAbsent(value) then None else Some(value)
  }

  function Written(engine: Engine, value: Json): string {
    if value.Str? then value.chars else engine.prints(value)
  }

  // The parts joined, or nothing as soon as one field is absent.
  function JoinComplete(engine: Engine, parts: seq<TemplatePart>, record: Record): Option<string> {
    if parts == [] then Some([])
    else
      var before, last := JoinComplete(engine, parts[..|parts| - 1], record), parts[|parts| - 1];
      if before.None? then None
      else if last.Literal? then Some(before.value + last.text)
      else
        match Present(ReadField(last.path, record))
        case None => None
        case Some(value) => Some(before.value + Written(engine, value))
  }

  function Rendered(engine: Engine, source: string, record: Record): Result<string, TemplateError> {
    match engine.renders(source, record)
    case None => Err(Render(source))
    case Some(text) => Ok(text)
  }

  // A guard that suppressed the expression leaves nothing to decode.
  function Evaluated(engine: Engine, source: string, record: Record): Result<Json, TemplateError> {
    var rendered := Rendered(engine, source, record);
    if rendered.Err? then Err(rendered.error)
    else if Text.IsBlank(rendered.value) then Ok(Null)
    else
      match engine.decodes(Text.Trim(rendered.value))
      case None => Err(Decode(source))
      case Some(value) => Ok(value)
  }

  function Resolve(engine: Engine, template: CompiledTemplate, record: Record): Result<Json, TemplateError> {
    match template
    case Static(literal) => Ok(Str(literal))
    case Simple(path) => Ok(ReadField(path, record))
    case Composite(parts) =>
      var joined := JoinComplete(engine, parts, record);
      Ok(if joined.Some? then Str(joined.value) else Null)
    case Expression(source) => Evaluated(engine, source, record)
    case Complex(source) =>
      var rendered := Rendered(engine, source, record);
      if rendered.Err? then Err(rendered.error) else Ok(Str(rendered.value))
  }

  // A static literal is never absent.
  function ResolveComplete(engine: Engine, template: CompiledTemplate, record: Record): Result<Option<Json>, TemplateError> {
    match Resolve(engine, template, record)
    case Err(error) => Err(error)
    case Ok(value) => Ok(if template.Static? then Some(value) else Present(value))
  }

  // Templates after an absent one are not resolved, so they cannot fail.
  function JoinedFrom(engine: Engine, templates: seq<CompiledTemplate>, record: Record, combined: string): Result<Option<string>, TemplateError> {
    if templates == [] then Ok(Some(combined))
    else
      match ResolveComplete(engine, templates[0], record)
      case Err(error) => Err(error)
      case Ok(None) => Ok(None)
      case Ok(Some(value)) => JoinedFrom(engine, templates[1..], record, combined + Written(engine, value))
  }

  function ResolveJoined(engine: Engine, templates: seq<CompiledTemplate>, record: Record): Result<Option<string>, TemplateError> {
    JoinedFrom(engine, templates, record, [])
  }

  predicate IsSeparator(c: char) {
    Text.IsSpace(c) || c == ','
  }

  function TokenLength(text: string): (n: nat)
    ensures n <= |text| && forall i :: 0 <= i < n ==> !IsSeparator(text[i])
    ensures n < |text| ==> IsSeparator(text[n])
  {
    if text == [] || IsSeparator(text[0]) then 0 else 1 + TokenLength(text[1..])
  }

  function Tokens(text: string): (tokens: seq<string>)
    ensures forall token :: token in tokens ==> token != [] && forall c :: c in token ==> !IsSeparator(c)
    decreases |text|
  {
    if text == [] then []
    else if IsSeparator(text[0]) then Tokens(text[1..])
    else [text[..TokenLength(text)]] + Tokens(text[TokenLength(text)..])
  }

  function Identifiers(value: Json): seq<string> {
    match value
    case Arr(elements) => IdentifiersOfAll(elements)
    case Str(chars) => Tokens(chars)
    case Num(text) => [text]
    case _ => []
  }

  function IdentifiersOfAll(values: seq<Json>): seq<string> {
    if values == [] then [] else Identifiers(values[0]) + IdentifiersOfAll(values[1..])
  }

  function ResolveTokens(engine: Engine, templates: seq<CompiledTemplate>, record: Record): Result<seq<string>, TemplateError> {
    if templates == [] then Ok([])
    else
      var before := ResolveTokens(engine, templates[..|templates| - 1], record);
      if before.Err? then before
      else
        match Resolve(engine, templates[|templates| - 1], record)
        case Err(error) => Err(error)
        case Ok(value) => Ok(before.value + Identifiers(value))
  }

  // ---- What resolution yields ----

  function Dotted(segments: seq<string>): string
    requires segments != []
  {
    if |segments| == 1 then segments[0] else segments[0] + "." + Dotted(segments[1..])
  }

  lemma {:induction false} SegmentOf(text: string, rest: string)
    requires '.' !in text
    ensures Segments(text + "." + rest) == [text] + Segments(rest) && Segments(text) == [text]
  {
    if text == [] {
      assert text + "." + rest == "." + rest && ("." + rest)[1..] == rest;
    } else {
      var whole := text + "." + rest;
      assert whole[1..] == text[1..] + "." + rest && whole[0] == text[0];
      SegmentOf(text[1..], rest);
      assert text == [text[0]] + text[1..];
    }
  }

  /** A field path is its segments with dots between, whatever else they hold. */
  lemma {:induction false} PathRoundTrip(segments: seq<string>)
    requires segments != [] && forall segment :: segment in segments ==> '.' !in segment
    ensures Segments(Dotted(segments)) == segments
  {
    assert segments[0] in segments && segments == [segments[0]] + segments[1..];
    if |segments| == 1 {
      SegmentOf(segments[0], "");
    } else {
      PathRoundTrip(segments[1..]);
      SegmentOf(segments[0], Dotted(segments[1..]));
    }
  }

  // A record with a value under a path of nested objects.
  function Nesting(segments: seq<string>, value: Json): Json {
    if segments == [] then value else Obj(map[segments[0] := Nesting(segments[1..], value)])
  }

  lemma {:induction false} LookupNesting(segments: seq<string>, value: Json)
    ensures Lookup(Nesting(segments, value), segments) == Some(value)
  {
    if segments != [] { LookupNesting(segments[1..], value); }
  }

  /** A value at any depth is read by the path of the objects it lies in. */
  lemma NestedFieldIsRead(segments: seq<string>, value: Json, record: Record)
    requires segments != [] && forall segment :: segment in segments ==> '.' !in segment
    requires segments[0] in record && record[segments[0]] == Nesting(segments[1..], value)
    ensures ReadField(Dotted(segments), record) == value
  {
    PathRoundTrip(segments);
    LookupNesting(segments[1..], value);
  }

  // What a part of a composite says over a record, or nothing where its field is absent or empty.
  function Said(engine: Engine, part: TemplatePart, record: Record): Option<string> {
    match part
    case Literal(text) => Some(text)
    case Field(path) =>
      var value := ReadField(path, record);
      if value == Null || value == Str("") then None else Some(if value.Str? then value.chars else engine.prints(value))
  }

  function Strung(texts: seq<string>): string {
    if texts == [] then [] else texts[0] + Strung(texts[1..])
  }

  lemma {:induction false} StrungMore(texts: seq<string>, text: string)
    ensures Strung(texts + [text]) == Strung(texts) + text
  {
    if texts == [] {
      assert [text][1..] == [];
    } else {
      assert (texts + [text])[1..] == texts[1..] + [text];
      StrungMore(texts[1..], text);
    }
  }

  /** A composite is present exactly when every field in it is, and is then its parts strung together. */
  lemma {:induction false} CompositeJoins(engine: Engine, parts: seq<TemplatePart>, record: Record)
    ensures JoinComplete(engine, parts, record).Some? <==> forall i :: 0 <= i < |parts| ==> Said(engine, parts[i], record).Some?
    ensures JoinComplete(engine, parts, record).Some? ==>
              JoinComplete(engine, parts, record).value
              == Strung(seq(|parts|, i requires 0 <= i < |parts| => var said := Said(engine, parts[i], record); if said.Some? then said.value else ""))
  {
    if parts != [] {
      var n := |parts| - 1;
      var init := parts[..n];
      CompositeJoins(engine, init, record);
      assert forall i :: 0 <= i < n ==> init[i] == parts[i];
      if JoinComplete(engine, parts, record).Some? {
        var before := seq(n, i requires 0 <= i < n => var said := Said(engine, init[i], record); if said.Some? then said.value else "");
        var all := seq(|parts|, i requires 0 <= i < |parts| => var said := Said(engine, parts[i], record); if said.Some? then said.value else "");
        assert all == before + [all[n]];
        StrungMore(before, all[n]);
      }
    }
  }

  // The templates before one of them are all present.
  ghost predicate PresentBefore(engine: Engine, templates: seq<CompiledTemplate>, record: Record, n: nat)
    requires n <= |templates|
  {
    forall i :: 0 <= i < n ==> var each := ResolveComplete(engine, templates[i], record); each.Ok? && each.value.Some?
  }

  function TextsOf(engine: Engine, templates: seq<CompiledTemplate>, record: Record): seq<string> {
    if templates == [] then []
    else
      var first := ResolveComplete(engine, templates[0], record);
      [if first.Ok? && first.value.Some? then Written(engine, first.value.value) else ""] + TextsOf(engine, templates[1..], record)
  }

  /**
  The templates of an identifier are decided in order: the first that is absent or fails decides the whole,
  whatever those after it would come to, and with neither the identifier is all of them strung together.
  */
  lemma {:induction false} FirstAbsenceDecides(engine: Engine, templates: seq<CompiledTemplate>, record: Record, combined: string)
    ensures forall n :: 0 <= n < |templates| && PresentBefore(engine, templates, record, n) ==>
              var each := ResolveComplete(engine, templates[n], record);
              && (each.Err? ==> JoinedFrom(engine, templates, record, combined) == Err(each.error))
              && (each == Ok(None) ==> JoinedFrom(engine, templates, record, combined) == Ok(None))
    ensures PresentBefore(engine, templates, record, |templates|) ==>
              JoinedFrom(engine, templates, record, combined) == Ok(Some(combined + Strung(TextsOf(engine, templates, record))))
  {
    if templates != [] {
      var first := ResolveComplete(engine, templates[0], record);
      if first.Ok? && first.value.Some? {
        var text := Written(engine, first.value.value);
        FirstAbsenceDecides(engine, templates[1..], record, combined + text);
        forall n | 0 < n <= |templates| ensures PresentBefore(engine, templates, record, n) ==> PresentBefore(engine, templates[1..], record, n - 1) {
          assert forall i :: 0 <= i < n - 1 ==> templates[1..][i] == templates[i + 1];
        }
        var rest := Strung(TextsOf(engine, templates[1..], record));
        assert Strung(TextsOf(engine, templates, record)) == text + rest;
        assert combined + (text + rest) == combined + text + rest;
      }
    } else {
      assert combined + [] == combined;
    }
  }

  // ---- Tokens ----

  // White space and commas, and nothing else.
  predicate Separates(text: string) {
    forall c :: c in text ==> Text.IsSpace(c) || c == ','
  }

  // Text between tokens: at least one separator.
  predicate IsGap(gap: string) {
    gap != [] && Separates(gap)
  }

  predicate IsToken(token: string) {
    token != [] && forall c :: c in token ==> !Text.IsSpace(c) && c != ','
  }

  // Tokens with a gap before each, as a source field may hold them.
  function Spread(tokens: seq<string>, gaps: seq<string>): string
    requires |gaps| == |tokens|
  {
    if tokens == [] then [] else gaps[0] + tokens[0] + Spread(tokens[1..], gaps[1..])
  }

  lemma {:induction false} GapIsSkipped(gap: string, rest: string)
    requires Separates(gap)
    ensures Tokens(gap + rest) == Tokens(rest)
  {
    if gap == [] {
      assert gap + rest == rest;
    } else {
      assert gap[0] in gap && (gap + rest)[1..] == gap[1..] + rest;
      assert forall c :: c in gap[1..] ==> c in gap;
      GapIsSkipped(gap[1..], rest);
    }
  }

  lemma {:induction false} TokenIsWhole(token: string, rest: string)
    requires (forall c :: c in token ==> !IsSeparator(c)) && (rest == [] || IsSeparator(rest[0]))
    ensures TokenLength(token + rest) == |token|
  {
    if token == [] {
      assert token + rest == rest;
    } else {
      assert token[0] in token && (token + rest)[1..] == token[1..] + rest;
      assert forall c :: c in token[1..] ==> c in token;
      TokenIsWhole(token[1..], rest);
    }
  }

  /** The tokens of a text are exactly the tokens it was made of, whatever white space and commas lie between and around them. */
  lemma {:induction false} TokensOfSpread(tokens: seq<string>, gaps: seq<string>, trailing: string)
    requires |gaps| == |tokens| && (forall token :: token in tokens ==> IsToken(token))
    requires (forall i :: 0 < i < |gaps| ==> IsGap(gaps[i])) && (tokens != [] ==> Separates(gaps[0]))
    requires Separates(trailing)
    ensures Tokens(Spread(tokens, gaps) + trailing) == tokens
  {
    if tokens == [] {
      assert Spread(tokens, gaps) + trailing == trailing + [];
      GapIsSkipped(trailing, []);
    } else {
      var token, rest := tokens[0], Spread(tokens[1..], gaps[1..]) + trailing;
      assert token in tokens && tokens == [token] + tokens[1..];
      assert forall each :: each in tokens[1..] ==> each in tokens;
      assert forall i :: 0 <= i < |gaps| - 1 ==> gaps[1..][i] == gaps[i + 1];
      assert Spread(tokens, gaps) + trailing == gaps[0] + (token + rest);
      GapIsSkipped(gaps[0], token + rest);
      if |tokens| > 1 {
        assert rest[0] == gaps[1][0] && gaps[1][0] in gaps[1];
      } else {
        assert rest == trailing;
        assert trailing != [] ==> trailing[0] in trailing;
      }
      TokenIsWhole(token, rest);
      assert token[0] in token && (token + rest)[..|token|] == token && (token + rest)[|token|..] == rest;
      TokensOfSpread(tokens[1..], gaps[1..], trailing);
    }
  }

  lemma {:induction false} IdentifiersOfBoth(a: seq<Json>, b: seq<Json>)
    ensures IdentifiersOfAll(a + b) == IdentifiersOfAll(a) + IdentifiersOfAll(b)
  {
    if a == [] {
      assert a + b == b;
    } else {
      assert (a + b)[1..] == a[1..] + b;
      IdentifiersOfBoth(a[1..], b);
    }
  }

  lemma IdentifiersOfOne(value: Json)
    ensures IdentifiersOfAll([value]) == Identifiers(value) == Identifiers(Arr([value]))
  {
    assert [value][1..] == [];
  }

  // The tokens of one template's value.
  function TokensOf(engine: Engine, template: CompiledTemplate, record: Record): Result<seq<string>, TemplateError> {
    match Resolve(engine, template, record)
    case Err(error) => Err(error)
    case Ok(value) => Ok(Identifiers(value))
  }

  // One result and then the next, which a failure forestalls.
  function Both(a: Result<seq<string>, TemplateError>, b: Result<seq<string>, TemplateError>): Result<seq<string>, TemplateError> {
    if a.Err? then a else if b.Err? then b else Ok(a.value + b.value)
  }

  lemma BothInAnyGrouping(a: Result<seq<string>, TemplateError>, b: Result<seq<string>, TemplateError>, c: Result<seq<string>, TemplateError>)
    ensures Both(Both(a, b), c) == Both(a, Both(b, c)) && Both(a, Ok([])) == a == Both(Ok([]), a)
  {
    if a.Ok? {
      assert a.value + [] == a.value == [] + a.value;
      if b.Ok? && c.Ok? { assert (a.value + b.value) + c.value == a.value + (b.value + c.value); }
    }
  }

  lemma TokensOfMore(engine: Engine, templates: seq<CompiledTemplate>, template: CompiledTemplate, record: Record)
    ensures ResolveTokens(engine, templates + [template], record) == Both(ResolveTokens(engine, templates, record), TokensOf(engine, template, record))
  {
    assert (templates + [template])[..|templates|] == templates;
  }

  /** The tokens of a list of templates are those of each in order, up to the first that fails. */
  lemma {:induction false} TokensInOrder(engine: Engine, templates: seq<CompiledTemplate>, more: seq<CompiledTemplate>, record: Record)
    ensures ResolveTokens(engine, templates + more, record) == Both(ResolveTokens(engine, templates, record), ResolveTokens(engine, more, record))
    ensures |more| == 1 ==> ResolveTokens(engine, more, record) == TokensOf(engine, more[0], record)
  {
    var a := ResolveTokens(engine, templates, record);
    BothInAnyGrouping(a, Ok([]), Ok([]));
    if more == [] {
      assert templates + more == templates;
    } else {
      var init, last := more[..|more| - 1], more[|more| - 1];
      assert templates + more == (templates + init) + [last] && more == init + [last];
      TokensOfMore(engine, templates + init, last, record);
      TokensOfMore(engine, init, last, record);
      TokensInOrder(engine, templates, init, record);
      BothInAnyGrouping(a, ResolveTokens(engine, init, record), TokensOf(engine, last, record));
      BothInAnyGrouping(TokensOf(engine, last, record), Ok([]), Ok([]));
    }
  }

  /** A composite is there exactly when its fields all are and its text is not empty, and is that text. */
  lemma CompositeIsItsText(engine: Engine, parts: seq<TemplatePart>, record: Record)
    ensures var said := seq(|parts|, i requires 0 <= i < |parts| => var each := Said(engine, parts[i], record); if each.Some? then each.value else "");
            ResolveComplete(engine, Composite(parts), record)
            == Ok(if (forall i :: 0 <= i < |parts| ==> Said(engine, parts[i], record).Some?) && Strung(said) != "" then Some(Str(Strung(said))) else None)
  {
    CompositeJoins(engine, parts, record);
  }

  /** An expression is what is rendered between its padding, decoded; with nothing between, it is null. */
  lemma ExpressionBetweenPadding(engine: Engine, source: string, record: Record, before: string, encoded: string, after: string)
    requires Text.AllSpace(before) && Text.AllSpace(after)
    requires encoded != [] ==> !Text.IsSpace(encoded[0]) && !Text.IsSpace(encoded[|encoded| - 1])
    requires engine.renders(source, record) == Some(before + encoded + after)
    ensures encoded == "" ==> Resolve(engine, Expression(source), record) == Ok(Null)
    ensures encoded != "" ==>
              var decoded := engine.decodes(encoded);
              Resolve(engine, Expression(source), record) == if decoded.Some? then Ok(decoded.value) else Err(Decode(source))
    ensures Resolve(engine, Complex(source), record) == Ok(Str(before + encoded + after))
  {
    Text.TrimTakesPadding(before, encoded, after);
  }

  // ---- What is read, and no more ----

  predicate ReadsKey(read: SourceReads, key: string) {
    read.Everything? || key in read.keys
  }

  /** A field reference reads the one key its lookup starts at, but for the reference that takes the whole record. */
  lemma FieldReadsOneKey(path: string)
    ensures OfField(path) == if path == "context" then Everything else Keys({Segments(path)[0]})
  {
    HeadIsLookedUpFirst(path);
  }

  /** A composite reads exactly the keys its fields start at. */
  lemma {:induction false} CompositeReadsItsFields(parts: seq<TemplatePart>, key: string)
    ensures ReadsKey(ReadsOfParts(parts), key)
            <==> exists i :: 0 <= i < |parts| && parts[i].Field? && (parts[i].path == "context" || Segments(parts[i].path)[0] == key)
  {
    if parts != [] {
      var n := |parts| - 1;
      CompositeReadsItsFields(parts[..n], key);
      assert forall i :: 0 <= i < n ==> parts[..n][i] == parts[i];
      if parts[n].Field? { FieldReadsOneKey(parts[n].path); }
    }
  }

  predicate Around(text: string, before: string, part: string, after: string) {
    text == before + part + after
  }

  /** A text contains a part exactly when it is that part with something, or nothing, around it. */
  lemma {:induction false} ContainsSomewhere(text: string, part: string)
    ensures Contains(text, part) <==> exists before, after :: Around(text, before, part, after)
  {
    if part <= text {
      assert Around(text, [], part, text[|part|..]);
    } else if text != [] {
      ContainsSomewhere(text[1..], part);
      if before, after :| Around(text[1..], before, part, after) {
        assert [text[0]] + text[1..] == text;
        assert Around(text, [text[0]] + before, part, after);
      }
      if before, after :| Around(text, before, part, after) {
        assert before == [] ==> text == part + after;
        assert Around(text[1..], before[1..], part, after);
      }
    } else {
      forall before: string, after: string ensures !Around(text, before, part, after) {
        assert |before + part + after| >= |part| > 0;
      }
    }
  }

  /** An engine template reads exactly what the engine reports, `this` being the whole record, and what the template assigns, unless it names the engine's own variables. */
  lemma EngineTemplateReads(engine: Engine, source: string, key: string)
    ensures ReadsKey(OfEngineTemplate(engine, source), key)
            <==> || (exists before, after :: Around(source, before, "__tera_", after))
                 || "this" in engine.reports(source) || key in engine.reports(source) || key in engine.assigns(source)
  {
    ContainsSomewhere(source, "__tera_");
  }

  // ---- Records that agree resolve alike ----

  lemma FieldReadsAlike(path: string, a: Record, b: Record)
    requires AgreeOn(OfField(path), a, b)
    ensures ReadField(path, a) == ReadField(path, b)
  {
    HeadIsLookedUpFirst(path);
    if !IsWholeRecord(path) {
      var head := Segments(path)[0];
      assert head in OfField(path).keys;
    }
  }

  lemma {:induction false} PartsJoinAlike(engine: Engine, parts: seq<TemplatePart>, a: Record, b: Record)
    requires AgreeOn(ReadsOfParts(parts), a, b)
    ensures JoinComplete(engine, parts, a) == JoinComplete(engine, parts, b)
  {
    if parts != [] {
      var init, last := parts[..|parts| - 1], parts[|parts| - 1];
      if last.Field? {
        AgreeOnBoth(ReadsOfParts(init), OfField(last.path), a, b);
        FieldReadsAlike(last.path, a, b);
      }
      PartsJoinAlike(engine, init, a, b);
    }
  }

  /** A template resolves alike, failures included, over records that agree on what it reads. */
  lemma ResolvesAlike(engine: Engine, template: CompiledTemplate, a: Record, b: Record)
    requires ReportsItsReads(engine) && AgreeOn(ReadsOf(engine, template), a, b)
    ensures Resolve(engine, template, a) == Resolve(engine, template, b)
  {
    match template
    case Static(_) =>
    case Simple(path) => FieldReadsAlike(path, a, b);
    case Composite(parts) => PartsJoinAlike(engine, parts, a, b);
    case Expression(source) => assert engine.renders(source, a) == engine.renders(source, b);
    case Complex(source) => assert engine.renders(source, a) == engine.renders(source, b);
  }

  lemma {:induction false} AllResolveAlike(engine: Engine, templates: seq<CompiledTemplate>, a: Record, b: Record, at: nat)
    requires ReportsItsReads(engine) && AgreeOn(ReadsOfAll(engine, templates), a, b) && at < |templates|
    ensures Resolve(engine, templates[at], a) == Resolve(engine, templates[at], b)
  {
    var n := |templates| - 1;
    AgreeOnBoth(ReadsOfAll(engine, templates[..n]), ReadsOf(engine, templates[n]), a, b);
    if at == n {
      ResolvesAlike(engine, templates[n], a, b);
    } else {
      AllResolveAlike(engine, templates[..n], a, b, at);
    }
  }

  lemma {:induction false} JoinsAlike(engine: Engine, templates: seq<CompiledTemplate>, a: Record, b: Record, combined: string)
    requires forall i :: 0 <= i < |templates| ==> Resolve(engine, templates[i], a) == Resolve(engine, templates[i], b)
    ensures JoinedFrom(engine, templates, a, combined) == JoinedFrom(engine, templates, b, combined)
  {
    if templates != [] {
      var first := ResolveComplete(engine, templates[0], a);
      assert Resolve(engine, templates[0], a) == Resolve(engine, templates[0], b);
      if first.Ok? && first.value.Some? {
        JoinsAlike(engine, templates[1..], a, b, combined + Written(engine, first.value.value));
      }
    }
  }

  lemma {:induction false} TokensAlike(engine: Engine, templates: seq<CompiledTemplate>, a: Record, b: Record)
    requires forall i :: 0 <= i < |templates| ==> Resolve(engine, templates[i], a) == Resolve(engine, templates[i], b)
    ensures ResolveTokens(engine, templates, a) == ResolveTokens(engine, templates, b)
  {
    if templates != [] {
      TokensAlike(engine, templates[..|templates| - 1], a, b);
    }
  }

  /** So do the identifier and the tokens a source's templates produce together. */
  lemma SourcesResolveAlike(engine: Engine, templates: seq<CompiledTemplate>, a: Record, b: Record)
    requires ReportsItsReads(engine) && AgreeOn(ReadsOfAll(engine, templates), a, b)
    ensures ResolveJoined(engine, templates, a) == ResolveJoined(engine, templates, b)
    ensures ResolveTokens(engine, templates, a) == ResolveTokens(engine, templates, b)
  {
    forall i | 0 <= i < |templates| ensures Resolve(engine, templates[i], a) == Resolve(engine, templates[i], b) {
      AllResolveAlike(engine, templates, a, b, i);
    }
    JoinsAlike(engine, templates, a, b, []);
    TokensAlike(engine, templates, a, b);
  }
}
