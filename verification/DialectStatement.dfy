/**
The `dialect` object of a manifest: a statement of some or all of a dialect's parameters, its members
as a manifest writes them, and the checks between the members.
*/
module DialectStatement {
  import opened Wrappers
  import opened CsvAutomaton
  import opened Text
  import opened Dialects

  // A header of as many records as detection finds, or of exactly this many.
  datatype HeaderStatement = HeaderPresent | HeaderRows(rows: nat)

  datatype Statement = Statement(
    delimiter: Option<DialectByte>,
    quote: Option<Quote>,
    escape: Option<Escape>,
    skipRows: Option<nat>,
    header: Option<HeaderStatement>,
    terminator: Option<LineTerminator>,
    encoding: Option<nat>,
    notation: Notation)

  // The members with each read on its own, before they are checked against each other.
  datatype Raw = Raw(
    delimiter: Option<DialectByte>,
    quote: Option<Quote>,
    escape: Option<Escape>,
    skipRows: Option<nat>,
    header: Option<bool>,
    headerRows: Option<nat>,
    terminator: Option<LineTerminator>,
    encoding: Option<nat>,
    decimalSeparator: Option<DecimalSeparator>,
    nullValues: seq<string>)

  // The members as a manifest writes them.
  datatype Members = Members(
    delimiter: Option<string>,
    quote: Option<string>,
    escape: Option<string>,
    skipRows: Option<nat>,
    header: Option<bool>,
    headerRows: Option<nat>,
    terminator: Option<string>,
    encoding: Option<string>,
    decimalSeparator: Option<string>,
    nullValues: seq<string>)

  datatype DialectError =
    | InvalidByte
    | UnknownTerminator
    | UnknownEncoding
    | UndecodableEncoding
    | UnknownSeparator
    | BlankNullToken
    | DelimiterIsQuote(byte: DialectByte)
    | DelimiterIsEscape(byte: DialectByte)
    | EscapeWithoutQuote
    | EscapeIsQuote(byte: DialectByte)
    | HeaderPresentWithoutRows
    | HeaderAbsentWithRows(rows: nat)

  // The encoding library's tables: the label lookup, the canonical names, and the replacement
  // encoding, in which no file can be read.
  datatype Encodings = Encodings(forLabel: string -> Option<nat>, name: nat -> string, replacement: nat)

  // Every encoding is found again by its canonical name.
  ghost predicate NamesResolve(encodings: Encodings) {
    forall e: nat :: encodings.forLabel(encodings.name(e)) == Some(e)
  }

  // ---- Members on their own ----

  function Read<A, B>(member: Option<A>, parse: A -> Result<B, DialectError>): Result<Option<B>, DialectError> {
    if member.None? then Ok(None)
    else
      var r := parse(member.value);
      if r.Ok? then Ok(Some(r.value)) else Err(r.error)
  }

  function Write<A, B>(member: Option<A>, write: A -> B): Option<B> {
    if member.None? then None else Some(write(member.value))
  }

  function ByteText(b: DialectByte): string {
    [b as char]
  }

  function ParseByte(text: string): Result<DialectByte, DialectError> {
    if |text| == 1 && text[0] as int < 128 && text[0] != '\n' && text[0] != '\r' then Ok(text[0] as int) else Err(InvalidByte)
  }

  function QuoteText(q: Quote): string {
    if q.QuoteChar? then ByteText(q.quote) else "none"
  }

  function ParseQuote(text: string): Result<Quote, DialectError> {
    if text == "none" then Ok(QuotingOff)
    else
      var b := ParseByte(text);
      if b.Ok? then Ok(QuoteChar(b.value)) else Err(b.error)
  }

  function EscapeText(e: Escape): string {
    if e.EscapeChar? then ByteText(e.escape) else "double"
  }

  function ParseEscape(text: string): Result<Escape, DialectError> {
    if text == "double" then Ok(Doubled)
    else
      var b := ParseByte(text);
      if b.Ok? then Ok(EscapeChar(b.value)) else Err(b.error)
  }

  function TerminatorText(t: LineTerminator): string {
    match t
    case TermLf => "lf"
    case TermCrlf => "crlf"
    case TermCr => "cr"
  }

  function ParseTerminator(text: string): Result<LineTerminator, DialectError> {
    if text == "lf" then Ok(TermLf) else if text == "crlf" then Ok(TermCrlf) else if text == "cr" then Ok(TermCr) else Err(UnknownTerminator)
  }

  function SeparatorText(s: DecimalSeparator): string {
    if s.Dot? then "." else ","
  }

  function ParseSeparator(text: string): Result<DecimalSeparator, DialectError> {
    if text == "." then Ok(Dot) else if text == "," then Ok(Comma) else Err(UnknownSeparator)
  }

  function ParseEncoding(encodings: Encodings, name: string): Result<nat, DialectError> {
    var e := encodings.forLabel(name);
    if e.None? then Err(UnknownEncoding) else if e.value == encodings.replacement then Err(UndecodableEncoding) else Ok(e.value)
  }

  // A null token is held trimmed, and a blank one is refused.
  predicate IsNullToken(text: string) {
    text != [] && Trim(text) == text
  }

  function ParseTokens(texts: seq<string>): (r: Result<seq<string>, DialectError>)
    ensures r.Ok? ==> forall i :: 0 <= i < |r.value| ==> IsNullToken(r.value[i])
    ensures (forall i :: 0 <= i < |texts| ==> IsNullToken(texts[i])) ==> r == Ok(texts)
  {
    if texts == [] then Ok([])
    else
      var rest := ParseTokens(texts[1..]);
      if Trim(texts[0]) == [] then Err(BlankNullToken)
      else if rest.Err? then rest
      else
        TrimTwice(texts[0]);
        assert texts == [texts[0]] + texts[1..];
        Ok([Trim(texts[0])] + rest.value)
  }

  // Reads each member on its own; the first that cannot be read is the error.
  function ReadMembers(encodings: Encodings, m: Members): Result<Raw, DialectError> {
    var delimiter := Read(m.delimiter, ParseByte);
    var quote := Read(m.quote, ParseQuote);
    var escape := Read(m.escape, ParseEscape);
    var terminator := Read(m.terminator, ParseTerminator);
    var encoding := Read(m.encoding, name => ParseEncoding(encodings, name));
    var separator := Read(m.decimalSeparator, ParseSeparator);
    var tokens := ParseTokens(m.nullValues);
    if delimiter.Err? then Err(delimiter.error)
    else if quote.Err? then Err(quote.error)
    else if escape.Err? then Err(escape.error)
    else if terminator.Err? then Err(terminator.error)
    else if encoding.Err? then Err(encoding.error)
    else if separator.Err? then Err(separator.error)
    else if tokens.Err? then Err(tokens.error)
    else Ok(Raw(delimiter.value, quote.value, escape.value, m.skipRows, m.header, m.headerRows,
                terminator.value, encoding.value, separator.value, tokens.value))
  }

  function WriteMembers(encodings: Encodings, raw: Raw): Members {
    Members(Write(raw.delimiter, ByteText), Write(raw.quote, QuoteText), Write(raw.escape, EscapeText), raw.skipRows,
            raw.header, raw.headerRows, Write(raw.terminator, TerminatorText), Write(raw.encoding, encodings.name),
            Write(raw.decimalSeparator, SeparatorText), raw.nullValues)
  }

  // ---- The header's two members ----

  function FromMembers(header: Option<bool>, rows: Option<nat>): Result<Option<HeaderStatement>, DialectError> {
    if rows.None? then
      if header.None? then Ok(None)
      else Ok(Some(if header.value then HeaderPresent else HeaderRows(0)))
    else if header == Some(true) && rows.value == 0 then Err(HeaderPresentWithoutRows)
    else if header == Some(false) && rows.value > 0 then Err(HeaderAbsentWithRows(rows.value))
    else Ok(Some(HeaderRows(rows.value)))
  }

  function ToMembers(h: HeaderStatement): (Option<bool>, Option<nat>) {
    match h
    case HeaderPresent => (Some(true), None)
    case HeaderRows(n) => if n > 0 then (None, Some(n)) else (Some(false), None)
  }

  // ---- Statements ----

  // Checks the members against each other.
  function FromRaw(raw: Raw): Result<Statement, DialectError> {
    if raw.delimiter.Some? && raw.quote.Some? && raw.quote.value == QuoteChar(raw.delimiter.value) then
      Err(DelimiterIsQuote(raw.delimiter.value))
    else if raw.delimiter.Some? && raw.escape.Some? && raw.escape.value == EscapeChar(raw.delimiter.value) then
      Err(DelimiterIsEscape(raw.delimiter.value))
    else if raw.escape.Some? && raw.quote == Some(QuotingOff) then
      Err(EscapeWithoutQuote)
    else if raw.escape.Some? && raw.quote.Some? && raw.escape.value.EscapeChar? && raw.quote.value == QuoteChar(raw.escape.value.escape) then
      Err(EscapeIsQuote(raw.escape.value.escape))
    else
      var header := FromMembers(raw.header, raw.headerRows);
      if header.Err? then Err(header.error)
      else
        Ok(Statement(raw.delimiter, raw.quote, raw.escape, raw.skipRows, header.value, raw.terminator, raw.encoding,
                     Notation(if raw.decimalSeparator.Some? then raw.decimalSeparator.value else Dot, raw.nullValues)))
  }

  function ToRaw(s: Statement): Raw {
    var (header, headerRows) := if s.header.None? then (None, None) else ToMembers(s.header.value);
    var separator := s.notation.decimalSeparator;
    Raw(s.delimiter, s.quote, s.escape, s.skipRows, header, headerRows, s.terminator, s.encoding,
        if separator != Dot then Some(separator) else None, s.notation.nullValues)
  }

  /** Reads a manifest's `dialect` object. */
  function Parse(encodings: Encodings, m: Members): Result<Statement, DialectError> {
    var raw := ReadMembers(encodings, m);
    if raw.Err? then Err(raw.error) else FromRaw(raw.value)
  }

  /** Writes a statement as a manifest's `dialect` object. */
  function Print(encodings: Encodings, s: Statement): Members {
    WriteMembers(encodings, ToRaw(s))
  }

  /** States every member of a dialect, leaving an escape out where unstated means the same. */
  function StatementOf(d: Dialect): Statement {
    var escape := if d.quoteChar.QuoteChar? && d.escape.EscapeChar? then Some(d.escape) else None;
    Statement(Some(d.delimiter), Some(d.quoteChar), escape, Some(d.preamble), Some(HeaderRows(d.headerRows)),
              Some(d.terminator), Some(d.encoding), d.notation)
  }

  /** The dialect a statement of every structural member describes. */
  function WholeDialect(s: Statement): Option<Dialect> {
    if s.header.Some? && s.header.value.HeaderRows? && s.delimiter.Some? && s.quote.Some? && s.skipRows.Some?
       && s.terminator.Some? && s.encoding.Some?
    then Some(Dialect(s.delimiter.value, s.quote.value, s.skipRows.value, s.header.value.rows,
                      if s.escape.Some? then s.escape.value else Doubled, s.terminator.value, s.encoding.value, s.notation))
    else None
  }

  // ---- Round trips ----

  predicate HoldsTokens(n: Notation) {
    forall i :: 0 <= i < |n.nullValues| ==> IsNullToken(n.nullValues[i])
  }

  // With quoting off an escape has no field to act in, and is read as doubling.
  function Normalised(d: Dialect): Dialect {
    if d.quoteChar.QuotingOff? then d.(escape := Doubled) else d
  }

  // A member survives being written and read when each of its values does.
  lemma MembersSurvive(encodings: Encodings, raw: Raw)
    requires NamesResolve(encodings)
    requires forall i :: 0 <= i < |raw.nullValues| ==> IsNullToken(raw.nullValues[i])
    ensures raw.encoding != Some(encodings.replacement) ==> ReadMembers(encodings, WriteMembers(encodings, raw)) == Ok(raw)
    ensures raw.encoding == Some(encodings.replacement) ==> ReadMembers(encodings, WriteMembers(encodings, raw)).Err?
  {
    if raw.delimiter.Some? {
      assert ParseByte(ByteText(raw.delimiter.value)) == Ok(raw.delimiter.value);
    }
    if raw.quote.Some? {
      assert ParseQuote(QuoteText(raw.quote.value)) == Ok(raw.quote.value);
    }
    if raw.escape.Some? {
      assert ParseEscape(EscapeText(raw.escape.value)) == Ok(raw.escape.value);
    }
    if raw.terminator.Some? {
      assert ParseTerminator(TerminatorText(raw.terminator.value)) == Ok(raw.terminator.value);
    }
    if raw.decimalSeparator.Some? {
      assert ParseSeparator(SeparatorText(raw.decimalSeparator.value)) == Ok(raw.decimalSeparator.value);
    }
  }

  /**
  A dialect that is stated, written and read back is the same dialect, up to an escape without a
  quote, exactly when its delimiter, quote and escape that have a part to play are distinct and files
  can be read in its encoding; any other is refused.
  */
  lemma DialectRoundTrip(encodings: Encodings, d: Dialect)
    requires NamesResolve(encodings) && HoldsTokens(d.notation)
    ensures var back := Parse(encodings, Print(encodings, StatementOf(d)));
            if HasDistinctBytes(Normalised(d)) && d.encoding != encodings.replacement then
              back == Ok(StatementOf(d)) && WholeDialect(back.value) == Some(Normalised(d))
            else
              back.Err?
  {
    MembersSurvive(encodings, ToRaw(StatementOf(d)));
  }

  // What one read member holds is what its text says.
  lemma AcceptedMembers(encodings: Encodings, m: Members)
    requires ReadMembers(encodings, m).Ok?
    ensures ReadMembers(encodings, m).value.encoding != Some(encodings.replacement)
    ensures forall i :: 0 <= i < |ReadMembers(encodings, m).value.nullValues| ==> IsNullToken(ReadMembers(encodings, m).value.nullValues[i])
  {
  }

  /** Every accepted statement survives being written and read. */
  lemma StatementRoundTrip(encodings: Encodings, m: Members)
    requires NamesResolve(encodings) && Parse(encodings, m).Ok?
    ensures Parse(encodings, Print(encodings, Parse(encodings, m).value)) == Parse(encodings, m)
  {
    AcceptedMembers(encodings, m);
    var s := Parse(encodings, m).value;
    MembersSurvive(encodings, ToRaw(s));
  }

  // The members of the header contradict each other.
  predicate HeaderClashes(m: Members) {
    m.header.Some? && m.headerRows.Some? && (m.header.value <==> m.headerRows.value == 0)
  }

  // A stated byte has a part another stated member gives to it already, or no part at all.
  predicate BytesClash(raw: Raw) {
    || (raw.delimiter.Some? && raw.quote == Some(QuoteChar(raw.delimiter.value)))
    || (raw.delimiter.Some? && raw.escape == Some(EscapeChar(raw.delimiter.value)))
    || (raw.escape.Some? && raw.quote.Some? && (raw.quote.value.QuotingOff? || raw.escape.value == EscapeChar(raw.quote.value.quote)))
  }

  /** A statement is accepted exactly when each member reads on its own and no two clash, and then says what each says. */
  lemma AcceptedExactly(encodings: Encodings, m: Members)
    ensures Parse(encodings, m).Ok? <==>
            ReadMembers(encodings, m).Ok? && !BytesClash(ReadMembers(encodings, m).value) && !HeaderClashes(m)
    ensures Parse(encodings, m).Ok? ==>
              var s, raw := Parse(encodings, m).value, ReadMembers(encodings, m).value;
              && s.delimiter == raw.delimiter && s.quote == raw.quote && s.escape == raw.escape && s.skipRows == m.skipRows
              && s.terminator == raw.terminator && s.encoding == raw.encoding && s.notation.nullValues == raw.nullValues
              && s.notation.decimalSeparator == (if raw.decimalSeparator.Some? then raw.decimalSeparator.value else Dot)
  {
  }

  /** A stated count is the header, whatever the flag says; a flag alone is a header to be found, or none. */
  lemma HeaderIsAsStated(encodings: Encodings, m: Members)
    requires Parse(encodings, m).Ok?
    ensures var header := Parse(encodings, m).value.header;
            && (m.headerRows.Some? ==> header == Some(HeaderRows(m.headerRows.value)))
            && (m.headerRows.None? && m.header == Some(true) ==> header == Some(HeaderPresent))
            && (m.headerRows.None? && m.header == Some(false) ==> header == Some(HeaderRows(0)))
            && (m.headerRows.None? && m.header.None? ==> header.None?)
  {
  }

  // A text member that holds no other text than those its values are written as.
  ghost predicate ReadsAs<A>(text: string, value: Result<A, DialectError>, write: A -> string) {
    value.Ok? ==> write(value.value) == text
  }

  /** No two texts are read as one value: a delimiter, quote, escape, terminator, or separator that is read is written as it was. */
  lemma ReadTextsAreWritten(text: string)
    ensures ReadsAs(text, ParseByte(text), ByteText) && ReadsAs(text, ParseQuote(text), QuoteText)
    ensures ReadsAs(text, ParseEscape(text), EscapeText) && ReadsAs(text, ParseTerminator(text), TerminatorText)
    ensures ReadsAs(text, ParseSeparator(text), SeparatorText)
  {
  }

  /** The whole dialect of an accepted statement has distinct bytes, and states itself as it was stated,
      save for a stated doubling. */
  lemma WholeDialectIsSound(encodings: Encodings, m: Members)
    requires Parse(encodings, m).Ok? && WholeDialect(Parse(encodings, m).value).Some?
    ensures var s := Parse(encodings, m).value;
            var d := WholeDialect(s).value;
            && HasDistinctBytes(d) && Normalised(d) == d && d.encoding != encodings.replacement
            && StatementOf(d) == if s.escape == Some(Doubled) then s.(escape := None) else s
  {
    AcceptedMembers(encodings, m);
  }

  // ---- Normalising loses nothing ----

  predicate OutsideQuotes(st: State) {
    st != Quoted && st != Escaped && st != QuoteSeen
  }

  lemma {:induction false} UnquotedIgnoresEscape(a: Config, b: Config, st: State, p: Partial, bytes: seq<byte>)
    requires a.quote.None? && b == a.(escape := b.escape) && OutsideQuotes(st)
    ensures ReadAll(a, st, p, bytes) == ReadAll(b, st, p, bytes)
    decreases |bytes|
  {
    if bytes != [] {
      var (next, effect) := Next(a, st, bytes[0]);
      assert Next(b, st, bytes[0]) == (next, effect) && OutsideQuotes(next);
      UnquotedIgnoresEscape(a, b, next, Apply(p, effect), bytes[1..]);
    }
  }

  /** A dialect and its normalised form read every file alike. */
  lemma NormalisedReadsAlike(d: Dialect, bytes: seq<byte>)
    ensures Records(CoreConfig(d), bytes) == Records(CoreConfig(Normalised(d)), bytes)
  {
    if d.quoteChar.QuotingOff? {
      UnquotedIgnoresEscape(CoreConfig(d), CoreConfig(Normalised(d)), RecordStart, NOTHING_READ, bytes);
    }
  }
}
