/** A CSV dialect: the parameters a profiled file is read under. */
module Dialects {
  import opened Wrappers
  import opened CsvAutomaton

  // One ASCII character other than a line break.
  type DialectByte = b: int | 0 <= b < 128 && b != 10 && b != 13 witness 44

  datatype Quote = QuoteChar(quote: DialectByte) | QuotingOff

  datatype Escape = Doubled | EscapeChar(escape: DialectByte)

  datatype LineTerminator = TermLf | TermCrlf | TermCr

  datatype DecimalSeparator = Dot | Comma

  datatype Notation = Notation(decimalSeparator: DecimalSeparator, nullValues: seq<string>)

  // The encoding is held by the index of its canonical name in the encoding standard's table.
  datatype Dialect = Dialect(
    delimiter: DialectByte,
    quoteChar: Quote,
    preamble: nat,
    headerRows: nat,
    escape: Escape,
    terminator: LineTerminator,
    encoding: nat,
    notation: Notation)

  function QuoteByte(q: Quote): Option<byte> {
    if q.QuoteChar? then Some(q.quote) else None
  }

  function EscapeByte(e: Escape): Option<byte> {
    if e.EscapeChar? then Some(e.escape) else None
  }

  // Whether the delimiter, the quote and the escape byte are three different characters.
  predicate HasDistinctBytes(d: Dialect) {
    var delimiter: Option<byte> := Some(d.delimiter);
    var quote := QuoteByte(d.quoteChar);
    var escape := EscapeByte(d.escape);
    (quote.None? || quote != delimiter) && (escape.None? || (escape != delimiter && escape != quote))
  }

  // The configuration both readers split records under.
  function CoreConfig(d: Dialect): Config {
    Config(d.delimiter, QuoteByte(d.quoteChar), EscapeByte(d.escape),
           match d.terminator
           case TermLf => AnyByte(LF)
           case TermCrlf => Crlf
           case TermCr => AnyByte(CR))
  }
}
