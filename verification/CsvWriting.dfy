/**
Writing records as a CSV file, and reading them back.

The writer is section 2 of RFC 4180 under a dialect, in every form it allows: a field may be quoted, bare,
or a quoted part with a bare rest, and blank lines may stand before a record. It knows nothing of the
state machine that reads what it writes.
*/
module CsvWriting {
  import opened Wrappers
  import opened CsvAutomaton
  import opened Dialects
  import TableReading

  type Bytes = seq<byte>

  // A field as it is written: a part in quotes, if any, and then a part without.
  datatype Cell = Cell(quoted: Option<Bytes>, bare: Bytes)

  datatype Line = Line(blanks: nat, cells: seq<Cell>)

  function Held(cell: Cell): Bytes {
    (if cell.quoted.Some? then cell.quoted.value else []) + cell.bare
  }

  function HeldByAll(cells: seq<Cell>): Record {
    if cells == [] then [] else [Held(cells[0])] + HeldByAll(cells[1..])
  }

  function HeldByLines(lines: seq<Line>): seq<Record> {
    if lines == [] then [] else [HeldByAll(lines[0].cells)] + HeldByLines(lines[1..])
  }

  function LineEnd(d: Dialect): Bytes {
    match d.terminator
    case TermLf => [LF]
    case TermCrlf => [CR, LF]
    case TermCr => [CR]
  }

  // Within quotes a quote is doubled, and an escape byte escapes itself.
  function QuotedByte(d: Dialect, b: byte): Bytes {
    if QuoteByte(d.quoteChar) == Some(b) || EscapeByte(d.escape) == Some(b) then [b, b] else [b]
  }

  function QuotedBytes(d: Dialect, bytes: Bytes): Bytes {
    if bytes == [] then [] else QuotedByte(d, bytes[0]) + QuotedBytes(d, bytes[1..])
  }

  function WrittenCell(d: Dialect, cell: Cell): Bytes {
    (if cell.quoted.Some? && d.quoteChar.QuoteChar? then [d.quoteChar.quote] + QuotedBytes(d, cell.quoted.value) + [d.quoteChar.quote] else [])
    + cell.bare
  }

  // The fields of a record after its first, each behind a delimiter.
  function WrittenRest(d: Dialect, cells: seq<Cell>): Bytes {
    if cells == [] then [] else [d.delimiter] + WrittenCell(d, cells[0]) + WrittenRest(d, cells[1..])
  }

  function WrittenRecord(d: Dialect, cells: seq<Cell>): Bytes
    requires cells != []
  {
    WrittenCell(d, cells[0]) + WrittenRest(d, cells[1..])
  }

  function BlankLines(d: Dialect, blanks: nat): Bytes {
    if blanks == 0 then [] else LineEnd(d) + BlankLines(d, blanks - 1)
  }

  function WrittenLine(d: Dialect, line: Line, end: Bytes): Bytes
    requires line.cells != []
  {
    BlankLines(d, line.blanks) + WrittenRecord(d, line.cells) + end
  }

  predicate HoldFields(lines: seq<Line>) {
    forall line :: line in lines ==> line.cells != []
  }

  // The end of the file may stand for the last line end.
  function Written(d: Dialect, lines: seq<Line>, ended: bool): Bytes
    requires HoldFields(lines)
  {
    if lines == [] then []
    else WrittenLine(d, lines[0], if |lines| == 1 && !ended then [] else LineEnd(d)) + Written(d, lines[1..], ended)
  }

  // A bare part holds no delimiter and no byte of a line end, and does not begin with a quote; a part in
  // quotes needs a quote to be written with.
  predicate MayWriteCell(d: Dialect, cell: Cell) {
    && (cell.quoted.Some? ==> d.quoteChar.QuoteChar?)
    && (forall b :: b in cell.bare ==> b != d.delimiter && b !in LineEnd(d))
    && (cell.bare != [] ==> QuoteByte(d.quoteChar) != Some(cell.bare[0]))
  }

  // A record is not written as a blank line.
  predicate MayWriteRecord(d: Dialect, cells: seq<Cell>) {
    && cells != []
    && (forall cell :: cell in cells ==> MayWriteCell(d, cell))
    && cells != [Cell(None, [])]
  }

  predicate MayWrite(d: Dialect, lines: seq<Line>) {
    forall line :: line in lines ==> MayWriteRecord(d, line.cells)
  }

  // ---- Reading on ----

  // What is read next does not depend on how a field's first byte was reached.
  lemma ReadOne(cfg: Config, st: State, p: Partial, b: byte, rest: Bytes)
    ensures var (next, effect) := Next(cfg, st, b);
            ReadAll(cfg, st, p, [b] + rest) == (if effect.EndRecord? then [Complete(p)] else []) + ReadAll(cfg, next, Apply(p, effect), rest)
  {
    assert ([b] + rest)[1..] == rest;
  }

  lemma QuotedByteReads(d: Dialect, p: Partial, b: byte, rest: Bytes)
    requires d.quoteChar.QuoteChar? && HasDistinctBytes(d)
    ensures ReadAll(CoreConfig(d), Quoted, p, QuotedByte(d, b) + rest) == ReadAll(CoreConfig(d), Quoted, p.(field := p.field + [b]), rest)
  {
    if QuotedByte(d, b) == [b] {
      ReadOne(CoreConfig(d), Quoted, p, b, rest);
    } else {
      assert QuotedByte(d, b) + rest == [b] + ([b] + rest);
      TwiceReadsOnce(CoreConfig(d), p, b, rest);
    }
  }

  // A doubled quote, or an escape byte that escapes itself.
  lemma TwiceReadsOnce(cfg: Config, p: Partial, b: byte, rest: Bytes)
    requires cfg.quote == Some(b) || cfg.escape == Some(b)
    ensures ReadAll(cfg, Quoted, p, [b] + ([b] + rest)) == ReadAll(cfg, Quoted, p.(field := p.field + [b]), rest)
  {
    ReadOne(cfg, Quoted, p, b, [b] + rest);
    ReadOne(cfg, Next(cfg, Quoted, b).0, p, b, rest);
  }

  lemma {:induction false} QuotedReads(d: Dialect, p: Partial, bytes: Bytes, rest: Bytes)
    requires d.quoteChar.QuoteChar? && HasDistinctBytes(d)
    ensures ReadAll(CoreConfig(d), Quoted, p, QuotedBytes(d, bytes) + rest) == ReadAll(CoreConfig(d), Quoted, p.(field := p.field + bytes), rest)
    decreases |bytes|
  {
    if bytes == [] {
      assert QuotedBytes(d, bytes) + rest == rest && p.field + bytes == p.field;
    } else {
      var more := QuotedBytes(d, bytes[1..]) + rest;
      assert QuotedBytes(d, bytes) + rest == QuotedByte(d, bytes[0]) + more;
      QuotedByteReads(d, p, bytes[0], more);
      var read := p.(field := p.field + [bytes[0]]);
      QuotedReads(d, read, bytes[1..], rest);
      assert p.field + bytes == read.field + bytes[1..];
    }
  }

  // Where a field can begin, go on bare, or have closed its quotes.
  predicate InBare(st: State) {
    st == Unquoted || st == QuoteSeen
  }

  lemma {:induction false} BareReads(d: Dialect, st: State, p: Partial, bytes: Bytes, rest: Bytes) returns (after: State)
    requires st.FieldStart? || st.RecordStart? || InBare(st)
    requires MayWriteCell(d, Cell(None, bytes)) || (st.Unquoted? && forall b :: b in bytes ==> b != d.delimiter && b !in LineEnd(d))
    ensures ReadAll(CoreConfig(d), st, p, bytes + rest) == ReadAll(CoreConfig(d), after, p.(field := p.field + bytes), rest)
    ensures after == if bytes == [] then st else Unquoted
    decreases |bytes|
  {
    var cfg := CoreConfig(d);
    after := st;
    if bytes == [] {
      assert bytes + rest == rest && p.field + bytes == p.field;
    } else {
      var b, more := bytes[0], bytes[1..] + rest;
      assert bytes + rest == [b] + more;
      ReadOne(cfg, st, p, b, more);
      assert b in bytes && Next(cfg, st, b) == (Unquoted, Copy(b));
      var read := p.(field := p.field + [b]);
      assert p.field + bytes == read.field + bytes[1..];
      assert forall c :: c in bytes[1..] ==> c in bytes;
      after := BareReads(d, Unquoted, read, bytes[1..], rest);
    }
  }

  // The quotes open and close, and are not part of the field.
  lemma QuotesRead(d: Dialect, st: State, p: Partial, bytes: Bytes, rest: Bytes)
    requires HasDistinctBytes(d) && d.quoteChar.QuoteChar? && (st.FieldStart? || st.RecordStart?) && p.field == []
    ensures ReadAll(CoreConfig(d), st, p, [d.quoteChar.quote] + QuotedBytes(d, bytes) + [d.quoteChar.quote] + rest)
            == ReadAll(CoreConfig(d), QuoteSeen, p.(field := bytes), rest)
  {
    var cfg, q := CoreConfig(d), d.quoteChar.quote;
    assert [q] + QuotedBytes(d, bytes) + [q] + rest == [q] + (QuotedBytes(d, bytes) + ([q] + rest));
    ReadOne(cfg, st, p, q, QuotedBytes(d, bytes) + ([q] + rest));
    QuotedReads(d, p, bytes, [q] + rest);
    assert p.field + bytes == bytes;
    ReadOne(cfg, Quoted, p.(field := bytes), q, rest);
  }

  lemma CellReads(d: Dialect, st: State, p: Partial, cell: Cell, rest: Bytes) returns (after: State)
    requires HasDistinctBytes(d) && MayWriteCell(d, cell) && (st.FieldStart? || st.RecordStart?) && p.field == []
    ensures ReadAll(CoreConfig(d), st, p, WrittenCell(d, cell) + rest) == ReadAll(CoreConfig(d), after, p.(field := Held(cell)), rest)
    ensures InBare(after) || (after == st && cell == Cell(None, []))
  {
    if cell.quoted.Some? {
      after := QuotedCellReads(d, st, p, cell, rest);
    } else {
      assert WrittenCell(d, cell) == cell.bare && Held(cell) == cell.bare && p.field + cell.bare == cell.bare;
      assert cell == Cell(None, cell.bare);
      after := BareReads(d, st, p, cell.bare, rest);
    }
  }

  lemma QuotedCellReads(d: Dialect, st: State, p: Partial, cell: Cell, rest: Bytes) returns (after: State)
    requires HasDistinctBytes(d) && MayWriteCell(d, cell) && cell.quoted.Some? && (st.FieldStart? || st.RecordStart?) && p.field == []
    ensures ReadAll(CoreConfig(d), st, p, WrittenCell(d, cell) + rest) == ReadAll(CoreConfig(d), after, p.(field := Held(cell)), rest)
    ensures InBare(after)
  {
    var q, quoted := d.quoteChar.quote, cell.quoted.value;
    assert WrittenCell(d, cell) + rest == [q] + QuotedBytes(d, quoted) + [q] + (cell.bare + rest);
    QuotesRead(d, st, p, quoted, cell.bare + rest);
    assert MayWriteCell(d, Cell(None, cell.bare));
    after := BareReads(d, QuoteSeen, p.(field := quoted), cell.bare, rest);
  }

  lemma DelimiterReads(d: Dialect, st: State, p: Partial, rest: Bytes)
    requires HasDistinctBytes(d) && (InBare(st) || st.FieldStart? || st.RecordStart?)
    ensures ReadAll(CoreConfig(d), st, p, [d.delimiter] + rest) == ReadAll(CoreConfig(d), FieldStart, Partial(Complete(p), []), rest)
  {
    ReadOne(CoreConfig(d), st, p, d.delimiter, rest);
  }

  // A delimiter and the field behind it.
  lemma FieldReads(d: Dialect, st: State, p: Partial, cell: Cell, rest: Bytes) returns (after: State)
    requires HasDistinctBytes(d) && MayWriteCell(d, cell) && (InBare(st) || st.FieldStart? || st.RecordStart?)
    ensures InBare(after) || after.FieldStart?
    ensures ReadAll(CoreConfig(d), st, p, [d.delimiter] + WrittenCell(d, cell) + rest)
            == ReadAll(CoreConfig(d), after, Partial(Complete(p), Held(cell)), rest)
  {
    assert [d.delimiter] + WrittenCell(d, cell) + rest == [d.delimiter] + (WrittenCell(d, cell) + rest);
    DelimiterReads(d, st, p, WrittenCell(d, cell) + rest);
    after := CellReads(d, FieldStart, Partial(Complete(p), []), cell, rest);
  }

  predicate Ends(d: Dialect, end: Bytes, rest: Bytes) {
    end == LineEnd(d) || (end == [] && rest == [])
  }

  // Behind a field, the line end or the end of the file completes the record, and the rest is read afresh.
  lemma EndReads(d: Dialect, st: State, p: Partial, end: Bytes, rest: Bytes)
    requires HasDistinctBytes(d) && (InBare(st) || st.FieldStart?) && Ends(d, end, rest)
    ensures ReadAll(CoreConfig(d), st, p, end + rest) == [Complete(p)] + Records(CoreConfig(d), rest)
  {
    var cfg := CoreConfig(d);
    if end == [] {
      assert end + rest == [];
    } else if d.terminator.TermCrlf? {
      assert end + rest == [CR] + ([LF] + rest);
      CrlfReads(cfg, st, p, rest);
    } else {
      ReadOne(cfg, st, p, end[0], rest);
    }
  }

  lemma CrlfReads(cfg: Config, st: State, p: Partial, rest: Bytes)
    requires cfg.terminator.Crlf? && (InBare(st) || st.FieldStart?) && cfg.delimiter != CR && cfg.quote != Some(CR)
    ensures ReadAll(cfg, st, p, [CR] + ([LF] + rest)) == [Complete(p)] + Records(cfg, rest)
  {
    ReadOne(cfg, st, p, CR, [LF] + rest);
    ReadOne(cfg, AfterCr, NOTHING_READ, LF, rest);
  }

  lemma {:induction false} RestReads(d: Dialect, st: State, p: Partial, cells: seq<Cell>, end: Bytes, rest: Bytes)
    requires HasDistinctBytes(d) && (InBare(st) || st.FieldStart? || (st.RecordStart? && cells != [])) && Ends(d, end, rest)
    requires forall cell :: cell in cells ==> MayWriteCell(d, cell)
    ensures ReadAll(CoreConfig(d), st, p, WrittenRest(d, cells) + end + rest)
            == [Complete(p) + HeldByAll(cells)] + Records(CoreConfig(d), rest)
    decreases |cells|
  {
    if cells == [] {
      assert WrittenRest(d, cells) + end + rest == end + rest && Complete(p) + HeldByAll(cells) == Complete(p);
      EndReads(d, st, p, end, rest);
    } else {
      var more := WrittenRest(d, cells[1..]) + end + rest;
      assert WrittenRest(d, cells) + end + rest == [d.delimiter] + WrittenCell(d, cells[0]) + more;
      var after := FieldReads(d, st, p, cells[0], more);
      var read := Partial(Complete(p), Held(cells[0]));
      RestReads(d, after, read, cells[1..], end, rest);
      assert Complete(read) + HeldByAll(cells[1..]) == Complete(p) + HeldByAll(cells);
    }
  }

  lemma RecordReads(d: Dialect, cells: seq<Cell>, end: Bytes, rest: Bytes)
    requires HasDistinctBytes(d) && MayWriteRecord(d, cells) && Ends(d, end, rest)
    ensures Records(CoreConfig(d), WrittenRecord(d, cells) + end + rest) == [HeldByAll(cells)] + Records(CoreConfig(d), rest)
  {
    var more := WrittenRest(d, cells[1..]) + end + rest;
    assert WrittenRecord(d, cells) + end + rest == WrittenCell(d, cells[0]) + more;
    assert cells == [cells[0]] + cells[1..];
    var after := CellReads(d, RecordStart, NOTHING_READ, cells[0], more);
    var read := NOTHING_READ.(field := Held(cells[0]));
    RestReads(d, after, read, cells[1..], end, rest);
    assert Complete(read) + HeldByAll(cells[1..]) == HeldByAll(cells);
  }

  /** A blank line holds no record. */
  lemma {:induction false} BlankLinesHoldNothing(d: Dialect, blanks: nat, rest: Bytes)
    ensures Records(CoreConfig(d), BlankLines(d, blanks) + rest) == Records(CoreConfig(d), rest)
  {
    if blanks == 0 {
      assert BlankLines(d, blanks) + rest == rest;
    } else {
      var cfg, more := CoreConfig(d), BlankLines(d, blanks - 1) + rest;
      if d.terminator.TermCrlf? {
        assert BlankLines(d, blanks) + rest == [CR] + ([LF] + more);
        ReadOne(cfg, RecordStart, NOTHING_READ, CR, [LF] + more);
        ReadOne(cfg, RecordStart, NOTHING_READ, LF, more);
      } else {
        assert BlankLines(d, blanks) + rest == LineEnd(d) + more;
        ReadOne(cfg, RecordStart, NOTHING_READ, LineEnd(d)[0], more);
      }
      BlankLinesHoldNothing(d, blanks - 1, rest);
    }
  }

  /** Every record written under a dialect with distinct bytes is read back, byte for byte, and no other. */
  lemma {:induction false} WrittenReadsBack(d: Dialect, lines: seq<Line>, ended: bool)
    requires HasDistinctBytes(d) && MayWrite(d, lines)
    ensures Records(CoreConfig(d), Written(d, lines, ended)) == HeldByLines(lines)
  {
    if lines != [] {
      var line, more := lines[0], Written(d, lines[1..], ended);
      var end := if |lines| == 1 && !ended then [] else LineEnd(d);
      assert line in lines;
      assert Written(d, lines, ended) == BlankLines(d, line.blanks) + (WrittenRecord(d, line.cells) + end + more);
      BlankLinesHoldNothing(d, line.blanks, WrittenRecord(d, line.cells) + end + more);
      RecordReads(d, line.cells, end, more);
      WrittenReadsBack(d, lines[1..], ended);
    }
  }

  // ---- Any bytes at all ----

  function InQuotes(record: Record): seq<Cell> {
    if record == [] then [] else [Cell(Some(record[0]), [])] + InQuotes(record[1..])
  }

  function AllInQuotes(records: seq<Record>): seq<Line> {
    if records == [] then [] else [Line(0, InQuotes(records[0]))] + AllInQuotes(records[1..])
  }

  lemma {:induction false} InQuotesHolds(d: Dialect, record: Record)
    requires d.quoteChar.QuoteChar?
    ensures HeldByAll(InQuotes(record)) == record && |InQuotes(record)| == |record|
    ensures forall cell :: cell in InQuotes(record) ==> MayWriteCell(d, cell) && cell.quoted.Some?
  {
    if record != [] {
      InQuotesHolds(d, record[1..]);
      assert Held(Cell(Some(record[0]), [])) == record[0];
      assert InQuotes(record)[1..] == InQuotes(record[1..]) && record == [record[0]] + record[1..];
    }
  }

  /** In quotes, records of any bytes whatever are written and read back, as long as each has a field. */
  lemma QuotedReadsBack(d: Dialect, records: seq<Record>, ended: bool)
    requires HasDistinctBytes(d) && d.quoteChar.QuoteChar?
    requires forall record :: record in records ==> record != []
    ensures MayWrite(d, AllInQuotes(records)) && Records(CoreConfig(d), Written(d, AllInQuotes(records), ended)) == records
  {
    AnyMayBeQuoted(d, records);
    WrittenReadsBack(d, AllInQuotes(records), ended);
  }

  lemma {:induction false} AnyMayBeQuoted(d: Dialect, records: seq<Record>)
    requires HasDistinctBytes(d) && d.quoteChar.QuoteChar?
    requires forall record :: record in records ==> record != []
    ensures MayWrite(d, AllInQuotes(records)) && HeldByLines(AllInQuotes(records)) == records
  {
    if records != [] {
      assert records == [records[0]] + records[1..];
      assert records[0] in records && forall record :: record in records[1..] ==> record in records;
      InQuotesHolds(d, records[0]);
      AnyMayBeQuoted(d, records[1..]);
      var line := Line(0, InQuotes(records[0]));
      assert line.cells[0] in line.cells && line.cells[0].quoted.Some?;
      assert AllInQuotes(records) == [line] + AllInQuotes(records[1..]) && AllInQuotes(records)[1..] == AllInQuotes(records[1..]);
    }
  }

  // ---- Whole tables ----

  lemma {:induction false} HeldByLinesAt(lines: seq<Line>, i: nat)
    requires i < |lines|
    ensures |HeldByLines(lines)| == |lines| && HeldByLines(lines)[i] == HeldByAll(lines[i].cells) && |HeldByLines(lines)[i]| == |lines[i].cells|
  {
    HeldByAllAt(lines[i].cells);
    if i > 0 {
      HeldByLinesAt(lines[1..], i - 1);
      assert lines[1..][i - 1] == lines[i];
    } else if |lines| > 1 {
      HeldByLinesAt(lines[1..], 0);
    }
  }

  lemma {:induction false} HeldByAllAt(cells: seq<Cell>)
    ensures |HeldByAll(cells)| == |cells| && forall k :: 0 <= k < |cells| ==> HeldByAll(cells)[k] == Held(cells[k])
  {
    if cells != [] {
      HeldByAllAt(cells[1..]);
      assert forall k :: 0 < k < |cells| ==> cells[k] == cells[1..][k - 1];
    }
  }

  // Below the preamble every line has the same number of fields.
  predicate IsRectangular(lines: seq<Line>, from: nat, columns: nat) {
    forall i :: from <= i < |lines| ==> |lines[i].cells| == columns
  }

  /**
  A table written under a dialect is read back under it: with as many fields in every line below the preamble,
  each data line is one row, and each of its fields what was written there.
  */
  lemma WrittenTableReadsBack(d: Dialect, lines: seq<Line>, ended: bool, columns: nat, decode: Bytes -> string, outcomes: seq<TableReading.Outcome>)
    requires HasDistinctBytes(d) && MayWrite(d, lines) && IsRectangular(lines, d.preamble, columns)
    requires TableReading.IsTableOf(d, TableReading.FileRecords(d, Written(d, lines, ended), decode), outcomes)
    ensures |outcomes| == Max(0, |lines| - d.preamble - d.headerRows)
    ensures forall i :: 0 <= i < |outcomes| ==>
              var cells := lines[d.preamble + d.headerRows + i].cells;
              && outcomes[i].RowRead? && |outcomes[i].row| == columns == |cells|
              && forall k :: 0 <= k < columns ==> outcomes[i].row[k] == decode(Held(cells[k]))
  {
    var all := TableReading.FileRecords(d, Written(d, lines, ended), decode);
    WrittenReadsBack(d, lines, ended);
    if lines != [] { HeldByLinesAt(lines, 0); }
    forall i | 0 <= i < |all| ensures |all[i]| == |lines[i].cells| && forall k :: 0 <= k < |all[i]| ==> all[i][k] == decode(Held(lines[i].cells[k])) {
      HeldByLinesAt(lines, i);
      HeldByAllAt(lines[i].cells);
    }
    TableReading.RectangularReadsAsItStands(d, all, columns, outcomes);
  }
}
