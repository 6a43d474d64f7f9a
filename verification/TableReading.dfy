/**
Opening a CSV table under a dialect: the preamble is skipped, a stacked header is joined into one row
of names, and every data record is brought to the table's width or reported as misshapen.
*/
module TableReading {
  import opened Wrappers
  import opened Text
  import opened CsvAutomaton
  import opened RecordSkipping
  import opened Dialects

  const U64_MAX: nat := 0xFFFF_FFFF_FFFF_FFFF

  type Row = seq<string>

  // ---- Width ----

  // How many fields every row has, and the fewest a record may have.
  datatype TableWidth = TableWidth(fields: nat, least: nat)

  // The columns a record sets, and how many of them a row must reach.
  ghost predicate IsWidthOf(width: TableWidth, record: Row) {
    && width.fields == |record| && width.least <= |record|
    && (forall k :: width.least <= k < |record| ==> IsBlank(record[k]))
    && (width.least > 0 ==> !IsBlank(record[width.least - 1]))
  }

  function WidthOf(record: Row): (width: TableWidth)
    ensures IsWidthOf(width, record)
  {
    TableWidth(|record|, |record| - TrailingBlanks(record))
  }

  function TrailingBlanks(record: Row): (n: nat)
    ensures n <= |record|
    ensures forall k :: |record| - n <= k < |record| ==> IsBlank(record[k])
    ensures n < |record| ==> !IsBlank(record[|record| - n - 1])
  {
    if record == [] || !IsBlank(record[|record| - 1]) then 0 else 1 + TrailingBlanks(record[..|record| - 1])
  }

  // What a record says in a column: a value, or nothing.
  function ValueIn(row: Row, column: nat): Option<string> {
    if column < |row| && !IsBlank(row[column]) then Some(row[column]) else None
  }

  /** Two records that hold the same values in the same columns. */
  ghost predicate SameValues(a: Row, b: Row) {
    forall column: nat :: ValueIn(a, column) == ValueIn(b, column)
  }

  // A record fits when it reaches every column a row must, and holds no value past the last one.
  predicate Fits(width: TableWidth, record: Row) {
    width.least <= |record| && forall k :: width.fields <= k < |record| ==> IsBlank(record[k])
  }

  function Empties(n: nat): (row: Row)
    ensures |row| == n && forall k :: 0 <= k < n ==> row[k] == ""
  {
    seq(n, _ => "")
  }

  // The row a fitting record is read as.
  function Fitted(width: TableWidth, record: Row): Row {
    if |record| >= width.fields then record[..width.fields] else record + Empties(width.fields - |record|)
  }

  /** Brings a record to the width: its blank extra fields are cut, its missing blank ones filled. */
  method Fit(width: TableWidth, record: Row) returns (fits: bool, row: Row)
    requires width.least <= width.fields
    ensures fits == Fits(width, record)
    ensures row == if fits then Fitted(width, record) else record
  {
    row := record;
    if |record| == width.fields {
      return true, record;
    }
    if |record| > width.fields {
      if forall k :: width.fields <= k < |record| ==> IsBlank(record[k]) {
        return true, record[..width.fields];
      }
      return false, record;
    }
    if |record| >= width.least {
      for added := 0 to width.fields - |record|
        invariant row == record + Empties(added)
      {
        row := row + [""];
      }
      return true, row;
    }
    return false, record;
  }

  /** A fitted row has the table's width and every value of its record, in its column, and no other. */
  lemma FittedKeepsValues(width: TableWidth, record: Row)
    requires width.least <= width.fields && Fits(width, record)
    ensures |Fitted(width, record)| == width.fields
    ensures SameValues(Fitted(width, record), record)
  {
    assert IsBlank("");
  }

  /** A record misfits exactly when it stops short of a column that must be reached, or no row of the
      table's width could hold its values. */
  lemma MisfitLosesValues(width: TableWidth, record: Row)
    requires width.least <= width.fields
    ensures !Fits(width, record) <==> |record| < width.least || !exists row: Row :: |row| == width.fields && SameValues(row, record)
  {
    if Fits(width, record) {
      FittedKeepsValues(width, record);
    } else if |record| >= width.least {
      var k :| width.fields <= k < |record| && !IsBlank(record[k]);
      forall row: Row | |row| == width.fields ensures !SameValues(row, record) {
        assert ValueIn(row, k) != ValueIn(record, k);
      }
    }
  }

  /** The record that sets the width fits it unchanged. */
  lemma WidthSetterFits(record: Row)
    ensures Fits(WidthOf(record), record) && Fitted(WidthOf(record), record) == record
  {
  }

  // ---- Rows ----

  datatype Outcome = RowRead(row: Row) | Misshapen(number: nat, fields: nat, tableFields: nat)

  function SaturatingAdd(a: nat, b: nat): nat {
    Min(U64_MAX, a + b)
  }

  // The one-based number of the record with `above` records and `preamble` ones above it.
  function RowNumber(preamble: nat, above: nat): nat {
    SaturatingAdd(1, SaturatingAdd(preamble, above))
  }

  function OutcomeOf(width: TableWidth, preamble: nat, above: nat, record: Row): Outcome {
    if Fits(width, record) then RowRead(Fitted(width, record))
    else Misshapen(RowNumber(preamble, above), |record|, width.fields)
  }

  // The CSV library's reader: the records not read yet, and how many were.
  class RecordReader {
    const hasHeaders: bool
    var records: seq<Row>
    var position: nat
    var header: Option<Row>

    constructor (records: seq<Row>, hasHeaders: bool)
      ensures this.records == records && position == 0 && header == None && this.hasHeaders == hasHeaders
    {
      this.hasHeaders := hasHeaders;
      this.records, position, header := records, 0, None;
    }

    method ReadRecord() returns (record: Option<Row>)
      modifies this`records, this`position
      ensures if old(records) == [] then
                record == None && records == [] && position == old(position)
              else
                record == Some(old(records)[0]) && records == old(records)[1..] && position == old(position) + 1
    {
      if records == [] {
        return None;
      }
      record := Some(records[0]);
      records, position := records[1..], position + 1;
    }

    // The header, read once; an input without a record has an empty one.
    method Headers() returns (names: Row)
      modifies this
      ensures header == Some(names)
      ensures old(header).Some? ==> names == old(header).value && records == old(records) && position == old(position)
      ensures old(header).None? && old(records) == [] ==> names == [] && records == [] && position == old(position)
      ensures old(header).None? && old(records) != [] ==> names == old(records)[0] && records == old(records)[1..] && position == old(position) + 1
    {
      if header.None? {
        var first := ReadRecord();
        header := Some(if first.Some? then first.value else []);
      }
      names := header.value;
    }

    method SetHeaders(names: Row)
      modifies this`header
      ensures header == Some(names)
    {
      header := Some(names);
    }
  }

  class TableReader {
    const reader: RecordReader
    const preamble: nat
    var width: Option<TableWidth>

    ghost predicate Valid()
      reads this
    {
      width.Some? ==> width.value.least <= width.value.fields
    }

    constructor (reader: RecordReader, preamble: nat)
      modifies reader
      ensures Valid() && this.reader == reader && this.preamble == preamble
      ensures !reader.hasHeaders ==> width == None && reader.records == old(reader.records) && reader.position == old(reader.position)
      ensures reader.hasHeaders && old(reader.header).Some? ==>
                width == Some(WidthOf(old(reader.header).value)) && reader.records == old(reader.records) && reader.position == old(reader.position)
      ensures reader.hasHeaders && old(reader.header).None? && old(reader.records) == [] ==>
                width == Some(WidthOf([])) && reader.records == []
      ensures reader.hasHeaders && old(reader.header).None? && old(reader.records) != [] ==>
                && width == Some(WidthOf(old(reader.records)[0]))
                && reader.records == old(reader.records)[1..] && reader.position == old(reader.position) + 1
    {
      this.reader, this.preamble, width := reader, preamble, None;
      new;
      if reader.hasHeaders {
        var names := reader.Headers();
        width := Some(WidthOf(names));
      }
    }

    // The width in force once `first` is read.
    function WidthAt(first: Row): TableWidth
      reads this
    {
      if width.Some? then width.value else WidthOf(first)
    }

    /** The next row, in the table's width, or the report of a record of another one. */
    method NextRow() returns (outcome: Option<Outcome>)
      requires Valid()
      modifies this`width, reader`records, reader`position
      ensures Valid()
      ensures if old(reader.records) == [] then
                outcome == None && reader.records == [] && width == old(width)
              else
                var record := old(reader.records)[0];
                var w := old(WidthAt(reader.records[0]));
                && outcome == Some(OutcomeOf(w, preamble, old(reader.position), record))
                && width == Some(w)
                && reader.records == old(reader.records)[1..] && reader.position == old(reader.position) + 1
    {
      var above := reader.position;
      var record := reader.ReadRecord();
      if record.None? {
        return None;
      }
      if width.None? {
        width := Some(WidthOf(record.value));
      }
      var fits, row := Fit(width.value, record.value);
      if fits {
        return Some(RowRead(row));
      }
      return Some(Misshapen(RowNumber(preamble, above), |record.value|, width.value.fields));
    }

    /** Every data record, in order, gives exactly one outcome, all under one width. */
    method Rows() returns (outcomes: seq<Outcome>)
      requires Valid()
      modifies this`width, reader`records, reader`position
      ensures old(reader.records) == [] ==> outcomes == []
      ensures old(reader.records) != [] ==>
                var w := old(WidthAt(reader.records[0]));
                outcomes == Outcomes(w, preamble, old(reader.position), old(reader.records))
    {
      ghost var all, start := reader.records, reader.position;
      ghost var w := if all == [] then WidthOf([]) else WidthAt(all[0]);
      outcomes := [];
      while true
        invariant Valid() && |outcomes| <= |all|
        invariant reader.records == all[|outcomes|..] && reader.position == start + |outcomes|
        invariant reader.records != [] ==> WidthAt(reader.records[0]) == w || (width == Some(w))
        invariant outcomes != [] ==> width == Some(w)
        invariant outcomes == Outcomes(w, preamble, start, all[..|outcomes|])
        decreases |all| - |outcomes|
      {
        var next := NextRow();
        if next.None? {
          assert all[..|outcomes|] == all;
          return;
        }
        assert all[..|outcomes| + 1] == all[..|outcomes|] + [all[|outcomes|]];
        OutcomesExtend(w, preamble, start, all[..|outcomes|], all[|outcomes|]);
        outcomes := outcomes + [next.value];
      }
    }
  }

  // One outcome per record, each numbered by the records above it.
  function Outcomes(width: TableWidth, preamble: nat, above: nat, records: seq<Row>): (outcomes: seq<Outcome>)
    ensures |outcomes| == |records|
    ensures forall i :: 0 <= i < |records| ==> outcomes[i] == OutcomeOf(width, preamble, above + i, records[i])
  {
    seq(|records|, i requires 0 <= i < |records| => OutcomeOf(width, preamble, above + i, records[i]))
  }

  lemma OutcomesExtend(width: TableWidth, preamble: nat, above: nat, records: seq<Row>, next: Row)
    ensures Outcomes(width, preamble, above, records + [next])
            == Outcomes(width, preamble, above, records) + [OutcomeOf(width, preamble, above + |records|, next)]
  {
  }

  // ---- Stacked headers ----

  // The non-blank cells of a column, trimmed, top to bottom.
  function Cells(rows: seq<Row>, column: nat): seq<string> {
    if rows == [] then []
    else
      var last := rows[|rows| - 1];
      Cells(rows[..|rows| - 1], column) + if column < |last| && !IsBlank(last[column]) then [Trim(last[column])] else []
  }

  function Spaced(words: seq<string>): string {
    if words == [] then []
    else if |words| == 1 then words[0]
    else Spaced(words[..|words| - 1]) + " " + words[|words| - 1]
  }

  /** The names of a stacked header: the first record's columns, each column's cells joined by spaces. */
  function HeaderNames(rows: seq<Row>): (names: Row)
    ensures rows != [] ==> |names| == |rows[0]| && forall c :: 0 <= c < |names| ==> names[c] == Spaced(Cells(rows, c))
    ensures rows == [] ==> names == []
  {
    if rows == [] then [] else seq(|rows[0]|, c requires 0 <= c < |rows[0]| => Spaced(Cells(rows, c)))
  }

  // A name is empty exactly when its column has no cell, so a further cell is set off by a space.
  lemma {:induction false} SpacedIsEmpty(rows: seq<Row>, column: nat)
    ensures Spaced(Cells(rows, column)) == [] <==> Cells(rows, column) == []
    ensures forall i :: 0 <= i < |Cells(rows, column)| ==> Cells(rows, column)[i] != []
  {
    if rows != [] {
      SpacedIsEmpty(rows[..|rows| - 1], column);
    }
  }

  function WithCell(name: string, cell: string): string {
    if IsBlank(cell) then name else if name == [] then Trim(cell) else name + " " + Trim(cell)
  }

  lemma CellExtends(rows: seq<Row>, row: Row, column: nat)
    ensures Spaced(Cells(rows + [row], column)) == if column < |row| then WithCell(Spaced(Cells(rows, column)), row[column]) else Spaced(Cells(rows, column))
  {
    assert (rows + [row])[..|rows|] == rows;
    SpacedIsEmpty(rows, column);
    var cells, all := Cells(rows, column), Cells(rows + [row], column);
    if column < |row| && !IsBlank(row[column]) {
      assert all[..|cells|] == cells && all[|cells|] == Trim(row[column]);
    } else {
      assert all == cells;
    }
  }

  // Joins one more header record into the names, over the columns it reaches.
  method JoinRow(names: Row, row: Row) returns (joined: Row)
    ensures |joined| == |names|
    ensures forall c :: 0 <= c < |names| ==> joined[c] == if c < |row| then WithCell(names[c], row[c]) else names[c]
  {
    joined := names;
    var c := 0;
    while c < |names| && c < |row|
      invariant 0 <= c <= |names| && c <= |row| && |joined| == |names|
      invariant forall k :: 0 <= k < c ==> joined[k] == WithCell(names[k], row[k])
      invariant forall k :: c <= k < |names| ==> joined[k] == names[k]
    {
      var cell := Trim(row[c]);
      if cell != [] {
        joined := joined[c := (if joined[c] != [] then joined[c] + " " else []) + cell];
      }
      c := c + 1;
    }
  }

  lemma FirstNames(all: seq<Row>, names: Row)
    requires all != [] && |names| == |all[0]| && forall c :: 0 <= c < |names| ==> names[c] == Trim(all[0][c])
    ensures names == HeaderNames(all[..1])
  {
    assert all[..1] == [] + [all[0]];
    forall c | 0 <= c < |names| ensures names[c] == Spaced(Cells(all[..1], c)) {
      CellExtends([], all[0], c);
    }
  }

  lemma NamesExtend(all: seq<Row>, read: nat, names: Row, joined: Row)
    requires 0 < read < |all| && names == HeaderNames(all[..read]) && |joined| == |names|
    requires forall c :: 0 <= c < |names| ==> joined[c] == if c < |all[read]| then WithCell(names[c], all[read][c]) else names[c]
    ensures joined == HeaderNames(all[..read + 1])
  {
    assert all[..read + 1] == all[..read] + [all[read]];
    forall c | 0 <= c < |names| ensures joined[c] == Spaced(Cells(all[..read + 1], c)) {
      CellExtends(all[..read], all[read], c);
    }
  }

  /** Reads the header records and joins them; a file that ends first gives the names it has. */
  method JoinedHeader(reader: RecordReader, headerRows: nat) returns (names: Row)
    requires headerRows > 1 && reader.header.None?
    modifies reader
    ensures var read := Min(headerRows, |old(reader.records)|);
            && names == HeaderNames(old(reader.records)[..read])
            && reader.records == old(reader.records)[read..] && reader.position == old(reader.position) + read
  {
    ghost var all, start := reader.records, reader.position;
    var first := reader.Headers();
    names := seq(|first|, c requires 0 <= c < |first| => Trim(first[c]));
    ghost var read := Min(1, |all|);
    if all != [] { FirstNames(all, names); }
    var i := 1;
    while i < headerRows
      invariant 1 <= i <= headerRows
      invariant read == Min(i, |all|)
      invariant names == HeaderNames(all[..read])
      invariant reader.records == all[read..] && reader.position == start + read
    {
      var row := reader.ReadRecord();
      if row.None? {
        break;
      }
      ghost var before := names;
      names := JoinRow(names, row.value);
      NamesExtend(all, read, before, names);
      read, i := read + 1, i + 1;
    }
  }

  // ---- Opening a table ----

  function Decoded(records: seq<Record>, decode: seq<byte> -> string): (rows: seq<Row>)
    ensures |rows| == |records|
    ensures forall i :: 0 <= i < |records| ==>
              |rows[i]| == |records[i]| && forall k :: 0 <= k < |records[i]| ==> rows[i][k] == decode(records[i][k])
  {
    seq(|records|, i requires 0 <= i < |records| =>
      var record := records[i];
      seq(|record|, k requires 0 <= k < |record| => decode(record[k])))
  }

  lemma DecodedDrops(records: seq<Record>, decode: seq<byte> -> string, n: nat)
    requires n <= |records|
    ensures Decoded(records[n..], decode) == Decoded(records, decode)[n..]
  {
  }

  /** The records of a file, as text. */
  function FileRecords(d: Dialect, bytes: seq<byte>, decode: seq<byte> -> string): seq<Row> {
    Decoded(Records(CoreConfig(d), bytes), decode)
  }

  // The record that sets the width of a table whose header starts at the first of `rows`.
  function WidthSetter(headerRows: nat, rows: seq<Row>): Row
    requires |rows| > headerRows
  {
    if headerRows > 1 then HeaderNames(rows[..headerRows]) else rows[0]
  }

  // Some header record has text in a column.
  ghost predicate IsNamed(rows: seq<Row>, column: nat) {
    exists r :: 0 <= r < |rows| && column < |rows[r]| && !IsBlank(rows[r][column])
  }

  lemma {:induction false} NamedByACell(rows: seq<Row>, column: nat)
    ensures Cells(rows, column) != [] <==> IsNamed(rows, column)
  {
    if rows != [] {
      var n := |rows| - 1;
      NamedByACell(rows[..n], column);
      assert forall r :: 0 <= r < n ==> rows[..n][r] == rows[r];
    }
  }

  lemma {:induction false} CellsBeginWithText(rows: seq<Row>, column: nat)
    ensures forall i :: 0 <= i < |Cells(rows, column)| ==> Cells(rows, column)[i] != [] && !IsSpace(Cells(rows, column)[i][0])
  {
    if rows != [] {
      var n := |rows| - 1;
      CellsBeginWithText(rows[..n], column);
      if column < |rows[n]| && !IsBlank(rows[n][column]) { TrimStartsWithText(rows[n][column]); }
    }
  }

  lemma {:induction false} SpacedBeginsWithText(words: seq<string>)
    requires words != [] && forall i :: 0 <= i < |words| ==> words[i] != [] && !IsSpace(words[i][0])
    ensures Spaced(words) != [] && !IsBlank(Spaced(words)) && Spaced(words)[0] == words[0][0]
  {
    if |words| > 1 { SpacedBeginsWithText(words[..|words| - 1]); }
    TextIsNotBlank(Spaced(words));
  }

  lemma NameIsBlank(rows: seq<Row>, column: nat)
    requires rows != [] && column < |rows[0]|
    ensures IsBlank(HeaderNames(rows)[column]) <==> !IsNamed(rows, column)
  {
    NamedByACell(rows, column);
    CellsBeginWithText(rows, column);
    if Cells(rows, column) != [] { SpacedBeginsWithText(Cells(rows, column)); }
  }

  /** A table with a stacked header is as wide as its first header record, and every row must reach just the last column any header record names. */
  lemma StackedHeaderSetsWidth(headerRows: nat, rows: seq<Row>)
    requires 1 < headerRows < |rows|
    ensures var width := WidthOf(WidthSetter(headerRows, rows));
            && width.fields == |rows[0]|
            && (forall column :: width.least <= column < width.fields ==> !IsNamed(rows[..headerRows], column))
            && (width.least > 0 ==> IsNamed(rows[..headerRows], width.least - 1))
  {
    var names := HeaderNames(rows[..headerRows]);
    forall column | 0 <= column < |rows[0]| ensures IsBlank(names[column]) <==> !IsNamed(rows[..headerRows], column) {
      NameIsBlank(rows[..headerRows], column);
    }
  }

  // Reads the header off the records below the preamble.
  method OpenRecords(rows: seq<Row>, headerRows: nat, preamble: nat) returns (table: TableReader)
    ensures fresh(table) && fresh(table.reader) && table.Valid() && table.preamble == preamble
    ensures |rows| <= headerRows ==> table.reader.records == []
    ensures |rows| > headerRows ==>
              && table.reader.records == rows[headerRows..]
              && table.reader.position == headerRows
              && table.WidthAt(table.reader.records[0]) == WidthOf(WidthSetter(headerRows, rows))
  {
    var reader := new RecordReader(rows, headerRows > 0);
    if headerRows > 1 {
      var names := JoinedHeader(reader, headerRows);
      reader.SetHeaders(names);
    }
    table := new TableReader(reader, preamble);
  }

  method Open(d: Dialect, input: BufferedInput, decode: seq<byte> -> string) returns (table: TableReader)
    requires input.Valid()
    modifies input`chunks
    ensures fresh(table) && fresh(table.reader) && table.Valid() && table.preamble == d.preamble
    ensures var all := FileRecords(d, old(input.Rest()), decode);
            var rows := all[Min(d.preamble, |all|)..];
            && (|rows| <= d.headerRows ==> table.reader.records == [])
            && (|rows| > d.headerRows ==>
                  && table.reader.records == rows[d.headerRows..]
                  && table.reader.position == d.headerRows
                  && table.WidthAt(table.reader.records[0]) == WidthOf(WidthSetter(d.headerRows, rows)))
  {
    ghost var bytes, cfg := input.Rest(), CoreConfig(d);
    var core := new CoreReader(CoreConfig(d));
    SkipPreamble(d.preamble, core, input);
    var rest := Drain(input);
    var rows := Decoded(Records(CoreConfig(d), rest), decode);
    ReadAfterSkip(cfg, RecordStart, bytes, d.preamble);
    DecodedDrops(Records(cfg, bytes), decode, Min(d.preamble, |Records(cfg, bytes)|));
    table := OpenRecords(rows, d.headerRows, d.preamble);
  }

  // The bytes the record reader is given.
  method Drain(input: BufferedInput) returns (bytes: seq<byte>)
    requires input.Valid()
    modifies input`chunks
    ensures bytes == old(input.Rest()) && input.Rest() == []
  {
    bytes := [];
    while input.chunks != []
      invariant input.Valid() && old(input.Rest()) == bytes + input.Rest()
      decreases |input.chunks|
    {
      ghost var rest := input.Rest();
      bytes := bytes + input.chunks[0];
      input.chunks := input.chunks[1..];
    }
  }

  // What the record at `at` in the file is read as, or how it is reported.
  function OutcomeInFile(width: TableWidth, all: seq<Row>, at: nat): Outcome
    requires at < |all|
  {
    if Fits(width, all[at]) then RowRead(Fitted(width, all[at]))
    else Misshapen(Min(U64_MAX, 1 + at), |all[at]|, width.fields)
  }

  // The outcomes of a whole file, its records below the preamble and the header in order.
  ghost predicate IsTableOf(d: Dialect, all: seq<Row>, outcomes: seq<Outcome>) {
    var top := d.preamble + d.headerRows;
    && |outcomes| == Max(0, |all| - top)
    && forall i :: 0 <= i < |outcomes| ==>
         outcomes[i] == OutcomeInFile(WidthOf(WidthSetter(d.headerRows, all[d.preamble..])), all, top + i)
  }

  lemma OutcomesAreNumbered(d: Dialect, all: seq<Row>)
    requires |all| > d.preamble + d.headerRows
    ensures var rows := all[d.preamble..];
            IsTableOf(d, all, Outcomes(WidthOf(WidthSetter(d.headerRows, rows)), d.preamble, d.headerRows, rows[d.headerRows..]))
  {
    var rows := all[d.preamble..];
    var width := WidthOf(WidthSetter(d.headerRows, rows));
    var data := rows[d.headerRows..];
    forall i | 0 <= i < |data|
      ensures OutcomeOf(width, d.preamble, d.headerRows + i, data[i]) == OutcomeInFile(width, all, d.preamble + d.headerRows + i)
    {
      assert data[i] == all[d.preamble + d.headerRows + i];
    }
  }

  /** Where every record below the preamble has as many fields, every data record is a row as it stands. */
  lemma RectangularReadsAsItStands(d: Dialect, all: seq<Row>, columns: nat, outcomes: seq<Outcome>)
    requires IsTableOf(d, all, outcomes) && forall i :: d.preamble <= i < |all| ==> |all[i]| == columns
    ensures forall i :: 0 <= i < |outcomes| ==> outcomes[i] == RowRead(all[d.preamble + d.headerRows + i])
  {
    if |outcomes| > 0 {
      var top, rows := d.preamble + d.headerRows, all[d.preamble..];
      assert rows[0] == all[d.preamble];
      SetterIsAsWide(d.headerRows, rows);
      var width := WidthOf(WidthSetter(d.headerRows, rows));
      forall i | 0 <= i < |outcomes| ensures outcomes[i] == RowRead(all[top + i]) {
        ReadAsItStands(width, all, top + i);
      }
    }
  }

  lemma SetterIsAsWide(headerRows: nat, rows: seq<Row>)
    requires |rows| > headerRows
    ensures |WidthSetter(headerRows, rows)| == |rows[0]|
  {
    if headerRows > 1 { assert rows[..headerRows][0] == rows[0]; }
  }

  lemma ReadAsItStands(width: TableWidth, all: seq<Row>, at: nat)
    requires at < |all| && |all[at]| == width.fields && width.least <= width.fields
    ensures OutcomeInFile(width, all, at) == RowRead(all[at])
  {
    assert all[at][..width.fields] == all[at];
  }

  /**
  Every data record of a file gives exactly one outcome, in order, under one width, and a report names
  the record's place in the whole file, the preamble and the header records counted.
  */
  method ReadTable(d: Dialect, input: BufferedInput, decode: seq<byte> -> string) returns (outcomes: seq<Outcome>)
    requires input.Valid()
    modifies input`chunks
    ensures IsTableOf(d, FileRecords(d, old(input.Rest()), decode), outcomes)
  {
    ghost var all := FileRecords(d, input.Rest(), decode);
    var table := Open(d, input, decode);
    outcomes := table.Rows();
    if |all| > d.preamble + d.headerRows {
      OutcomesAreNumbered(d, all);
    }
  }
}
