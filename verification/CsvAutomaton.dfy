/**
The CSV state machine every reader of a profiled file splits records with.

It reads section 2 of RFC 4180 with a configurable delimiter, quote, escape byte and terminator. A
doubled quote inside a quoted field is one quote whatever the escape, blank lines hold no record, and
a record is complete the moment the first byte of its terminator is read: under CRLF the line feed
after the carriage return is read, and dropped, at the start of the next record.
*/
module CsvAutomaton {
  import opened Wrappers

  type byte = b: int | 0 <= b < 256

  const LF: byte := 10
  const CR: byte := 13

  datatype Terminator = AnyByte(end: byte) | Crlf

  // No quote means quoting is off. No escape means quotes are escaped by doubling alone.
  datatype Config = Config(delimiter: byte, quote: Option<byte>, escape: Option<byte>, terminator: Terminator)

  datatype State = RecordStart | FieldStart | Unquoted | Quoted | Escaped | QuoteSeen | AfterCr

  // What reading one byte does to the record being read.
  datatype Effect = Copy(b: byte) | EndField | EndRecord | Drop

  predicate Terminates(cfg: Config, b: byte) {
    match cfg.terminator
    case AnyByte(end) => b == end
    case Crlf => b == CR || b == LF
  }

  function EndOfRecord(cfg: Config, b: byte): (State, Effect) {
    (if cfg.terminator.Crlf? && b == CR then AfterCr else RecordStart, EndRecord)
  }

  function InField(cfg: Config, b: byte): (State, Effect) {
    if b == cfg.delimiter then (FieldStart, EndField)
    else if Terminates(cfg, b) then EndOfRecord(cfg, b)
    else (Unquoted, Copy(b))
  }

  function AtFieldStart(cfg: Config, b: byte): (State, Effect) {
    if cfg.quote == Some(b) then (Quoted, Drop) else InField(cfg, b)
  }

  function AtRecordStart(cfg: Config, b: byte): (State, Effect) {
    if Terminates(cfg, b) then (RecordStart, Drop) else AtFieldStart(cfg, b)
  }

  function Next(cfg: Config, st: State, b: byte): (State, Effect) {
    match st
    case RecordStart => AtRecordStart(cfg, b)
    case AfterCr => if b == LF then (RecordStart, Drop) else AtRecordStart(cfg, b)
    case FieldStart => AtFieldStart(cfg, b)
    case Unquoted => InField(cfg, b)
    case Quoted =>
      if cfg.quote == Some(b) then (QuoteSeen, Drop)
      else if cfg.escape == Some(b) then (Escaped, Drop)
      else (Quoted, Copy(b))
    case Escaped => (Quoted, Copy(b))
    case QuoteSeen => if cfg.quote == Some(b) then (Quoted, Copy(b)) else InField(cfg, b)
  }

  // Between records: the end of the input completes nothing here.
  predicate Boundary(st: State) {
    st == RecordStart || st == AfterCr
  }

  // A state a reader of this configuration can be in between records.
  predicate Fresh(cfg: Config, st: State) {
    st == RecordStart || (st == AfterCr && cfg.terminator.Crlf?)
  }

  function StateAfter(cfg: Config, st: State, bytes: seq<byte>): State
    decreases |bytes|
  {
    if bytes == [] then st else StateAfter(cfg, Next(cfg, st, bytes[0]).0, bytes[1..])
  }

  /** How many bytes complete a record, or none when the bytes run out first. */
  function FirstEnd(cfg: Config, st: State, bytes: seq<byte>): (n: Option<nat>)
    ensures n.Some? ==> 0 < n.value <= |bytes|
    decreases |bytes|
  {
    if bytes == [] then None
    else
      var (next, effect) := Next(cfg, st, bytes[0]);
      if effect.EndRecord? then Some(1)
      else
        var rest := FirstEnd(cfg, next, bytes[1..]);
        if rest.None? then None else Some(rest.value + 1)
  }

  type Record = seq<seq<byte>>

  // The fields read so far and the one being read.
  datatype Partial = Partial(fields: Record, field: seq<byte>)

  const NOTHING_READ := Partial([], [])

  function Complete(p: Partial): Record {
    p.fields + [p.field]
  }

  function Apply(p: Partial, effect: Effect): Partial {
    match effect
    case Copy(b) => p.(field := p.field + [b])
    case EndField => Partial(Complete(p), [])
    case EndRecord => NOTHING_READ
    case Drop => p
  }

  /** The records the bytes terminate. */
  function Terminated(cfg: Config, st: State, p: Partial, bytes: seq<byte>): seq<Record>
    decreases |bytes|
  {
    if bytes == [] then []
    else
      var (next, effect) := Next(cfg, st, bytes[0]);
      (if effect.EndRecord? then [Complete(p)] else []) + Terminated(cfg, next, Apply(p, effect), bytes[1..])
  }

  /** The records a reader yields: the terminated ones and one the end of the input cuts off. */
  function ReadAll(cfg: Config, st: State, p: Partial, bytes: seq<byte>): seq<Record>
    decreases |bytes|
  {
    if bytes == [] then (if Boundary(st) then [] else [Complete(p)])
    else
      var (next, effect) := Next(cfg, st, bytes[0]);
      (if effect.EndRecord? then [Complete(p)] else []) + ReadAll(cfg, next, Apply(p, effect), bytes[1..])
  }

  /** The records of a whole input. */
  function Records(cfg: Config, bytes: seq<byte>): seq<Record> {
    ReadAll(cfg, RecordStart, NOTHING_READ, bytes)
  }

  // ---- Reading in pieces ----

  lemma {:induction false} StateAfterConcat(cfg: Config, st: State, a: seq<byte>, b: seq<byte>)
    ensures StateAfter(cfg, st, a + b) == StateAfter(cfg, StateAfter(cfg, st, a), b)
    decreases |a|
  {
    if a == [] {
      assert a + b == b;
    } else {
      assert (a + b)[1..] == a[1..] + b;
      StateAfterConcat(cfg, Next(cfg, st, a[0]).0, a[1..], b);
    }
  }

  function Shift(k: nat, n: Option<nat>): Option<nat> {
    if n.None? then None else Some(k + n.value)
  }

  /** A record's end is found in the first piece that completes one, counted from the start. */
  lemma {:induction false} FirstEndConcat(cfg: Config, st: State, a: seq<byte>, b: seq<byte>)
    ensures FirstEnd(cfg, st, a + b)
            == if FirstEnd(cfg, st, a).Some? then FirstEnd(cfg, st, a) else Shift(|a|, FirstEnd(cfg, StateAfter(cfg, st, a), b))
    decreases |a|
  {
    if a == [] {
      assert a + b == b;
    } else {
      assert (a + b)[1..] == a[1..] + b;
      FirstEndConcat(cfg, Next(cfg, st, a[0]).0, a[1..], b);
    }
  }

  lemma {:induction false} FirstEndIsFresh(cfg: Config, st: State, bytes: seq<byte>)
    requires FirstEnd(cfg, st, bytes).Some?
    ensures Fresh(cfg, StateAfter(cfg, st, bytes[..FirstEnd(cfg, st, bytes).value]))
    ensures FirstEnd(cfg, st, bytes[..FirstEnd(cfg, st, bytes).value]) == FirstEnd(cfg, st, bytes)
    decreases |bytes|
  {
    var n := FirstEnd(cfg, st, bytes).value;
    var (next, effect) := Next(cfg, st, bytes[0]);
    assert bytes[..n][1..] == bytes[1..n];
    if effect.EndRecord? {
      assert bytes[1..n] == [];
    } else {
      FirstEndIsFresh(cfg, next, bytes[1..]);
      assert bytes[1..][..n - 1] == bytes[1..n];
    }
  }

  /** The first record is what the bytes up to its end hold; the others are read afresh after it. */
  lemma {:induction false} FirstEndSplits(cfg: Config, st: State, p: Partial, bytes: seq<byte>)
    requires FirstEnd(cfg, st, bytes).Some?
    ensures var n := FirstEnd(cfg, st, bytes).value;
            var after := StateAfter(cfg, st, bytes[..n]);
            && |Terminated(cfg, st, p, bytes[..n])| == 1
            && ReadAll(cfg, st, p, bytes[..n]) == Terminated(cfg, st, p, bytes[..n])
            && ReadAll(cfg, st, p, bytes) == Terminated(cfg, st, p, bytes[..n]) + ReadAll(cfg, after, NOTHING_READ, bytes[n..])
            && Terminated(cfg, st, p, bytes) == Terminated(cfg, st, p, bytes[..n]) + Terminated(cfg, after, NOTHING_READ, bytes[n..])
    decreases |bytes|
  {
    var n := FirstEnd(cfg, st, bytes).value;
    var (next, effect) := Next(cfg, st, bytes[0]);
    assert bytes[..n][1..] == bytes[1..n];
    if effect.EndRecord? {
      assert bytes[1..n] == [];
    } else {
      FirstEndSplits(cfg, next, Apply(p, effect), bytes[1..]);
      assert bytes[1..][..n - 1] == bytes[1..n];
      assert bytes[1..][n - 1..] == bytes[n..];
    }
  }

  lemma {:induction false} NoEndNoRecord(cfg: Config, st: State, p: Partial, bytes: seq<byte>)
    requires FirstEnd(cfg, st, bytes).None?
    ensures Terminated(cfg, st, p, bytes) == [] && |ReadAll(cfg, st, p, bytes)| <= 1
    decreases |bytes|
  {
    if bytes != [] {
      var (next, effect) := Next(cfg, st, bytes[0]);
      NoEndNoRecord(cfg, next, Apply(p, effect), bytes[1..]);
    }
  }

  /** A new reader reads on exactly as one that has just completed a record. */
  lemma FreshReadsAlike(cfg: Config, st: State, bytes: seq<byte>)
    requires Fresh(cfg, st)
    ensures ReadAll(cfg, st, NOTHING_READ, bytes) == Records(cfg, bytes)
    ensures FirstEnd(cfg, st, bytes) == FirstEnd(cfg, RecordStart, bytes)
    ensures bytes != [] ==> StateAfter(cfg, st, bytes) == StateAfter(cfg, RecordStart, bytes)
  {
    if bytes != [] {
      assert Next(cfg, st, bytes[0]) == Next(cfg, RecordStart, bytes[0]);
    }
  }
}
