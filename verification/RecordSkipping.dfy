/** Skipping records and cutting a sample to whole records, over an input that arrives in buffers. */
module RecordSkipping {
  import opened Wrappers
  import opened CsvAutomaton

  datatype RecordEnd = RecordTerminated | InputEnded

  // The most field bytes and field ends one call of the state machine has room for.
  const SCRATCH_FIELD_BYTES: nat := 1024
  const SCRATCH_FIELD_ENDS: nat := 64

  datatype ReadRecordResult = InputEmpty | OutputFull | OutputEndsFull | RecordRead | NoMoreRecords

  function Flatten(chunks: seq<seq<byte>>): seq<byte> {
    if chunks == [] then [] else chunks[0] + Flatten(chunks[1..])
  }

  // An input that hands out its bytes in buffers of any length.
  class BufferedInput {
    var chunks: seq<seq<byte>>

    ghost predicate Valid()
      reads this
    {
      forall i :: 0 <= i < |chunks| ==> chunks[i] != []
    }

    ghost function Rest(): seq<byte>
      reads this
    {
      Flatten(chunks)
    }

    constructor (chunks: seq<seq<byte>>)
      requires forall i :: 0 <= i < |chunks| ==> chunks[i] != []
      ensures Valid() && this.chunks == chunks
    {
      this.chunks := chunks;
    }

    // The next buffer, empty only at the end of the input.
    method FillBuf() returns (buffer: seq<byte>)
      requires Valid()
      ensures buffer <= Rest() && (buffer == [] <==> Rest() == [])
      ensures buffer == if chunks == [] then [] else chunks[0]
    {
      buffer := if chunks == [] then [] else chunks[0];
    }

    method Consume(n: nat)
      requires Valid() && (if chunks == [] then n == 0 else n <= |chunks[0]|)
      modifies this`chunks
      ensures Valid() && Rest() == old(Rest())[n..] && |chunks| <= |old(chunks)|
    {
      if chunks != [] {
        var left := chunks[0][n..];
        assert Rest()[n..] == left + Flatten(chunks[1..]);
        chunks := if left == [] then chunks[1..] else [left] + chunks[1..];
        assert left != [] ==> chunks[1..] == old(chunks)[1..];
      }
    }
  }

  // The state machine with the scratch space of one call.
  class CoreReader {
    const cfg: Config
    var state: State

    constructor (cfg: Config)
      ensures this.cfg == cfg && state == RecordStart
    {
      this.cfg := cfg;
      state := RecordStart;
    }

    /** Reads on until a record completes, the buffer is read, or the scratch space is full. */
    method ReadRecord(buffer: seq<byte>) returns (result: ReadRecordResult, consumed: nat)
      modifies this`state
      ensures consumed <= |buffer|
      ensures buffer == [] ==> state == RecordStart && result == if Boundary(old(state)) then NoMoreRecords else RecordRead
      ensures buffer != [] ==> consumed > 0 && result != NoMoreRecords && state == StateAfter(cfg, old(state), buffer[..consumed])
                               && FirstEnd(cfg, old(state), buffer[..consumed]) == if result == RecordRead then Some(consumed) else None
    {
      if buffer == [] {
        result, consumed := if Boundary(state) then NoMoreRecords else RecordRead, 0;
        state := RecordStart;
        return;
      }
      consumed := 0;
      var copied, ends := 0, 0;
      while consumed < |buffer| && copied < SCRATCH_FIELD_BYTES && ends < SCRATCH_FIELD_ENDS
        invariant consumed <= |buffer|
        invariant consumed == 0 ==> copied == 0 && ends == 0
        invariant state == StateAfter(cfg, old(state), buffer[..consumed])
        invariant FirstEnd(cfg, old(state), buffer[..consumed]).None?
      {
        var (next, effect) := Next(cfg, state, buffer[consumed]);
        assert buffer[..consumed + 1] == buffer[..consumed] + [buffer[consumed]];
        StateAfterConcat(cfg, old(state), buffer[..consumed], [buffer[consumed]]);
        FirstEndConcat(cfg, old(state), buffer[..consumed], [buffer[consumed]]);
        state, consumed := next, consumed + 1;
        if effect.Copy? {
          copied := copied + 1;
        } else if effect.EndField? {
          ends := ends + 1;
        } else if effect.EndRecord? {
          result := RecordRead;
          return;
        }
      }
      result := if consumed == |buffer| then InputEmpty else if copied == SCRATCH_FIELD_BYTES then OutputFull else OutputEndsFull;
    }
  }

  // Reading on from `done` to `next` finds the first end there is, if it is in between.
  lemma ReadOn(cfg: Config, st: State, all: seq<byte>, done: nat, next: nat)
    requires done <= next <= |all| && FirstEnd(cfg, st, all[..done]).None?
    ensures StateAfter(cfg, st, all[..next]) == StateAfter(cfg, StateAfter(cfg, st, all[..done]), all[done..next])
    ensures FirstEnd(cfg, st, all[..next]) == Shift(done, FirstEnd(cfg, StateAfter(cfg, st, all[..done]), all[done..next]))
    ensures FirstEnd(cfg, st, all[..next]).Some? ==> FirstEnd(cfg, st, all) == FirstEnd(cfg, st, all[..next])
  {
    assert all[..next] == all[..done] + all[done..next];
    StateAfterConcat(cfg, st, all[..done], all[done..next]);
    FirstEndConcat(cfg, st, all[..done], all[done..next]);
    assert all == all[..next] + all[next..];
    FirstEndConcat(cfg, st, all[..next], all[next..]);
  }

  // One pass: what is buffered is read on from, and what was read of it is consumed.
  method ReadOnce(core: CoreReader, input: BufferedInput) returns (ended: bool, result: ReadRecordResult, consumed: nat)
    requires input.Valid()
    modifies core`state, input`chunks
    ensures input.Valid() && |input.chunks| <= |old(input.chunks)|
    ensures consumed <= |old(input.Rest())| && input.Rest() == old(input.Rest())[consumed..]
    ensures ended <==> old(input.Rest()) == []
    ensures ended ==> core.state == RecordStart
    ensures !ended ==> consumed > 0 && core.state == StateAfter(core.cfg, old(core.state), old(input.Rest())[..consumed])
                       && FirstEnd(core.cfg, old(core.state), old(input.Rest())[..consumed]) == if result == RecordRead then Some(consumed) else None
  {
    ghost var all := input.Rest();
    var buffer := input.FillBuf();
    ended := buffer == [];
    result, consumed := core.ReadRecord(buffer);
    assert buffer[..consumed] == all[..consumed];
    input.Consume(consumed);
  }

  /** Consumes one record, wherever the buffers and the scratch space happen to cut it. */
  method SkipRecord(core: CoreReader, input: BufferedInput) returns (end: RecordEnd)
    requires input.Valid()
    modifies core`state, input`chunks
    ensures input.Valid() && |input.chunks| <= |old(input.chunks)|
    ensures var n := FirstEnd(core.cfg, old(core.state), old(input.Rest()));
            if n.Some? then
              && end == RecordTerminated
              && input.Rest() == old(input.Rest())[n.value..]
              && core.state == StateAfter(core.cfg, old(core.state), old(input.Rest())[..n.value])
            else
              end == InputEnded && input.Rest() == [] && core.state == RecordStart
  {
    ghost var all, start := input.Rest(), core.state;
    ghost var done := 0;
    while true
      invariant input.Valid() && |input.chunks| <= |old(input.chunks)|
      invariant done <= |all| && input.Rest() == all[done..]
      invariant core.state == StateAfter(core.cfg, start, all[..done])
      invariant FirstEnd(core.cfg, start, all[..done]).None?
      decreases |all| - done
    {
      var ended, result, consumed := ReadOnce(core, input);
      if ended {
        assert all[..done] == all;
        return InputEnded;
      }
      ghost var next := done + consumed;
      assert all[done..][..consumed] == all[done..next] && all[done..][consumed..] == all[next..];
      ReadOn(core.cfg, start, all, done, next);
      if result == RecordRead { return RecordTerminated; }
      done := next;
    }
  }

  // ---- The preamble ----

  /** What is left, and the state the machine is left in, after skipping `n` records. */
  datatype Skipped = Skipped(state: State, rest: seq<byte>)

  function Skip(cfg: Config, st: State, bytes: seq<byte>, n: nat): Skipped
    decreases n
  {
    if n == 0 then Skipped(st, bytes)
    else
      var end := FirstEnd(cfg, st, bytes);
      if end.None? then Skip(cfg, RecordStart, [], n - 1)
      else Skip(cfg, StateAfter(cfg, st, bytes[..end.value]), bytes[end.value..], n - 1)
  }

  lemma {:induction false} SkipUnfoldsLast(cfg: Config, st: State, bytes: seq<byte>, n: nat)
    ensures var s := Skip(cfg, st, bytes, n); Skip(cfg, st, bytes, n + 1) == Skip(cfg, s.state, s.rest, 1)
  {
    SkipTwice(cfg, st, bytes, n, 1);
  }

  /** Skipping `a` records and then `b` is skipping `a + b`. */
  lemma {:induction false} SkipTwice(cfg: Config, st: State, bytes: seq<byte>, a: nat, b: nat)
    ensures var s := Skip(cfg, st, bytes, a); Skip(cfg, st, bytes, a + b) == Skip(cfg, s.state, s.rest, b)
    decreases a
  {
    if a > 0 {
      var end := FirstEnd(cfg, st, bytes);
      if end.None? {
        SkipTwice(cfg, RecordStart, [], a - 1, b);
      } else {
        SkipTwice(cfg, StateAfter(cfg, st, bytes[..end.value]), bytes[end.value..], a - 1, b);
      }
    }
  }

  method SkipPreamble(records: nat, core: CoreReader, input: BufferedInput)
    requires input.Valid()
    modifies core`state, input`chunks
    ensures input.Valid()
    ensures Skipped(core.state, input.Rest()) == Skip(core.cfg, old(core.state), old(input.Rest()), records)
  {
    for i := 0 to records
      invariant input.Valid()
      invariant Skipped(core.state, input.Rest()) == Skip(core.cfg, old(core.state), old(input.Rest()), i)
    {
      SkipUnfoldsLast(core.cfg, old(core.state), old(input.Rest()), i);
      var end := SkipRecord(core, input);
    }
  }

  /** Reading after a preamble yields the records of the whole input without its first `n`. */
  lemma {:induction false} ReadAfterSkip(cfg: Config, st: State, bytes: seq<byte>, n: nat)
    requires Fresh(cfg, st)
    ensures var all := ReadAll(cfg, st, NOTHING_READ, bytes);
            Records(cfg, Skip(cfg, st, bytes, n).rest) == all[Min(n, |all|)..]
    decreases n
  {
    var all := ReadAll(cfg, st, NOTHING_READ, bytes);
    if n == 0 {
      FreshReadsAlike(cfg, st, bytes);
    } else {
      var end := FirstEnd(cfg, st, bytes);
      if end.None? {
        NoEndNoRecord(cfg, st, NOTHING_READ, bytes);
        ReadAfterSkip(cfg, RecordStart, [], n - 1);
      } else {
        var after, rest := StateAfter(cfg, st, bytes[..end.value]), bytes[end.value..];
        FirstEndIsFresh(cfg, st, bytes);
        FirstEndSplits(cfg, st, NOTHING_READ, bytes);
        ReadAfterSkip(cfg, after, rest, n - 1);
        assert all[1..] == ReadAll(cfg, after, NOTHING_READ, rest);
      }
    }
  }

  /** A second reader started afresh after `a` records skips `b` more exactly as the first would have. */
  lemma FreshSkipTwice(cfg: Config, bytes: seq<byte>, a: nat, b: nat)
    ensures Skip(cfg, RecordStart, Skip(cfg, RecordStart, bytes, a).rest, b).rest == Skip(cfg, RecordStart, bytes, a + b).rest
  {
    var s := Skip(cfg, RecordStart, bytes, a);
    SkipTwice(cfg, RecordStart, bytes, a, b);
    SkipLeavesFresh(cfg, RecordStart, bytes, a);
    if b > 0 {
      FreshReadsAlike(cfg, s.state, s.rest);
      var end := FirstEnd(cfg, s.state, s.rest);
      if end.Some? {
        FreshReadsAlike(cfg, s.state, s.rest[..end.value]);
      }
    }
  }

  lemma {:induction false} SkipLeavesFresh(cfg: Config, st: State, bytes: seq<byte>, n: nat)
    requires Fresh(cfg, st)
    ensures Fresh(cfg, Skip(cfg, st, bytes, n).state)
    decreases n
  {
    if n > 0 {
      var end := FirstEnd(cfg, st, bytes);
      if end.None? {
        SkipLeavesFresh(cfg, RecordStart, [], n - 1);
      } else {
        FirstEndIsFresh(cfg, st, bytes);
        SkipLeavesFresh(cfg, StateAfter(cfg, st, bytes[..end.value]), bytes[end.value..], n - 1);
      }
    }
  }

  // ---- Whole records of a sample ----

  // Reading byte `i - 1` completes a record.
  predicate EndsRecord(cfg: Config, st: State, bytes: seq<byte>, i: nat)
    requires 0 < i <= |bytes|
  {
    Next(cfg, StateAfter(cfg, st, bytes[..i - 1]), bytes[i - 1]).1.EndRecord?
  }

  function CompleteLength(cfg: Config, st: State, bytes: seq<byte>): (n: nat)
    ensures n <= |bytes|
    decreases |bytes|
  {
    var end := FirstEnd(cfg, st, bytes);
    if end.None? then 0
    else end.value + CompleteLength(cfg, StateAfter(cfg, st, bytes[..end.value]), bytes[end.value..])
  }

  // The bytes of the one buffer a slice is read as.
  function Left(chunks: seq<seq<byte>>): seq<byte>
    requires |chunks| <= 1
  {
    if chunks == [] then [] else chunks[0]
  }

  lemma LeftIsAll(chunks: seq<seq<byte>>)
    requires |chunks| <= 1
    ensures Flatten(chunks) == Left(chunks)
  {
    if chunks != [] {
      assert Flatten(chunks[1..]) == [];
    }
  }

  method CompleteRecords(cfg: Config, sample: seq<byte>) returns (complete: seq<byte>)
    ensures complete == sample[..CompleteLength(cfg, RecordStart, sample)]
  {
    var core := new CoreReader(cfg);
    var input := new BufferedInput(if sample == [] then [] else [sample]);
    var length := 0;
    var end := RecordTerminated;
    LeftIsAll(input.chunks);
    while end == RecordTerminated
      invariant input.Valid() && core.cfg == cfg && fresh(core) && fresh(input) && |input.chunks| <= 1
      invariant length <= |sample|
      invariant end == RecordTerminated ==>
                  && Left(input.chunks) == input.Rest() == sample[length..]
                  && CompleteLength(cfg, RecordStart, sample) == length + CompleteLength(cfg, core.state, sample[length..])
      invariant end == InputEnded ==> CompleteLength(cfg, RecordStart, sample) == length
      decreases end == RecordTerminated, |sample| - length
    {
      ghost var before := length;
      end := SkipRecord(core, input);
      if end == RecordTerminated {
        LeftIsAll(input.chunks);
        length := |sample| - |Left(input.chunks)|;
        assert sample[before..][length - before..] == sample[length..];
      }
    }
    complete := sample[..length];
  }

  lemma EndsRecordInRest(cfg: Config, st: State, bytes: seq<byte>, n: nat, i: nat)
    requires n < i <= |bytes|
    ensures EndsRecord(cfg, st, bytes, i) == EndsRecord(cfg, StateAfter(cfg, st, bytes[..n]), bytes[n..], i - n)
  {
    assert bytes[..i - 1] == bytes[..n] + bytes[n..][..i - n - 1];
    StateAfterConcat(cfg, st, bytes[..n], bytes[n..][..i - n - 1]);
  }

  /**
  The prefix ends at the last byte of the sample that completes a record: a record ends there, or it
  is empty, and none ends after it.
  */
  lemma {:induction false} CompleteEndsAtLast(cfg: Config, st: State, bytes: seq<byte>)
    ensures var c := CompleteLength(cfg, st, bytes);
            && (c > 0 ==> EndsRecord(cfg, st, bytes, c))
            && forall i :: c < i <= |bytes| ==> !EndsRecord(cfg, st, bytes, i)
    decreases |bytes|
  {
    var end := FirstEnd(cfg, st, bytes);
    if end.None? {
      forall i | 0 < i <= |bytes| ensures !EndsRecord(cfg, st, bytes, i) {
        NoneEndsBefore(cfg, st, bytes, i);
      }
    } else {
      var n := end.value;
      var after, rest := StateAfter(cfg, st, bytes[..n]), bytes[n..];
      CompleteEndsAtLast(cfg, after, rest);
      NoneEndsBefore(cfg, st, bytes, n);
      forall i | n < i <= |bytes| ensures EndsRecord(cfg, st, bytes, i) == EndsRecord(cfg, after, rest, i - n) {
        EndsRecordInRest(cfg, st, bytes, n, i);
      }
    }
  }

  /** Byte `c` is read as the rest of the terminator that byte `c - 1` begins. */
  predicate CutsTerminator(cfg: Config, st: State, bytes: seq<byte>, c: nat)
    requires c <= |bytes|
  {
    c < |bytes| && StateAfter(cfg, st, bytes[..c]) == AfterCr && bytes[c] == LF
  }

  /**
  The prefix is said to reach to the terminator of its last record. It ends inside that terminator
  exactly when records end with CRLF, its last byte is a carriage return, and a line feed follows.
  */
  lemma CompleteCutsCrlf(cfg: Config, st: State, bytes: seq<byte>)
    ensures var c := CompleteLength(cfg, st, bytes);
            c > 0 ==>
              (CutsTerminator(cfg, st, bytes, c) <==> cfg.terminator.Crlf? && bytes[c - 1] == CR && c < |bytes| && bytes[c] == LF)
  {
    var c := CompleteLength(cfg, st, bytes);
    CompleteEndsAtLast(cfg, st, bytes);
    if c > 0 {
      assert bytes[..c] == bytes[..c - 1] + [bytes[c - 1]];
      StateAfterConcat(cfg, st, bytes[..c - 1], [bytes[c - 1]]);
    }
  }

  /** The bytes `a`, CR, LF, `b` under CRLF: the cut leaves the line feed out. */
  lemma LineFeedIsLeftOut(delimiter: byte, quote: Option<byte>, escape: Option<byte>)
    requires delimiter !in {97, CR, LF, 98} && quote !in {Some(97), Some(CR), Some(LF), Some(98)}
    ensures var cfg := Config(delimiter, quote, escape, Crlf);
            CompleteLength(cfg, RecordStart, [97, CR, LF, 98]) == 2 && CutsTerminator(cfg, RecordStart, [97, CR, LF, 98], 2)
  {
    var cfg, bytes := Config(delimiter, quote, escape, Crlf), [97 as byte, CR, LF, 98];
    assert bytes[1..] == [CR, LF, 98] && bytes[..2] == [97, CR] && bytes[2..] == [LF, 98];
    assert FirstEnd(cfg, Unquoted, [CR, LF, 98]) == Some(1);
    assert FirstEnd(cfg, RecordStart, bytes) == Some(2);
    assert [97, CR][1..] == [CR] && [CR][1..] == [];
    assert StateAfter(cfg, Unquoted, [CR]) == AfterCr;
    assert StateAfter(cfg, RecordStart, bytes[..2]) == AfterCr;
    assert [LF, 98][1..] == [98] && [98][1..] == [];
    assert FirstEnd(cfg, RecordStart, [98]) == None;
    assert FirstEnd(cfg, AfterCr, [LF, 98]) == None;
  }

  // Up to the first end no byte completes a record, and the byte of the first end does.
  lemma {:induction false} NoneEndsBefore(cfg: Config, st: State, bytes: seq<byte>, i: nat)
    requires 0 < i <= |bytes|
    requires FirstEnd(cfg, st, bytes).None? || i <= FirstEnd(cfg, st, bytes).value
    ensures EndsRecord(cfg, st, bytes, i) <==> FirstEnd(cfg, st, bytes) == Some(i)
    decreases |bytes|
  {
    if i > 1 {
      var next := Next(cfg, st, bytes[0]).0;
      NoneEndsBefore(cfg, next, bytes[1..], i - 1);
      assert bytes[..i - 1][1..] == bytes[1..][..i - 2];
    }
  }

  /** The whole records of a sample are exactly its terminated records. */
  lemma {:induction false} CompleteHoldsTerminated(cfg: Config, st: State, bytes: seq<byte>)
    requires Fresh(cfg, st)
    ensures ReadAll(cfg, st, NOTHING_READ, bytes[..CompleteLength(cfg, st, bytes)]) == Terminated(cfg, st, NOTHING_READ, bytes)
    decreases |bytes|
  {
    var c := CompleteLength(cfg, st, bytes);
    var end := FirstEnd(cfg, st, bytes);
    if end.None? {
      NoEndNoRecord(cfg, st, NOTHING_READ, bytes);
    } else {
      var n := end.value;
      var after, rest := StateAfter(cfg, st, bytes[..n]), bytes[n..];
      FirstEndIsFresh(cfg, st, bytes);
      CompleteHoldsTerminated(cfg, after, rest);
      FirstEndSplits(cfg, st, NOTHING_READ, bytes);
      assert bytes[..c] == bytes[..n] + rest[..c - n];
      FirstEndConcat(cfg, st, bytes[..n], rest[..c - n]);
      FirstEndSplits(cfg, st, NOTHING_READ, bytes[..c]);
      assert bytes[..c][..n] == bytes[..n] && bytes[..c][n..] == rest[..c - n];
    }
  }

  /** A longer sample's whole records only add to a shorter one's. */
  lemma {:induction false} CompleteGrows(cfg: Config, st: State, bytes: seq<byte>, more: seq<byte>)
    ensures CompleteLength(cfg, st, bytes) <= CompleteLength(cfg, st, bytes + more)
    decreases |bytes|
  {
    var end := FirstEnd(cfg, st, bytes);
    FirstEndConcat(cfg, st, bytes, more);
    if end.Some? {
      var n := end.value;
      assert (bytes + more)[..n] == bytes[..n] && (bytes + more)[n..] == bytes[n..] + more;
      CompleteGrows(cfg, StateAfter(cfg, st, bytes[..n]), bytes[n..], more);
    }
  }

  /** Cutting whole records to whole records cuts nothing. */
  lemma {:induction false} CompleteIsIdempotent(cfg: Config, st: State, bytes: seq<byte>)
    ensures var c := CompleteLength(cfg, st, bytes); CompleteLength(cfg, st, bytes[..c]) == c
    decreases |bytes|
  {
    var c := CompleteLength(cfg, st, bytes);
    var end := FirstEnd(cfg, st, bytes);
    if end.Some? {
      var n := end.value;
      var rest := bytes[n..];
      CompleteIsIdempotent(cfg, StateAfter(cfg, st, bytes[..n]), rest);
      assert bytes[..c] == bytes[..n] + rest[..c - n];
      FirstEndIsFresh(cfg, st, bytes);
      FirstEndConcat(cfg, st, bytes[..n], rest[..c - n]);
      assert bytes[..c][..n] == bytes[..n] && bytes[..c][n..] == rest[..c - n];
    }
  }
}
