/** The lines of a file that carry evidence of its character encoding. */
module EncodingEvidence {
  import opened Wrappers
  import opened CsvAutomaton

  const MAX_EVIDENCE_BYTES: nat := 8 * 1024 * 1024
  const SEGMENTS: nat := 16
  const SHARE: nat := MAX_EVIDENCE_BYTES / SEGMENTS

  type Bytes = seq<byte>

  predicate IsLineEnd(b: byte) {
    b == LF || b == CR
  }

  predicate IsAscii(line: Bytes) {
    forall i :: 0 <= i < |line| ==> line[i] < 128
  }

  // The length of the first line, its end included.
  function FirstLine(bytes: Bytes): (n: nat)
    ensures n <= |bytes| && (bytes != [] ==> n > 0)
    ensures n < |bytes| ==> IsLineEnd(bytes[n - 1])
  {
    if bytes == [] then 0 else if IsLineEnd(bytes[0]) then 1 else 1 + FirstLine(bytes[1..])
  }

  /** The lines of some bytes, each with its end. */
  function Lines(bytes: Bytes): seq<Bytes> {
    if bytes == [] then []
    else
      var n := FirstLine(bytes);
      [bytes[..n]] + Lines(bytes[n..])
  }

  function NonAscii(lines: seq<Bytes>): seq<Bytes> {
    if lines == [] then [] else (if IsAscii(lines[0]) then [] else [lines[0]]) + NonAscii(lines[1..])
  }

  function Concat<A>(parts: seq<seq<A>>): seq<A> {
    if parts == [] then [] else parts[0] + Concat(parts[1..])
  }

  function Total(lines: seq<Bytes>): nat {
    if lines == [] then 0 else |lines[0]| + Total(lines[1..])
  }

  // ---- Segments ----

  function Target(bytes: Bytes, count: nat, part: nat, start: nat): nat
    requires 0 < part <= count
  {
    Max(|bytes| / count * part, start)
  }

  // Where the part that begins at `start` ends: after the first line end at or past its target.
  function SegmentEnd(bytes: Bytes, count: nat, part: nat, start: nat): (end: nat)
    requires 0 < part <= count && start <= |bytes|
    ensures start <= end <= |bytes|
    ensures part == count ==> end == |bytes|
    ensures end == |bytes| || (end > 0 && IsLineEnd(bytes[end - 1]))
  {
    var target := Target(bytes, count, part, start);
    if part == count || target > |bytes| then |bytes|
    else target + FirstLine(bytes[target..])
  }

  function Segments(bytes: Bytes, count: nat, part: nat, start: nat): seq<Bytes>
    requires 0 < part <= count + 1 && start <= |bytes|
    decreases count + 1 - part
  {
    if part > count then []
    else
      var end := SegmentEnd(bytes, count, part, start);
      [bytes[start..end]] + Segments(bytes, count, part + 1, end)
  }

  // The end of the line that holds `from`, its line end included.
  method FindLineEnd(bytes: Bytes, from: nat) returns (end: nat)
    requires from <= |bytes|
    ensures end == from + FirstLine(bytes[from..])
  {
    end := from;
    while end < |bytes| && !IsLineEnd(bytes[end])
      invariant from <= end <= |bytes|
      invariant FirstLine(bytes[from..]) == end - from + FirstLine(bytes[end..])
    {
      assert bytes[end..][1..] == bytes[end + 1..];
      end := end + 1;
    }
    end := if end < |bytes| then end + 1 else |bytes|;
  }

  lemma OneSegmentMore(bytes: Bytes, count: nat, part: nat, start: nat, segments: seq<Bytes>)
    requires 0 < part <= count && start <= |bytes|
    ensures var end := SegmentEnd(bytes, count, part, start);
            segments + Segments(bytes, count, part, start) == (segments + [bytes[start..end]]) + Segments(bytes, count, part + 1, end)
  {
  }

  method LineAlignedSegments(bytes: Bytes, count: nat) returns (segments: seq<Bytes>)
    ensures segments == Segments(bytes, count, 1, 0)
  {
    segments := [];
    var start, part := 0, 1;
    while part <= count
      invariant 1 <= part <= count + 1 && start <= |bytes|
      invariant Segments(bytes, count, 1, 0) == segments + Segments(bytes, count, part, start)
    {
      var target := Max(|bytes| / count * part, start);
      var end := |bytes|;
      if part != count && target <= |bytes| {
        end := FindLineEnd(bytes, target);
      }
      assert end == SegmentEnd(bytes, count, part, start);
      OneSegmentMore(bytes, count, part, start, segments);
      segments := segments + [bytes[start..end]];
      start, part := end, part + 1;
    }
  }

  lemma {:induction false} SegmentsCover(bytes: Bytes, count: nat, part: nat, start: nat)
    requires 0 < part <= count && start <= |bytes|
    ensures Concat(Segments(bytes, count, part, start)) == bytes[start..]
    ensures |Segments(bytes, count, part, start)| == count + 1 - part
    decreases count - part
  {
    var end := SegmentEnd(bytes, count, part, start);
    if part < count {
      SegmentsCover(bytes, count, part + 1, end);
    } else {
      assert Segments(bytes, count, part + 1, end) == [];
    }
    assert bytes[start..] == bytes[start..end] + bytes[end..];
  }

  lemma LinesUnfold(bytes: Bytes, n: nat)
    requires bytes != [] && n == FirstLine(bytes)
    ensures Lines(bytes) == [bytes[..n]] + Lines(bytes[n..])
  {
  }

  lemma {:induction false} LinesConcat(a: Bytes, b: Bytes)
    requires a == [] || IsLineEnd(a[|a| - 1])
    ensures Lines(a + b) == Lines(a) + Lines(b)
    decreases |a|
  {
    if a == [] {
      assert a + b == b;
    } else {
      var n := FirstLine(a);
      FirstLineExtends(a, b);
      LinesConcat(a[n..], b);
      OneLineLess(a, b, n);
    }
  }

  lemma OneLineLess(a: Bytes, b: Bytes, n: nat)
    requires a != [] && n == FirstLine(a) == FirstLine(a + b)
    requires Lines(a[n..] + b) == Lines(a[n..]) + Lines(b)
    ensures Lines(a + b) == Lines(a) + Lines(b)
  {
    PrefixOfBoth(a, b, n);
    LinesUnfold(a, n);
    LinesUnfold(a + b, n);
    ConsBoth(a[..n], Lines(a[n..]), Lines(b));
  }

  lemma PrefixOfBoth(a: Bytes, b: Bytes, n: nat)
    requires n <= |a|
    ensures (a + b)[..n] == a[..n] && (a + b)[n..] == a[n..] + b
  {
  }

  lemma ConsBoth<A>(first: A, a: seq<A>, b: seq<A>)
    ensures [first] + (a + b) == ([first] + a) + b
  {
  }

  lemma {:induction false} FirstLineExtends(a: Bytes, b: Bytes)
    requires a != [] && IsLineEnd(a[|a| - 1])
    ensures FirstLine(a + b) == FirstLine(a)
    decreases |a|
  {
    if !IsLineEnd(a[0]) {
      assert (a + b)[1..] == a[1..] + b;
      FirstLineExtends(a[1..], b);
    }
  }

  function LinesOfEach(segments: seq<Bytes>): seq<seq<Bytes>> {
    if segments == [] then [] else [Lines(segments[0])] + LinesOfEach(segments[1..])
  }

  // One more segment adds its own lines.
  lemma LinesOfMore(first: Bytes, rest: seq<Bytes>)
    ensures Concat(LinesOfEach([first] + rest)) == Lines(first) + Concat(LinesOfEach(rest))
  {
    assert ([first] + rest)[1..] == rest;
  }

  /** No segment splits a line: the lines of the segments, in order, are the lines of the file. */
  lemma {:induction false} SegmentsSplitNoLine(bytes: Bytes, count: nat, part: nat, start: nat)
    requires 0 < part <= count && start <= |bytes|
    ensures Concat(LinesOfEach(Segments(bytes, count, part, start))) == Lines(bytes[start..])
    decreases count - part
  {
    var end := SegmentEnd(bytes, count, part, start);
    var segment, rest := bytes[start..end], Segments(bytes, count, part + 1, end);
    LinesOfMore(segment, rest);
    assert bytes[start..] == segment + bytes[end..];
    if part < count {
      SegmentsSplitNoLine(bytes, count, part + 1, end);
      if end == |bytes| {
        assert bytes[end..] == [] && segment + [] == segment;
      } else {
        LinesConcat(segment, bytes[end..]);
      }
    } else {
      assert rest == [] && bytes[end..] == [] && segment + [] == segment;
    }
  }

  // ---- Segments of about equal length ----

  // What is left of a line from any byte of it on is no longer than the longest line.
  lemma {:induction false} LineFrom(bytes: Bytes, at: nat, longest: nat)
    requires NoLonger(Lines(bytes), longest) && at <= |bytes|
    ensures FirstLine(bytes[at..]) <= longest
    decreases |bytes|
  {
    if bytes != [] {
      var n := FirstLine(bytes);
      LinesUnfold(bytes, n);
      NoLongerParts([bytes[..n]], Lines(bytes[n..]), longest);
      assert |[bytes[..n]][0]| <= longest;
      if at < n {
        LineTail(bytes, at);
      } else {
        LineFrom(bytes[n..], at - n, longest);
        assert bytes[n..][at - n..] == bytes[at..];
      }
    }
  }

  lemma {:induction false} LineTail(bytes: Bytes, at: nat)
    requires at < FirstLine(bytes)
    ensures FirstLine(bytes[at..]) == FirstLine(bytes) - at
  {
    if at > 0 {
      LineTail(bytes[1..], at - 1);
      assert bytes[1..][at - 1..] == bytes[at..];
    }
  }

  lemma ShareAndRemainder(whole: nat, count: nat)
    requires 0 < count
    ensures whole / count * count <= whole < whole / count * count + count
  {
  }

  lemma OneShareLess(share: nat, part: nat)
    requires 0 < part
    ensures share * part == share * (part - 1) + share
  {
  }

  lemma {:induction false} SharesGrow(share: nat, part: nat, count: nat)
    requires part <= count
    ensures share * part <= share * count
    decreases count - part
  {
    if part < count {
      OneShareLess(share, part + 1);
      SharesGrow(share, part + 1, count);
    }
  }

  // A part but the last ends at its target or no more than a line past it.
  lemma PartReaches(bytes: Bytes, count: nat, part: nat, start: nat, longest: nat)
    requires NoLonger(Lines(bytes), longest) && 0 < part < count && start <= |bytes|
    requires Target(bytes, count, part, start) <= |bytes|
    ensures var target, end := Target(bytes, count, part, start), SegmentEnd(bytes, count, part, start);
            target <= end <= target + longest
  {
    LineFrom(bytes, Target(bytes, count, part, start), longest);
  }

  // A part ends at its equal share or later, and no further past it than one line.
  lemma PartIsFair(bytes: Bytes, count: nat, part: nat, start: nat, longest: nat, share: nat)
    requires NoLonger(Lines(bytes), longest) && 0 < part <= count && share == |bytes| / count
    requires share * (part - 1) <= start <= |bytes|
    ensures var end := SegmentEnd(bytes, count, part, start);
            share * part <= end && end - start <= share + Max(longest, count - 1)
  {
    ShareAndRemainder(|bytes|, count);
    OneShareLess(share, part);
    SharesGrow(share, part, count);
    if part < count { PartReaches(bytes, count, part, start, longest); }
  }

  // Each segment is about as long as the others, and the first so many reach their equal share of the file.
  ghost predicate Fair(share: nat, slack: nat, part: nat, start: nat, segments: seq<Bytes>)
    requires 0 < part
  {
    && (forall i :: 0 <= i < |segments| ==> |segments[i]| <= share + slack)
    && (forall k :: 0 < k <= |segments| ==> share * (part - 1 + k) <= start + Total(segments[..k]))
  }

  lemma FairOfMore(share: nat, slack: nat, part: nat, start: nat, first: Bytes, rest: seq<Bytes>)
    requires 0 < part && |first| <= share + slack && share * part <= start + |first|
    requires Fair(share, slack, part + 1, start + |first|, rest)
    ensures Fair(share, slack, part, start, [first] + rest)
  {
    var segments := [first] + rest;
    forall k | 0 < k <= |segments|
      ensures share * (part - 1 + k) <= start + Total(segments[..k])
    {
      assert segments[..k] == [first] + rest[..k - 1];
      if k == 1 {
        assert Total(rest[..0]) == 0 && part - 1 + k == part;
      } else {
        assert part + 1 - 1 + (k - 1) == part - 1 + k;
      }
    }
  }

  lemma {:induction false} SegmentsFrom(bytes: Bytes, count: nat, part: nat, start: nat, longest: nat, share: nat)
    requires NoLonger(Lines(bytes), longest) && 0 < part <= count + 1 && 0 < count && share == |bytes| / count
    requires share * (part - 1) <= start <= |bytes|
    ensures Fair(share, Max(longest, count - 1), part, start, Segments(bytes, count, part, start))
    decreases count + 1 - part
  {
    if part <= count {
      PartIsFair(bytes, count, part, start, longest, share);
      var end := SegmentEnd(bytes, count, part, start);
      SegmentsFrom(bytes, count, part + 1, end, longest, share);
      FairOfMore(share, Max(longest, count - 1), part, start, bytes[start..end], Segments(bytes, count, part + 1, end));
    }
  }

  /**
  The segments are of about equal length: with no line longer than `longest`, none exceeds an equal share by
  more than a line or the remainder, and the first k hold at least k equal shares of the file together.
  */
  lemma SegmentsAreFair(bytes: Bytes, count: nat, longest: nat)
    requires NoLonger(Lines(bytes), longest) && 0 < count
    ensures var segments := Segments(bytes, count, 1, 0);
            && (forall i :: 0 <= i < |segments| ==> |segments[i]| <= |bytes| / count + Max(longest, count - 1))
            && (forall k :: 0 < k <= count ==> k <= |segments| && |bytes| / count * k <= Total(segments[..k]))
  {
    SegmentsFrom(bytes, count, 1, 0, longest, |bytes| / count);
    SegmentsCover(bytes, count, 1, 0);
    FairFromStart(|bytes| / count, Max(longest, count - 1), Segments(bytes, count, 1, 0));
  }

  lemma FairFromStart(share: nat, slack: nat, segments: seq<Bytes>)
    requires Fair(share, slack, 1, 0, segments)
    ensures forall k :: 0 < k <= |segments| ==> share * k <= Total(segments[..k])
  {
    forall k | 0 < k <= |segments| ensures share * k <= Total(segments[..k]) {
      assert 1 - 1 + k == k;
    }
  }

  // ---- What a line is ----

  // A line has its one end, LF or CR, last; only the last line of a file may have none.
  ghost predicate IsWhole(line: Bytes, last: bool) {
    && line != [] && (forall j :: 0 <= j < |line| - 1 ==> line[j] != 10 && line[j] != 13)
    && (last || line[|line| - 1] == 10 || line[|line| - 1] == 13)
  }

  lemma {:induction false} LinesHoldAll(bytes: Bytes)
    ensures Concat(Lines(bytes)) == bytes
    decreases |bytes|
  {
    if bytes != [] {
      var n := FirstLine(bytes);
      LinesUnfold(bytes, n);
      LinesHoldAll(bytes[n..]);
      PrefixAndRest(bytes, n);
      assert Lines(bytes)[1..] == Lines(bytes[n..]);
    }
  }

  lemma PrefixAndRest(bytes: Bytes, n: nat)
    requires n <= |bytes|
    ensures bytes[..n] + bytes[n..] == bytes
  {
  }

  /** The lines are all of the file, and each is whole: it ends at its one line end, or at the end of the file. */
  lemma LinesAreWhole(bytes: Bytes)
    ensures Concat(Lines(bytes)) == bytes
    ensures forall i :: 0 <= i < |Lines(bytes)| ==> IsWhole(Lines(bytes)[i], i == |Lines(bytes)| - 1)
  {
    LinesHoldAll(bytes);
    EachIsWhole(bytes);
  }

  lemma {:induction false} EachIsWhole(bytes: Bytes)
    ensures forall i :: 0 <= i < |Lines(bytes)| ==> IsWhole(Lines(bytes)[i], i == |Lines(bytes)| - 1)
    decreases |bytes|
  {
    if bytes != [] {
      var n := FirstLine(bytes);
      var first, rest := bytes[..n], Lines(bytes[n..]);
      LinesUnfold(bytes, n);
      FirstLineHasOneEnd(bytes);
      EachIsWhole(bytes[n..]);
      assert Lines(bytes) == [first] + rest;
      assert n == |bytes| ==> rest == [];
      assert IsWhole(first, rest == []);
    }
  }

  lemma {:induction false} FirstLineHasOneEnd(bytes: Bytes)
    ensures forall j :: 0 <= j < FirstLine(bytes) - 1 ==> bytes[j] != 10 && bytes[j] != 13
    ensures FirstLine(bytes) < |bytes| ==> bytes[FirstLine(bytes) - 1] == 10 || bytes[FirstLine(bytes) - 1] == 13
  {
    if bytes != [] && !IsLineEnd(bytes[0]) {
      FirstLineHasOneEnd(bytes[1..]);
      assert forall j :: 0 < j < |bytes| ==> bytes[j] == bytes[1..][j - 1];
    }
  }

  // ---- Evidence ----

  // The lines taken while less than the share was taken before them.
  function Take(lines: seq<Bytes>, taken: nat): seq<Bytes> {
    if lines == [] || taken >= SHARE then [] else [lines[0]] + Take(lines[1..], taken + |lines[0]|)
  }

  function TakeOfEach(segments: seq<Bytes>): seq<seq<Bytes>> {
    if segments == [] then [] else [Take(NonAscii(Lines(segments[0])), 0)] + TakeOfEach(segments[1..])
  }

  function Evidence(bytes: Bytes): seq<Bytes> {
    Concat(TakeOfEach(Segments(bytes, SEGMENTS, 1, 0)))
  }

  method TakeLines(lines: seq<Bytes>) returns (kept: seq<Bytes>)
    ensures kept == Take(lines, 0)
  {
    kept := [];
    var taken: nat := 0;
    var i := 0;
    while i < |lines|
      invariant 0 <= i <= |lines|
      invariant Take(lines, 0) == kept + Take(lines[i..], taken)
    {
      var withinShare := taken < SHARE;
      if !withinShare {
        break;
      }
      assert lines[i..][1..] == lines[i + 1..];
      taken := taken + |lines[i]|;
      kept := kept + [lines[i]];
      i := i + 1;
    }
  }

  lemma OneShareMore(segments: seq<Bytes>, s: nat, evidence: seq<Bytes>)
    requires s < |segments|
    ensures evidence + Concat(TakeOfEach(segments[s..]))
            == (evidence + Take(NonAscii(Lines(segments[s])), 0)) + Concat(TakeOfEach(segments[s + 1..]))
  {
    assert segments[s..][1..] == segments[s + 1..];
  }

  // What each segment gives, one after another.
  method TakeFromEach(segments: seq<Bytes>) returns (evidence: seq<Bytes>)
    ensures evidence == Concat(TakeOfEach(segments))
  {
    evidence := [];
    assert segments[0..] == segments;
    for s := 0 to |segments|
      invariant Concat(TakeOfEach(segments)) == evidence + Concat(TakeOfEach(segments[s..]))
    {
      var kept := TakeLines(NonAscii(Lines(segments[s])));
      OneShareMore(segments, s, evidence);
      evidence := evidence + kept;
    }
    assert segments[|segments|..] == [];
  }

  method EvidenceLines(bytes: Bytes) returns (evidence: seq<Bytes>)
    ensures evidence == Evidence(bytes)
  {
    var segments := LineAlignedSegments(bytes, SEGMENTS);
    evidence := TakeFromEach(segments);
  }

  /** `a` is `b` with some elements left out. */
  predicate Subsequence<A(==)>(a: seq<A>, b: seq<A>) {
    a == [] || (b != [] && ((a[0] == b[0] && Subsequence(a[1..], b[1..])) || Subsequence(a, b[1..])))
  }

  lemma {:induction false} SubsequenceConcat<A>(a: seq<A>, b: seq<A>, c: seq<A>, d: seq<A>)
    requires Subsequence(a, b) && Subsequence(c, d)
    ensures Subsequence(a + c, b + d)
    decreases |b|
  {
    if b == [] {
      assert a + c == c && b + d == d;
    } else {
      assert (b + d)[1..] == b[1..] + d;
      if a != [] && a[0] == b[0] && Subsequence(a[1..], b[1..]) {
        assert (a + c)[1..] == a[1..] + c;
        SubsequenceConcat(a[1..], b[1..], c, d);
      } else {
        SubsequenceConcat(a, b[1..], c, d);
      }
    }
  }

  lemma {:induction false} TakeIsSubsequence(lines: seq<Bytes>, taken: nat)
    ensures Subsequence(Take(lines, taken), lines)
  {
    if lines != [] && taken < SHARE {
      TakeIsSubsequence(lines[1..], taken + |lines[0]|);
    }
  }

  lemma {:induction false} NonAsciiConcat(a: seq<Bytes>, b: seq<Bytes>)
    ensures NonAscii(a + b) == NonAscii(a) + NonAscii(b)
  {
    if a == [] {
      assert a + b == b;
    } else {
      assert (a + b)[1..] == a[1..] + b;
      NonAsciiConcat(a[1..], b);
    }
  }

  lemma {:induction false} TakenAreSubsequence(segments: seq<Bytes>)
    ensures Subsequence(Concat(TakeOfEach(segments)), NonAscii(Concat(LinesOfEach(segments))))
  {
    if segments != [] {
      var lines := Lines(segments[0]);
      TakeIsSubsequence(NonAscii(lines), 0);
      TakenAreSubsequence(segments[1..]);
      NonAsciiConcat(lines, Concat(LinesOfEach(segments[1..])));
      SubsequenceConcat(Take(NonAscii(lines), 0), NonAscii(lines),
                        Concat(TakeOfEach(segments[1..])), NonAscii(Concat(LinesOfEach(segments[1..]))));
    }
  }

  lemma {:induction false} TakenOf(segments: seq<Bytes>, s: nat, line: Bytes)
    requires s < |segments| && line in Take(NonAscii(Lines(segments[s])), 0)
    ensures line in Concat(TakeOfEach(segments))
  {
    if s > 0 {
      assert segments[1..][s - 1] == segments[s];
      TakenOf(segments[1..], s - 1, line);
    }
  }

  /** Every segment with a line that is not ASCII gives evidence, however many lines the segments before it have. */
  lemma EverySegmentSpeaks(bytes: Bytes, s: nat)
    requires s < |Segments(bytes, SEGMENTS, 1, 0)| && NonAscii(Lines(Segments(bytes, SEGMENTS, 1, 0)[s])) != []
    ensures NonAscii(Lines(Segments(bytes, SEGMENTS, 1, 0)[s]))[0] in Evidence(bytes)
  {
    var segments := Segments(bytes, SEGMENTS, 1, 0);
    TakenOf(segments, s, NonAscii(Lines(segments[s]))[0]);
  }

  /** The lines kept are those with a byte of 0x80 or above. */
  lemma {:induction false} NonAsciiLines(lines: seq<Bytes>, line: Bytes)
    ensures line in NonAscii(lines) <==> line in lines && exists i :: 0 <= i < |line| && line[i] >= 0x80
  {
    if lines != [] {
      NonAsciiLines(lines[1..], line);
      assert lines == [lines[0]] + lines[1..];
    }
  }

  /** The evidence is lines of the file that are not ASCII, whole and in the file's order. */
  lemma EvidenceIsSubsequence(bytes: Bytes)
    ensures Subsequence(Evidence(bytes), NonAscii(Lines(bytes)))
  {
    var segments := Segments(bytes, SEGMENTS, 1, 0);
    TakenAreSubsequence(segments);
    SegmentsSplitNoLine(bytes, SEGMENTS, 1, 0);
    assert bytes[0..] == bytes;
  }

  predicate NoLonger(lines: seq<Bytes>, longest: nat) {
    forall i :: 0 <= i < |lines| ==> |lines[i]| <= longest
  }

  lemma NoLongerParts(a: seq<Bytes>, b: seq<Bytes>, longest: nat)
    requires NoLonger(a + b, longest)
    ensures NoLonger(a, longest) && NoLonger(b, longest)
  {
    forall i | 0 <= i < |a| ensures |a[i]| <= longest {
      assert a[i] == (a + b)[i];
    }
    forall i | 0 <= i < |b| ensures |b[i]| <= longest {
      assert b[i] == (a + b)[|a| + i];
    }
  }

  lemma {:induction false} TakeIsCapped(lines: seq<Bytes>, taken: nat, longest: nat)
    requires NoLonger(lines, longest)
    ensures taken <= SHARE + longest ==> taken + Total(Take(lines, taken)) <= SHARE + longest
  {
    if lines != [] && taken < SHARE {
      TakeIsCapped(lines[1..], taken + |lines[0]|, longest);
    }
  }

  lemma {:induction false} TotalConcat(a: seq<Bytes>, b: seq<Bytes>)
    ensures Total(a + b) == Total(a) + Total(b)
  {
    if a == [] {
      assert a + b == b;
    } else {
      assert (a + b)[1..] == a[1..] + b;
      TotalConcat(a[1..], b);
    }
  }

  lemma {:induction false} NonAsciiNoLonger(lines: seq<Bytes>, longest: nat)
    requires NoLonger(lines, longest)
    ensures NoLonger(NonAscii(lines), longest)
  {
    if lines != [] { NonAsciiNoLonger(lines[1..], longest); }
  }

  lemma TimesOneMore(n: nat, c: nat)
    ensures (n + 1) * c == n * c + c
  {
  }

  lemma TakenOfMore(first: Bytes, rest: seq<Bytes>, longest: nat)
    requires NoLonger(Lines(first), longest)
    ensures Total(Concat(TakeOfEach([first] + rest))) <= SHARE + longest + Total(Concat(TakeOfEach(rest)))
  {
    var lines := NonAscii(Lines(first));
    assert ([first] + rest)[1..] == rest;
    NonAsciiNoLonger(Lines(first), longest);
    TakeIsCapped(lines, 0, longest);
    TotalConcat(Take(lines, 0), Concat(TakeOfEach(rest)));
  }

  lemma {:induction false} TakenAreCapped(segments: seq<Bytes>, longest: nat)
    requires NoLonger(Concat(LinesOfEach(segments)), longest)
    ensures Total(Concat(TakeOfEach(segments))) <= |segments| * (SHARE + longest)
  {
    if segments != [] {
      var first, rest := segments[0], segments[1..];
      assert segments == [first] + rest;
      NoLongerParts(Lines(first), Concat(LinesOfEach(rest)), longest);
      TakenOfMore(first, rest, longest);
      TakenAreCapped(rest, longest);
      TimesOneMore(|rest|, SHARE + longest);
    }
  }

  /** The evidence is capped, whatever the file: each segment exceeds its share by one line at most. */
  lemma EvidenceIsCapped(bytes: Bytes, longest: nat)
    requires NoLonger(Lines(bytes), longest)
    ensures Total(Evidence(bytes)) <= MAX_EVIDENCE_BYTES + SEGMENTS * longest
  {
    var segments := Segments(bytes, SEGMENTS, 1, 0);
    SegmentsSplitNoLine(bytes, SEGMENTS, 1, 0);
    SegmentsCover(bytes, SEGMENTS, 1, 0);
    assert bytes[0..] == bytes;
    TakenAreCapped(segments, longest);
  }

  // All lines but the last together are below the share.
  predicate WithinShare(lines: seq<Bytes>, taken: nat) {
    lines == [] || taken + Total(lines[..|lines| - 1]) < SHARE
  }

  /** A segment gives all its lines exactly when those before its last are below the share. */
  lemma {:induction false} TakesAll(lines: seq<Bytes>, taken: nat)
    ensures |Take(lines, taken)| <= |lines|
    ensures Take(lines, taken) == lines <==> WithinShare(lines, taken)
    ensures Take(lines, taken) == lines <==> |Take(lines, taken)| == |lines|
  {
    if lines != [] {
      var next := taken + |lines[0]|;
      TakesAll(lines[1..], next);
      if |lines| > 1 {
        assert lines[..|lines| - 1] == [lines[0]] + lines[1..][..|lines| - 2];
      }
      assert lines == [lines[0]] + lines[1..];
    }
  }

  // Two parts that are no longer than two others make them up exactly when each is the other.
  lemma BothAreWhole<A>(a: seq<A>, b: seq<A>, first: seq<A>, rest: seq<A>)
    requires |a| <= |first| && |b| <= |rest|
    ensures a + b == first + rest <==> a == first && b == rest
  {
    if a + b == first + rest {
      assert |a + b| == |first + rest|;
      assert a == (a + b)[..|a|] && b == (a + b)[|a|..];
      assert first == (first + rest)[..|a|] && rest == (first + rest)[|a|..];
    }
  }

  lemma {:induction false} TakenOmitNothing(segments: seq<Bytes>)
    ensures |Concat(TakeOfEach(segments))| <= |NonAscii(Concat(LinesOfEach(segments)))|
    ensures Concat(TakeOfEach(segments)) == NonAscii(Concat(LinesOfEach(segments)))
            <==> forall i :: 0 <= i < |segments| ==> WithinShare(NonAscii(Lines(segments[i])), 0)
  {
    if segments != [] {
      var lines, rest := NonAscii(Lines(segments[0])), segments[1..];
      TakesAll(lines, 0);
      TakenOmitNothing(rest);
      NonAsciiConcat(Lines(segments[0]), Concat(LinesOfEach(rest)));
      var a, b := Take(lines, 0), Concat(TakeOfEach(rest));
      var all := NonAscii(Concat(LinesOfEach(rest)));
      BothAreWhole(a, b, lines, all);
      assert (forall i :: 0 <= i < |segments| ==> WithinShare(NonAscii(Lines(segments[i])), 0))
        <==> WithinShare(lines, 0) && forall i :: 0 <= i < |rest| ==> WithinShare(NonAscii(Lines(rest[i])), 0) by {
        forall i | 0 <= i < |rest| ensures rest[i] == segments[i + 1] {}
        forall i | 0 < i < |segments| ensures segments[i] == rest[i - 1] {}
      }
    }
  }

  /** No line is left out exactly when, in every segment, the lines before the last are below the share. */
  lemma EvidenceOmitsNothing(bytes: Bytes)
    ensures Evidence(bytes) == NonAscii(Lines(bytes))
            <==> var segments := Segments(bytes, SEGMENTS, 1, 0);
                 forall i :: 0 <= i < |segments| ==> WithinShare(NonAscii(Lines(segments[i])), 0)
  {
    var segments := Segments(bytes, SEGMENTS, 1, 0);
    TakenOmitNothing(segments);
    SegmentsSplitNoLine(bytes, SEGMENTS, 1, 0);
    assert bytes[0..] == bytes;
  }
}
