/** Inferring the byte order of UTF-16 text that carries no byte order mark. */
module BomlessUtf16 {
  import opened Wrappers
  import opened CsvAutomaton

  const WINDOW: nat := 8 * 1024

  datatype Order = LittleEndian | BigEndian

  type CodeUnit = u: int | 0 <= u < 0x1_0000

  // What the units below U+0100 show when they are read in one byte order.
  datatype Reading = Reading(latin: nat, lineEnds: nat, controls: nat)

  type Pair = (byte, byte)

  function Flip(order: Order): Order {
    if order.LittleEndian? then BigEndian else LittleEndian
  }

  function UnitOf(pair: Pair, order: Order): CodeUnit {
    if order.LittleEndian? then pair.0 + 0x100 * pair.1 else 0x100 * pair.0 + pair.1
  }

  predicate IsLineEnd(u: CodeUnit) {
    u == 10 || u == 13
  }

  // The C0 and C1 control characters and DEL, but for the tab and the line ends.
  predicate IsControl(u: CodeUnit) {
    (u < 0x20 || 0x7F <= u < 0xA0) && u != 9 && !IsLineEnd(u)
  }

  function With(r: Reading, unit: CodeUnit): Reading {
    if unit >= 0x100 then r
    else if IsLineEnd(unit) then r.(latin := r.latin + 1, lineEnds := r.lineEnds + 1)
    else if IsControl(unit) then r.(controls := r.controls + 1)
    else r.(latin := r.latin + 1)
  }

  function ReadIn(pairs: seq<Pair>, order: Order): Reading {
    if pairs == [] then Reading(0, 0, 0)
    else With(ReadIn(pairs[..|pairs| - 1], order), UnitOf(pairs[|pairs| - 1], order))
  }

  predicate IsText(r: Reading) {
    r.controls == 0 && r.latin > 0
  }

  // Whole pairs; an odd last byte is left out.
  function Pairs(bytes: seq<byte>): seq<Pair> {
    seq(|bytes| / 2, i requires 0 <= i < |bytes| / 2 => (bytes[2 * i], bytes[2 * i + 1]))
  }

  // Line ends decide, and among as many of them the printable characters.
  predicate Outreads(a: Reading, b: Reading) {
    a.lineEnds > b.lineEnds || (a.lineEnds == b.lineEnds && a.latin > b.latin)
  }

  function Decide(little: Reading, big: Reading): Option<Order> {
    if IsText(little) && !IsText(big) then Some(LittleEndian)
    else if !IsText(little) && IsText(big) then Some(BigEndian)
    else if !IsText(little) then None
    else if Outreads(little, big) then Some(LittleEndian)
    else if Outreads(big, little) then Some(BigEndian)
    else None
  }

  /** The byte order some bytes without a byte order mark are UTF-16 in, if they are. */
  function Detect(bytes: seq<byte>): Option<Order> {
    if |bytes| % 2 != 0 then None
    else
      var pairs := Pairs(bytes[..Min(|bytes|, WINDOW)]);
      Decide(ReadIn(pairs, LittleEndian), ReadIn(pairs, BigEndian))
  }

  // ---- Swapping ----

  function SwapPair(p: Pair): Pair {
    (p.1, p.0)
  }

  function SwapPairs(pairs: seq<Pair>): seq<Pair> {
    seq(|pairs|, i requires 0 <= i < |pairs| => SwapPair(pairs[i]))
  }

  /** The bytes with the two of every unit exchanged. */
  function Swap(bytes: seq<byte>): (swapped: seq<byte>)
    requires |bytes| % 2 == 0
    ensures |swapped| == |bytes|
  {
    seq(|bytes|, i requires 0 <= i < |bytes| => if i % 2 == 0 then bytes[i + 1] else bytes[i - 1])
  }

  lemma {:induction false} SwappedReadsFlipped(pairs: seq<Pair>, order: Order)
    ensures ReadIn(SwapPairs(pairs), order) == ReadIn(pairs, Flip(order))
  {
    if pairs != [] {
      var init := pairs[..|pairs| - 1];
      assert SwapPairs(pairs)[..|pairs| - 1] == SwapPairs(init);
      SwappedReadsFlipped(init, order);
    }
  }

  /** Exchanging the bytes of every unit flips the order detected, for every input of even length. */
  lemma DetectSwapped(bytes: seq<byte>)
    requires |bytes| % 2 == 0
    ensures Detect(Swap(bytes)) == match Detect(bytes) case None => None case Some(order) => Some(Flip(order))
  {
    var n := Min(|bytes|, WINDOW);
    var pairs := Pairs(bytes[..n]);
    assert Pairs(Swap(bytes)[..n]) == SwapPairs(pairs);
    SwappedReadsFlipped(pairs, LittleEndian);
    SwappedReadsFlipped(pairs, BigEndian);
  }

  // ---- Text in its own order ----

  function PairOf(u: CodeUnit, order: Order): Pair {
    if order.LittleEndian? then (u % 0x100, u / 0x100) else (u / 0x100, u % 0x100)
  }

  /** Text in UTF-16 in one byte order (section 3.1 of RFC 2781). */
  function Encode(text: seq<CodeUnit>, order: Order): (bytes: seq<byte>)
    ensures |bytes| == 2 * |text|
  {
    seq(2 * |text|, i requires 0 <= i < 2 * |text| =>
      var pair := PairOf(text[i / 2], order); if i % 2 == 0 then pair.0 else pair.1)
  }

  function EncodePairs(text: seq<CodeUnit>, order: Order): seq<Pair> {
    seq(|text|, i requires 0 <= i < |text| => PairOf(text[i], order))
  }

  lemma PairsOfEncoded(text: seq<CodeUnit>, order: Order, n: nat)
    requires n <= |text|
    ensures Pairs(Encode(text, order)[..2 * n]) == EncodePairs(text[..n], order)
  {
    var pairs, bytes := Pairs(Encode(text, order)[..2 * n]), Encode(text, order);
    forall i | 0 <= i < n ensures pairs[i] == PairOf(text[i], order) {
      assert bytes[2 * i] == PairOf(text[i], order).0 && bytes[2 * i + 1] == PairOf(text[i], order).1;
    }
  }

  // What is weighed of encoded text is its first units.
  lemma EncodedWindow(text: seq<CodeUnit>, order: Order)
    ensures var pairs := EncodePairs(text[..Min(|text|, WINDOW / 2)], order);
            Detect(Encode(text, order)) == Decide(ReadIn(pairs, LittleEndian), ReadIn(pairs, BigEndian))
  {
    var n := Min(|text|, WINDOW / 2);
    var bytes := Encode(text, order);
    PairsOfEncoded(text, order, n);
    assert |bytes| == 2 * |text| && Min(|bytes|, WINDOW) == 2 * n;
  }

  // A unit of text whose bytes, exchanged, are no line end: every one but U+0A00 and U+0D00, and no
  // control character.
  predicate IsTextUnit(u: CodeUnit) {
    !IsControl(u) && u != 0x0A00 && u != 0x0D00
  }

  function CountBelow(text: seq<CodeUnit>): nat {
    if text == [] then 0 else CountBelow(text[..|text| - 1]) + if text[|text| - 1] < 0x100 then 1 else 0
  }

  function CountLineEnds(text: seq<CodeUnit>): nat {
    if text == [] then 0 else CountLineEnds(text[..|text| - 1]) + if IsLineEnd(text[|text| - 1]) then 1 else 0
  }

  lemma UnitRoundTrip(u: CodeUnit, order: Order)
    ensures UnitOf(PairOf(u, order), order) == u
    ensures UnitOf(PairOf(u, order), Flip(order)) == u % 0x100 * 0x100 + u / 0x100
  {
  }

  // In its own order text reads as what it is; in the other it shows no line end.
  lemma {:induction false} TextReads(text: seq<CodeUnit>, order: Order)
    requires forall i :: 0 <= i < |text| ==> IsTextUnit(text[i])
    ensures ReadIn(EncodePairs(text, order), order) == Reading(CountBelow(text), CountLineEnds(text), 0)
    ensures ReadIn(EncodePairs(text, order), Flip(order)).lineEnds == 0
    ensures (forall i :: 0 <= i < |text| ==> text[i] < 0x100) ==> ReadIn(EncodePairs(text, order), Flip(order)) == Reading(0, 0, 0)
  {
    if text != [] {
      var init, last := text[..|text| - 1], text[|text| - 1];
      var pairs := EncodePairs(text, order);
      assert pairs[..|text| - 1] == EncodePairs(init, order);
      TextReads(init, order);
      UnitRoundTrip(last, order);
      assert last != 0;
    }
  }

  lemma {:induction false} CountsOfText(text: seq<CodeUnit>)
    ensures CountLineEnds(text) <= CountBelow(text)
    ensures (exists i :: 0 <= i < |text| && IsLineEnd(text[i])) ==> CountLineEnds(text) > 0
    ensures text != [] && text[0] < 0x100 ==> CountBelow(text) > 0
  {
    if text != [] {
      var init, last := text[..|text| - 1], text[|text| - 1];
      CountsOfText(init);
      if exists i :: 0 <= i < |text| && IsLineEnd(text[i]) {
        var i :| 0 <= i < |text| && IsLineEnd(text[i]);
        if i < |init| {
          assert IsLineEnd(init[i]);
        }
      }
    }
  }

  /**
  Any text that shows a line end and no control character within the window is detected in the order
  it was encoded in, however few of its units are Latin: no other unit but U+0A00 and U+0D00 reads as a
  line end with its bytes exchanged.
  */
  lemma LinesAreDetected(text: seq<CodeUnit>, order: Order)
    requires forall i :: 0 <= i < Min(|text|, WINDOW / 2) ==> IsTextUnit(text[i])
    requires exists i :: 0 <= i < Min(|text|, WINDOW / 2) && IsLineEnd(text[i])
    ensures Detect(Encode(text, order)) == Some(order)
  {
    var seen := text[..Min(|text|, WINDOW / 2)];
    var i :| 0 <= i < Min(|text|, WINDOW / 2) && IsLineEnd(text[i]);
    assert seen[i] == text[i];
    EncodedWindow(text, order);
    TextReads(seen, order);
    CountsOfText(seen);
  }

  /** Every non-empty text that shows printable Latin-1, tabs and line ends is detected in its own order. */
  lemma LatinIsDetected(text: seq<CodeUnit>, order: Order)
    requires text != [] && forall i :: 0 <= i < Min(|text|, WINDOW / 2) ==> text[i] < 0x100 && !IsControl(text[i])
    ensures Detect(Encode(text, order)) == Some(order)
  {
    var seen := text[..Min(|text|, WINDOW / 2)];
    EncodedWindow(text, order);
    TextReads(seen, order);
    CountsOfText(seen);
  }

  // ---- What is taken, and what is not ----

  // The units weighed, read in one order.
  function Units(bytes: seq<byte>, order: Order): seq<CodeUnit> {
    var n := Min(|bytes|, WINDOW) / 2;
    seq(n, i requires 0 <= i < n => UnitOf((bytes[2 * i], bytes[2 * i + 1]), order))
  }

  // NUL and every control character but the tab and the line ends.
  predicate HoldsControl(units: seq<CodeUnit>) {
    exists i :: 0 <= i < |units| && units[i] !in {9, 10, 13} && (units[i] < 0x20 || 0x7F <= units[i] <= 0x9F)
  }

  predicate HoldsLatin(units: seq<CodeUnit>) {
    exists i :: 0 <= i < |units| && units[i] < 0x100
  }

  /** Text shows a unit below U+0100, and none of those is a control character. */
  predicate ReadsAsText(units: seq<CodeUnit>) {
    HoldsLatin(units) && !HoldsControl(units)
  }

  ghost predicate AreUnits(pairs: seq<Pair>, order: Order, units: seq<CodeUnit>) {
    |units| == |pairs| && forall i :: 0 <= i < |pairs| ==> units[i] == UnitOf(pairs[i], order)
  }

  lemma {:induction false} ReadingCounts(pairs: seq<Pair>, order: Order, units: seq<CodeUnit>)
    requires AreUnits(pairs, order, units)
    ensures var r := ReadIn(pairs, order); r.latin + r.controls == CountBelow(units) && r.lineEnds == CountLineEnds(units)
  {
    if pairs != [] { ReadingCounts(pairs[..|pairs| - 1], order, units[..|pairs| - 1]); }
  }

  lemma {:induction false} ReadingControls(pairs: seq<Pair>, order: Order, units: seq<CodeUnit>)
    requires AreUnits(pairs, order, units)
    ensures ReadIn(pairs, order).controls > 0 <==> HoldsControl(units)
  {
    if pairs != [] {
      var n := |pairs| - 1;
      ReadingControls(pairs[..n], order, units[..n]);
      assert forall i :: 0 <= i < n ==> units[..n][i] == units[i];
    }
  }

  lemma {:induction false} SomeBelow(units: seq<CodeUnit>)
    ensures CountBelow(units) > 0 <==> HoldsLatin(units)
  {
    if units != [] {
      var n := |units| - 1;
      SomeBelow(units[..n]);
      assert forall i :: 0 <= i < n ==> units[..n][i] == units[i];
    }
  }

  // What one order shows, as it is weighed and as its units are.
  lemma Weighed(bytes: seq<byte>, order: Order)
    ensures var r, units := ReadIn(Pairs(bytes[..Min(|bytes|, WINDOW)]), order), Units(bytes, order);
            && (IsText(r) <==> ReadsAsText(units))
            && (IsText(r) ==> r.latin == CountBelow(units) && r.lineEnds == CountLineEnds(units))
  {
    var pairs := Pairs(bytes[..Min(|bytes|, WINDOW)]);
    assert |pairs| == Min(|bytes|, WINDOW) / 2;
    ReadingCounts(pairs, order, Units(bytes, order));
    ReadingControls(pairs, order, Units(bytes, order));
    SomeBelow(Units(bytes, order));
  }

  // Reads more line ends, or as many and more units below U+0100.
  predicate ShowsMore(a: seq<CodeUnit>, b: seq<CodeUnit>) {
    CountLineEnds(a) > CountLineEnds(b) || (CountLineEnds(a) == CountLineEnds(b) && CountBelow(a) > CountBelow(b))
  }

  /**
  An order is detected exactly when the length is even, the window reads as text in that order, and in the
  other it either does not, or shows less. So binary content, which holds NUL or another control character
  in both orders, is never taken.
  */
  lemma DetectsExactly(bytes: seq<byte>, order: Order)
    ensures Detect(bytes) == Some(order)
            <==> && |bytes| % 2 == 0
                 && ReadsAsText(Units(bytes, order))
                 && (ReadsAsText(Units(bytes, Flip(order))) ==> ShowsMore(Units(bytes, order), Units(bytes, Flip(order))))
  {
    Weighed(bytes, LittleEndian);
    Weighed(bytes, BigEndian);
  }

  /** Nothing is detected exactly when the length is odd, neither order reads as text, or both do and show as much. */
  lemma DetectsNothingExactly(bytes: seq<byte>)
    ensures Detect(bytes).None?
            <==> || |bytes| % 2 != 0
                 || (!ReadsAsText(Units(bytes, LittleEndian)) && !ReadsAsText(Units(bytes, BigEndian)))
                 || (&& ReadsAsText(Units(bytes, LittleEndian)) && ReadsAsText(Units(bytes, BigEndian))
                     && CountLineEnds(Units(bytes, LittleEndian)) == CountLineEnds(Units(bytes, BigEndian))
                     && CountBelow(Units(bytes, LittleEndian)) == CountBelow(Units(bytes, BigEndian)))
  {
    DetectsExactly(bytes, LittleEndian);
    DetectsExactly(bytes, BigEndian);
  }
}
