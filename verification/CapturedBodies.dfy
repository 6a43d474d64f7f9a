/** A response body captured for diagnostics: cut at a cap, on a UTF-8 character boundary. */
module CapturedBodies {
  import opened Wrappers
  import opened CsvAutomaton

  type Bytes = seq<byte>

  datatype BodyCapture = Whole | Truncated(total: nat) | Unreadable(reason: string)

  datatype CapturedBody = CapturedBody(bytes: Bytes, capture: BodyCapture)

  // A body that could not be read carries no bytes.
  predicate Valid(body: CapturedBody) {
    body.capture.Unreadable? ==> body.bytes == []
  }

  // ---- Well-formed UTF-8 ----

  predicate Continues(b: byte) {
    0x80 <= b <= 0xBF
  }

  // The length of the well-formed character some bytes begin with, by the grammar of section 4 of
  // RFC 3629, or zero when they begin with none.
  function CharLength(b: Bytes): (n: nat)
    ensures n <= |b|
    ensures n > 0 ==> !Continues(b[0]) && forall i :: 0 < i < n ==> Continues(b[i])
  {
    if |b| >= 1 && b[0] <= 0x7F then 1
    else if |b| >= 2 && 0xC2 <= b[0] <= 0xDF && Continues(b[1]) then 2
    else if |b| >= 3 && 0xE0 <= b[0] <= 0xEF && Continues(b[1]) && Continues(b[2])
            && (b[0] == 0xE0 ==> b[1] >= 0xA0) && (b[0] == 0xED ==> b[1] <= 0x9F) then 3
    else if |b| >= 4 && 0xF0 <= b[0] <= 0xF4 && Continues(b[1]) && Continues(b[2]) && Continues(b[3])
            && (b[0] == 0xF0 ==> b[1] >= 0x90) && (b[0] == 0xF4 ==> b[1] <= 0x8F) then 4
    else 0
  }

  predicate IsUtf8(b: Bytes)
    decreases |b|
  {
    b == [] || (CharLength(b) > 0 && IsUtf8(b[CharLength(b)..]))
  }

  // A Unicode scalar value: a code point that is no surrogate.
  type Scalar = u: int | 0 <= u <= 0x10FFFF && !(0xD800 <= u <= 0xDFFF)

  // A byte that continues a character, and the lowest six bits it carries.
  function Tail(n: nat): (b: byte)
    ensures Continues(b)
  {
    0x80 + n % 0x40
  }

  // A byte that begins a character, and the bits it carries.
  function Lead(mark: nat, bits: nat): byte
    requires mark + bits <= 0xFF
  {
    mark + bits
  }

  // A scalar value in as few bytes as hold it, six bits to each but the first (section 3 of RFC 3629).
  function Encode(u: Scalar): Bytes {
    if u < 0x80 then [Lead(0, u)]
    else if u < 0x800 then [Lead(0xC0, u / 0x40), Tail(u)]
    else if u < 0x1_0000 then [Lead(0xE0, u / 0x1000), Tail(u / 0x40), Tail(u)]
    else [Lead(0xF0, u / 0x4_0000), Tail(u / 0x1000), Tail(u / 0x40), Tail(u)]
  }

  function EncodeAll(text: seq<Scalar>): Bytes {
    if text == [] then [] else Encode(text[0]) + EncodeAll(text[1..])
  }

  lemma EncodedIsOneChar(u: Scalar, rest: Bytes)
    ensures CharLength(Encode(u) + rest) == |Encode(u)|
  {
    var c, b := Encode(u), Encode(u) + rest;
    assert forall i :: 0 <= i < |c| ==> b[i] == c[i];
    if u < 0x800 {
    } else if u < 0x1_0000 {
      assert b[0] == 0xE0 ==> u / 0x40 % 0x40 == u / 0x40;
      assert b[0] == 0xED ==> u / 0x40 % 0x40 == u / 0x40 - 0x340;
    } else {
      assert b[0] == 0xF0 ==> u / 0x1000 % 0x40 == u / 0x1000;
      assert b[0] == 0xF4 ==> u / 0x1000 % 0x40 == u / 0x1000 - 0x100;
    }
  }

  // Six bits more, and the two parts again.
  lemma SixMore(high: nat, low: nat)
    requires low < 0x40
    ensures (high * 0x40 + low) / 0x40 == high && (high * 0x40 + low) % 0x40 == low
  {
  }

  lemma SixMoreTwice(n: nat)
    ensures n / 0x40 / 0x40 == n / 0x1000 && n / 0x1000 / 0x40 == n / 0x4_0000
  {
  }

  lemma CharIsEncoded(b: Bytes) returns (u: Scalar)
    requires CharLength(b) > 0
    ensures Encode(u) == b[..CharLength(b)]
  {
    var n := CharLength(b);
    var first: int := b[0];
    if n == 1 {
      u := first;
    } else {
      var second: int := b[1] - 0x80;
      if n == 2 {
        SixMore(first - 0xC0, second);
        u := (first - 0xC0) * 0x40 + second;
      } else {
        var third: int := b[2] - 0x80;
        if n == 3 {
          var high := (first - 0xE0) * 0x40 + second;
          SixMore(first - 0xE0, second);
          SixMore(high, third);
          SixMoreTwice(high * 0x40 + third);
          u := high * 0x40 + third;
        } else {
          u := FourByteScalar(b);
        }
      }
    }
  }

  lemma FourByteScalar(b: Bytes) returns (u: Scalar)
    requires CharLength(b) == 4
    ensures Encode(u) == b[..4]
  {
    var first: int, second: int, third: int, fourth: int := b[0] - 0xF0, b[1] - 0x80, b[2] - 0x80, b[3] - 0x80;
    var high := first * 0x40 + second;
    var middle := high * 0x40 + third;
    SixMore(first, second);
    SixMore(high, third);
    SixMore(middle, fourth);
    SixMoreTwice(middle * 0x40 + fourth);
    u := middle * 0x40 + fourth;
  }

  /** Encoded text is well-formed. */
  lemma {:induction false} EncodedIsUtf8(text: seq<Scalar>)
    ensures IsUtf8(EncodeAll(text))
  {
    if text != [] {
      var rest := EncodeAll(text[1..]);
      EncodedIsOneChar(text[0], rest);
      EncodedIsUtf8(text[1..]);
      assert (Encode(text[0]) + rest)[|Encode(text[0])|..] == rest;
    }
  }

  /** Well-formed bytes are the encoding of some text, so the grammar admits exactly what encoding yields. */
  lemma {:induction false} Utf8IsEncoded(b: Bytes) returns (text: seq<Scalar>)
    requires IsUtf8(b)
    ensures EncodeAll(text) == b
    decreases |b|
  {
    text := [];
    if b != [] {
      var n := CharLength(b);
      var first := CharIsEncoded(b);
      var rest := Utf8IsEncoded(b[n..]);
      text := [first] + rest;
      assert text[1..] == rest && b == b[..n] + b[n..];
    }
  }

  /** Well-formed text may be cut exactly where no continuation byte follows. */
  lemma {:induction false} Utf8Prefix(b: Bytes, end: nat)
    requires IsUtf8(b) && end <= |b|
    ensures IsUtf8(b[..end]) <==> end == |b| || !Continues(b[end])
    decreases |b|
  {
    if end == |b| {
      assert b[..end] == b;
    } else if end > 0 {
      var n := CharLength(b);
      if end < n {
        assert CharLength(b[..end]) == 0;
      } else {
        assert CharLength(b[..end]) == n;
        assert b[..end][n..] == b[n..][..end - n];
        Utf8Prefix(b[n..], end - n);
      }
    }
  }

  // A character is at most four bytes, so a cut is never far from a boundary.
  lemma {:induction false} BoundaryIsNear(b: Bytes, cap: nat)
    requires IsUtf8(b) && cap < |b|
    ensures Continues(b[cap]) ==> cap >= 1
    ensures Continues(b[cap]) && Continues(b[cap - 1]) ==> cap >= 2
    ensures Continues(b[cap]) && Continues(b[cap - 1]) && Continues(b[cap - 2]) ==> cap >= 3 && !Continues(b[cap - 3])
    decreases |b|
  {
    var n := CharLength(b);
    if cap >= n {
      BoundaryIsNear(b[n..], cap - n);
    }
  }

  // ---- Cutting ----

  function WalkBack(b: Bytes, end: nat): (e: nat)
    requires end <= |b|
    ensures e <= end
    ensures forall i :: e < i <= end && i < |b| ==> Continues(b[i])
    ensures e > 0 && e < |b| ==> !Continues(b[e])
  {
    if 0 < end < |b| && Continues(b[end]) then WalkBack(b, end - 1) else end
  }

  // The largest index at or below the cap that splits no character, or the cap when the text up to
  // there is not well-formed anyway.
  function Boundary(b: Bytes, cap: nat): (end: nat)
    ensures end <= |b| && end <= cap
  {
    var limit := Min(cap, |b|);
    var end := WalkBack(b, limit);
    if IsUtf8(b[..end]) then end else limit
  }

  method CharBoundary(b: Bytes, cap: nat) returns (end: nat)
    ensures end == Boundary(b, cap)
  {
    end := Min(cap, |b|);
    while 0 < end < |b| && Continues(b[end])
      invariant end <= |b|
      invariant WalkBack(b, end) == WalkBack(b, Min(cap, |b|))
      decreases end
    {
      end := end - 1;
    }
    if !IsUtf8(b[..end]) {
      end := Min(cap, |b|);
    }
  }

  function Capped(b: Bytes, cap: nat): CapturedBody {
    if |b| <= cap then CapturedBody(b, Whole) else CapturedBody(b[..Boundary(b, cap)], Truncated(|b|))
  }

  method Capture(b: Bytes, cap: nat) returns (body: CapturedBody)
    ensures body == Capped(b, cap)
    ensures Valid(body) && body.bytes <= b && |body.bytes| <= cap
  {
    var total := |b|;
    if total <= cap {
      return CapturedBody(b, Whole);
    }
    var end := CharBoundary(b, cap);
    return CapturedBody(b[..end], Truncated(total));
  }

  function Echo(body: CapturedBody, cap: nat): CapturedBody {
    if |body.bytes| <= cap then body
    else
      var total := if body.capture.Truncated? then body.capture.total else |body.bytes|;
      CapturedBody(body.bytes[..Boundary(body.bytes, cap)], Truncated(total))
  }

  /** Of well-formed text a capture keeps the longest well-formed prefix the cap allows, and gives up
      at most three bytes of it. */
  lemma CappedIsLongestPrefix(b: Bytes, cap: nat)
    requires IsUtf8(b)
    ensures var kept := Capped(b, cap).bytes;
            && IsUtf8(kept) && kept <= b && |kept| <= cap
            && (forall end :: |kept| < end <= cap && end <= |b| ==> !IsUtf8(b[..end]))
            && |kept| + 3 >= Min(cap, |b|)
  {
    if |b| <= cap {
      assert b[..|b|] == b;
    } else {
      var end := WalkBack(b, cap);
      Utf8Prefix(b, end);
      if end == 0 { assert IsUtf8(b[..0]); }
      forall longer | end < longer <= cap ensures !IsUtf8(b[..longer]) {
        Utf8Prefix(b, longer);
      }
      BoundaryIsNear(b, cap);
    }
  }

  // The boundary of a cut text at a lower cap is the boundary of the text.
  lemma BoundaryOfPrefix(b: Bytes, end: nat, cap: nat)
    requires cap < end <= |b|
    ensures Boundary(b[..end], cap) == Boundary(b, cap)
  {
    WalkBackOfPrefix(b, end, cap);
    var e := WalkBack(b, cap);
    assert b[..end][..e] == b[..e];
  }

  lemma {:induction false} WalkBackOfPrefix(b: Bytes, end: nat, cap: nat)
    requires cap < end <= |b|
    ensures WalkBack(b[..end], cap) == WalkBack(b, cap)
    decreases cap
  {
    if 0 < cap && Continues(b[cap]) {
      WalkBackOfPrefix(b, end, cap - 1);
    }
  }

  // Between where a cut landed and its cap every other cap lands there too.
  lemma BoundaryIsStable(b: Bytes, cap: nat, lower: nat)
    requires cap < |b| && Boundary(b, cap) <= lower <= cap
    ensures Boundary(b, lower) == Boundary(b, cap) || (lower < cap && Boundary(b, cap) == cap)
  {
    WalkBackIsStable(b, cap, lower);
  }

  lemma {:induction false} WalkBackIsStable(b: Bytes, cap: nat, lower: nat)
    requires cap < |b| && WalkBack(b, cap) <= lower <= cap
    ensures WalkBack(b, lower) == WalkBack(b, cap)
    decreases cap
  {
    if lower < cap {
      WalkBackIsStable(b, cap - 1, lower);
    }
  }

  /** Cutting twice is cutting once at the lower cap, the true length included, for any bytes at all. */
  lemma EchoTwice(body: CapturedBody, a: nat, c: nat)
    ensures Echo(Echo(body, a), c) == Echo(body, Min(a, c))
  {
    var b := body.bytes;
    if |b| > a {
      var end := Boundary(b, a);
      if end > c {
        BoundaryOfPrefix(b, end, c);
        assert b[..end][..Boundary(b, c)] == b[..Boundary(b, c)];
      } else if c < a {
        BoundaryIsStable(b, a, c);
      }
    }
  }

  /** Echoing a capture is capturing under the lower cap. */
  lemma EchoOfCapped(b: Bytes, cap: nat, lower: nat)
    ensures Capped(b, cap) == Echo(CapturedBody(b, Whole), cap)
    ensures Echo(Capped(b, cap), lower) == Capped(b, Min(cap, lower))
  {
    EchoTwice(CapturedBody(b, Whole), cap, lower);
  }

  /**
  More than three bytes below the cap are given up exactly when the cut falls behind a run of four
  continuation bytes and the text before the run is well-formed, which is never so in UTF-8.
  */
  lemma GivesUpMoreThanThree(b: Bytes, cap: nat)
    requires |b| > cap
    ensures |Capped(b, cap).bytes| + 3 < cap <==>
            && cap >= 4
            && Continues(b[cap]) && Continues(b[cap - 1]) && Continues(b[cap - 2]) && Continues(b[cap - 3])
            && IsUtf8(b[..WalkBack(b, cap)])
  {
    if cap >= 4 && Continues(b[cap]) && Continues(b[cap - 1]) && Continues(b[cap - 2]) && Continues(b[cap - 3]) {
      assert WalkBack(b, cap) == WalkBack(b, cap - 1) == WalkBack(b, cap - 2) == WalkBack(b, cap - 3) == WalkBack(b, cap - 4);
    }
  }

  /** Stray continuation bytes can cost the whole capture, the well-formed text before them included. */
  lemma StrayBytesCostTheCapture()
    ensures Capped([0x61, 0x80, 0x80, 0x80, 0x80, 0x80, 0x80], 5).bytes == []
  {
    var b: Bytes := [0x61, 0x80, 0x80, 0x80, 0x80, 0x80, 0x80];
    assert WalkBack(b, 5) == WalkBack(b, 4) == WalkBack(b, 3) == WalkBack(b, 2) == WalkBack(b, 1) == 0;
    assert IsUtf8(b[..0]);
  }
}
