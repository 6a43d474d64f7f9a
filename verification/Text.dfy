/** Trimming text of its surrounding white space. */
module Text {
  // The Unicode White_Space property.
  predicate IsSpace(c: char) {
    var n := c as int;
    9 <= n <= 13 || n == 0x20 || n == 0x85 || n == 0xA0 || n == 0x1680 || 0x2000 <= n <= 0x200A
    || n == 0x2028 || n == 0x2029 || n == 0x202F || n == 0x205F || n == 0x3000
  }

  function TrimStart(s: string): (t: string)
    ensures t == [] || !IsSpace(t[0])
  {
    if s != [] && IsSpace(s[0]) then TrimStart(s[1..]) else s
  }

  function TrimEnd(s: string): (t: string)
    ensures t <= s
    ensures t == [] || !IsSpace(t[|t| - 1])
  {
    if s != [] && IsSpace(s[|s| - 1]) then TrimEnd(s[..|s| - 1]) else s
  }

  function Trim(s: string): string {
    TrimEnd(TrimStart(s))
  }

  predicate IsBlank(field: string) {
    Trim(field) == []
  }

  /** Trimming trimmed text changes nothing. */
  lemma TrimTwice(s: string)
    ensures Trim(Trim(s)) == Trim(s)
  {
    var t := Trim(s);
    assert t != [] ==> t[0] == TrimStart(s)[0];
  }

  predicate AllSpace(s: string) {
    forall c :: c in s ==> IsSpace(c)
  }

  lemma {:induction false} LeadingSpaceGoes(pad: string, s: string)
    requires AllSpace(pad)
    ensures TrimStart(pad + s) == TrimStart(s)
  {
    if pad == [] {
      assert pad + s == s;
    } else {
      assert pad[0] in pad && (pad + s)[1..] == pad[1..] + s;
      LeadingSpaceGoes(pad[1..], s);
    }
  }

  lemma {:induction false} TrailingSpaceGoes(s: string, pad: string)
    requires AllSpace(pad)
    ensures TrimEnd(s + pad) == TrimEnd(s)
  {
    if pad == [] {
      assert s + pad == s;
    } else {
      assert pad[|pad| - 1] in pad && (s + pad)[..|s + pad| - 1] == s + pad[..|pad| - 1];
      TrailingSpaceGoes(s, pad[..|pad| - 1]);
    }
  }

  /** Trimming takes exactly the white space around a text. */
  lemma TrimTakesPadding(before: string, s: string, after: string)
    requires AllSpace(before) && AllSpace(after) && (s != [] ==> !IsSpace(s[0]) && !IsSpace(s[|s| - 1]))
    ensures Trim(before + s + after) == s
  {
    assert before + s + after == before + (s + after);
    LeadingSpaceGoes(before, s + after);
    if s == [] {
      assert s + after == after + [] && TrimStart([]) == [];
      LeadingSpaceGoes(after, []);
    } else {
      assert TrimStart(s + after) == s + after;
      TrailingSpaceGoes(s, after);
    }
  }

  lemma {:induction false} TrimEndKeepsText(s: string)
    requires s != [] && !IsSpace(s[0])
    ensures TrimEnd(s) != [] && TrimEnd(s)[0] == s[0]
  {
    if IsSpace(s[|s| - 1]) { TrimEndKeepsText(s[..|s| - 1]); }
  }

  lemma TextIsNotBlank(s: string)
    requires s != [] && !IsSpace(s[0])
    ensures !IsBlank(s)
  {
    TrimEndKeepsText(s);
  }

  lemma TrimStartsWithText(s: string)
    requires !IsBlank(s)
    ensures Trim(s) != [] && !IsSpace(Trim(s)[0])
  {
    assert Trim(s)[0] == TrimStart(s)[0];
  }
}
