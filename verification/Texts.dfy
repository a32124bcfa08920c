/** Texts and what trimming does to them. */
module Texts {

  type Text = seq<char>

  /** The characters with the Unicode White_Space property. */
  predicate IsWhitespace(c: char) {
    var n := c as int;
    || 9 <= n <= 13 || n == 0x20 || n == 0x85 || n == 0xa0 || n == 0x1680
    || 0x2000 <= n <= 0x200a || n == 0x2028 || n == 0x2029 || n == 0x202f || n == 0x205f || n == 0x3000
  }

  function TrimStart(s: Text): Text {
    if s != [] && IsWhitespace(s[0]) then TrimStart(s[1..]) else s
  }

  function TrimEnd(s: Text): Text {
    if s != [] && IsWhitespace(s[|s| - 1]) then TrimEnd(s[..|s| - 1]) else s
  }

  function Trim(s: Text): Text {
    TrimEnd(TrimStart(s))
  }

  lemma {:induction false} TrimEndFacts(s: Text)
    ensures TrimEnd(s) <= s
    ensures TrimEnd(s) != [] ==> !IsWhitespace(TrimEnd(s)[|TrimEnd(s)| - 1])
    ensures forall i | |TrimEnd(s)| <= i < |s| :: IsWhitespace(s[i])
  {
    if s != [] && IsWhitespace(s[|s| - 1]) { TrimEndFacts(s[..|s| - 1]); }
  }

  lemma {:induction false} TrimStartFacts(s: Text)
    ensures |TrimStart(s)| <= |s| && TrimStart(s) == s[|s| - |TrimStart(s)|..]
    ensures TrimStart(s) != [] ==> !IsWhitespace(TrimStart(s)[0])
    ensures forall i | 0 <= i < |s| - |TrimStart(s)| :: IsWhitespace(s[i])
  {
    if s != [] && IsWhitespace(s[0]) {
      var t := s[1..];
      TrimStartFacts(t);
      var k := |TrimStart(t)|;
      assert s[|s| - k..] == t[|t| - k..];
      forall i | 0 <= i < |s| - k ensures IsWhitespace(s[i]) {
        if i > 0 { assert s[i] == t[i - 1]; }
      }
    }
  }

  lemma {:induction false} TrimStartSkips(pad: Text, s: Text)
    requires forall i | 0 <= i < |pad| :: IsWhitespace(pad[i])
    requires s != [] ==> !IsWhitespace(s[0])
    ensures TrimStart(pad + s) == s
  {
    if pad == [] {
      assert pad + s == s;
    } else {
      assert (pad + s)[1..] == pad[1..] + s;
      TrimStartSkips(pad[1..], s);
    }
  }

  lemma {:induction false} TrimEndSkips(s: Text, pad: Text)
    requires forall i | 0 <= i < |pad| :: IsWhitespace(pad[i])
    requires s != [] ==> !IsWhitespace(s[|s| - 1])
    ensures TrimEnd(s + pad) == s
  {
    if pad == [] {
      assert s + pad == s;
    } else {
      var n := |pad| - 1;
      assert (s + pad)[..|s + pad| - 1] == s + pad[..n];
      TrimEndSkips(s, pad[..n]);
    }
  }

  ghost predicate Blank(pad: Text) {
    forall i | 0 <= i < |pad| :: IsWhitespace(pad[i])
  }

  /** Trimming removes exactly the white space around a text that has none at its ends. */
  lemma TrimPadded(before: Text, s: Text, after: Text)
    requires Blank(before) && Blank(after)
    requires s != [] ==> !IsWhitespace(s[0]) && !IsWhitespace(s[|s| - 1])
    ensures Trim(before + s + after) == s
  {
    if s == [] {
      assert before + s + after == (before + after) + [];
      TrimStartSkips(before + after, []);
    } else {
      assert before + s + after == before + (s + after);
      TrimStartSkips(before, s + after);
      TrimEndSkips(s, after);
    }
  }

  lemma TrimEnds(s: Text)
    ensures Trim(s) != [] ==> !IsWhitespace(Trim(s)[0]) && !IsWhitespace(Trim(s)[|Trim(s)| - 1])
    ensures Trim(Trim(s)) == Trim(s)
    ensures forall c | c in Trim(s) :: c in s
  {
    TrimStartFacts(s);
    TrimEndFacts(TrimStart(s));
    assert [] + Trim(s) + [] == Trim(s);
    TrimPadded([], Trim(s), []);
  }

  lemma TrimSplits(s: Text) returns (before: Text, after: Text)
    ensures s == before + Trim(s) + after && Blank(before) && Blank(after)
  {
    TrimStartFacts(s);
    TrimEndFacts(TrimStart(s));
    before := s[..|s| - |TrimStart(s)|];
    after := TrimStart(s)[|Trim(s)|..];
  }
}
