/** Texts as UTF-8: the encoding of each character, and what its length and well-formedness come to. */
module Utf8 {
  import opened Proto
  import opened Postcard
  import opened Texts
  import opened RoomsConfig

  /** RFC 3629, section 3: the bits of the code point spread over one to four bytes. */
  function EncodeChar(c: char): (b: Bytes)
    ensures 1 <= |b| <= 4
  {
    var n := c as int;
    if n < 0x80 then [n as u8]
    else if n < 0x800 then [(0xC0 + n / 0x40) as u8, (0x80 + n % 0x40) as u8]
    else if n < 0x1_0000 then [(0xE0 + n / 0x1000) as u8, (0x80 + n / 0x40 % 0x40) as u8, (0x80 + n % 0x40) as u8]
    else [(0xF0 + n / 0x4_0000) as u8, (0x80 + n / 0x1000 % 0x40) as u8, (0x80 + n / 0x40 % 0x40) as u8, (0x80 + n % 0x40) as u8]
  }

  function Encode(s: Text): Bytes {
    if s == [] then [] else EncodeChar(s[0]) + Encode(s[1..])
  }

  lemma CharIsSequence(before: Bytes, c: char, after: Bytes)
    ensures SequenceAt(before + (EncodeChar(c) + after), |before|) == |EncodeChar(c)|
  {
    var b, e := before + (EncodeChar(c) + after), EncodeChar(c);
    assert forall i | 0 <= i < |e| :: b[|before| + i] == e[i];
  }

  lemma {:induction false} EncodedFrom(before: Bytes, s: Text)
    ensures Utf8From(before + Encode(s), |before|)
    decreases |s|
  {
    if s != [] {
      var e := EncodeChar(s[0]);
      CharIsSequence(before, s[0], Encode(s[1..]));
      EncodedFrom(before + e, s[1..]);
      assert (before + e) + Encode(s[1..]) == before + Encode(s);
    } else {
      assert before + Encode(s) == before;
    }
  }

  /** The bytes of a text are well-formed UTF-8, and the length its parser counts is theirs. */
  lemma {:induction false} EncodedText(s: Text)
    ensures ValidUtf8(Encode(s)) && |Encode(s)| == Utf8Length(s)
  {
    EncodedFrom([], s);
    assert [] + Encode(s) == Encode(s);
    if s != [] { EncodedText(s[1..]); }
  }
}
