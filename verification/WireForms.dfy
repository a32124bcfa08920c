/** Which bytes the server accepts as a client frame: the frame's encoding, its strings UTF-8, except
    that each varint in it may be padded with empty groups as long as it stays within the length of its
    type. */
module WireForms {
  import opened Proto
  import opened Postcard

  /** The varint with `pad` empty groups after its own. */
  function PaddedVarint(n: nat, pad: nat): Bytes {
    if n >= 128 then [(n % 128 + 128) as u8] + PaddedVarint(n / 128, pad)
    else if pad == 0 then [n as u8]
    else [(n + 128) as u8] + PaddedVarint(0, pad - 1)
  }

  function PaddedBytes(b: Bytes, pad: nat): Bytes { PaddedVarint(|b|, pad) + b }

  /** How far each varint of a client frame is padded. */
  datatype Pads = Pads(variant: nat, from: nat, text: nat, counter: nat, timestamp: nat, ciphertext: nat)

  const NO_PADS: Pads := Pads(0, 0, 0, 0, 0, 0)

  /** A flag is one byte, 1 for true. */
  function Flag(b: bool): Bytes { if b then [1] else [0] }

  function PaddedTail(ad: MessageAd, p: Pads): Bytes {
    PaddedVarint(ad.counter as nat, p.counter) + (PaddedVarint(ad.timestampMs as nat, p.timestamp) + Flag(ad.ephemeral))
  }

  function PaddedAd(ad: MessageAd, p: Pads): Bytes {
    PaddedBytes(ad.from.octets, p.from) + (PaddedBytes(ad.username, p.text) + PaddedTail(ad, p))
  }

  function PaddedFrame(f: ClientFrame, p: Pads): Bytes {
    match f
    case RoomSelect(room) => PaddedVarint(0, p.variant) + PaddedBytes(room, p.text)
    case ClientHello(username) => PaddedVarint(1, p.variant) + PaddedBytes(username, p.text)
    case ClientMessage(ad, ciphertext) => PaddedVarint(2, p.variant) + (PaddedAd(ad, p) + PaddedBytes(ciphertext, p.ciphertext))
    case Clear => PaddedVarint(3, p.variant)
  }

  // ----- within the length of each type -----

  predicate Within(n: nat, pad: nat, maxLen: nat) { |PaddedVarint(n, pad)| <= maxLen }

  predicate AdWithin(ad: MessageAd, p: Pads) {
    && Within(16, p.from, 10) && Within(|ad.username|, p.text, 10)
    && Within(ad.counter as nat, p.counter, 10) && Within(ad.timestampMs as nat, p.timestamp, 10)
  }

  predicate FrameWithin(f: ClientFrame, p: Pads) {
    match f
    case RoomSelect(room) => Within(0, p.variant, 5) && Within(|room|, p.text, 10)
    case ClientHello(username) => Within(1, p.variant, 5) && Within(|username|, p.text, 10)
    case ClientMessage(ad, ciphertext) => Within(2, p.variant, 5) && AdWithin(ad, p) && Within(|ciphertext|, p.ciphertext, 10)
    case Clear => Within(3, p.variant, 5)
  }

  lemma {:induction false} UnpaddedIsPut(n: nat)
    ensures PaddedVarint(n, 0) == PutVarint(n)
  {
    if n >= 128 { UnpaddedIsPut(n / 128); }
  }

  /** The encoding itself is the form without padding. */
  lemma UnpaddedFrame(f: ClientFrame)
    ensures PaddedFrame(f, NO_PADS) == PutClientFrame(f)
  {
    forall n: nat ensures PaddedVarint(n, 0) == PutVarint(n) { UnpaddedIsPut(n); }
  }

  // ----- every accepted input has this form -----

  lemma {:induction false} GroupsForm(s: Bytes, maxLen: nat) returns (pad: nat)
    requires TakeGroups(s, maxLen).Parsed?
    ensures s == PaddedVarint(TakeGroups(s, maxLen).value, pad) + TakeGroups(s, maxLen).rest
    ensures Within(TakeGroups(s, maxLen).value, pad, maxLen)
  {
    pad := 0;
    if s[0] >= 128 {
      var high := TakeGroups(s[1..], maxLen - 1).value;
      pad := GroupsForm(s[1..], maxLen - 1);
      var n := (s[0] - 128) as nat + 128 * high;
      assert n / 128 == high && n % 128 == (s[0] - 128) as nat;
      if n < 128 {
        assert PaddedVarint(n, pad + 1) == [s[0]] + PaddedVarint(high, pad);
        pad := pad + 1;
      } else {
        assert PaddedVarint(n, pad) == [s[0]] + PaddedVarint(high, pad);
      }
    }
  }

  lemma BytesForm(s: Bytes) returns (pad: nat)
    requires TakeBytes(s).Parsed?
    ensures s == PaddedBytes(TakeBytes(s).value, pad) + TakeBytes(s).rest && Within(|TakeBytes(s).value|, pad, 10)
    ensures |TakeBytes(s).value| < TWO_64
  {
    pad := GroupsForm(s, 10);
  }

  lemma StringForm(s: Bytes) returns (pad: nat)
    requires TakeString(s).Parsed?
    ensures s == PaddedBytes(TakeString(s).value, pad) + TakeString(s).rest && Within(|TakeString(s).value|, pad, 10)
    ensures StringFits(TakeString(s).value)
  {
    pad := BytesForm(s);
  }

  lemma TailForm(s2: Bytes, s3: Bytes, s4: Bytes, s5: Bytes, counter: u64, timestampMs: u64, ephemeral: bool) returns (p3: nat, p4: nat)
    requires TakeU64(s2) == Parsed(counter, s3) && TakeU64(s3) == Parsed(timestampMs, s4)
    requires TakeBool(s4) == Parsed(ephemeral, s5)
    ensures s2 == (PaddedVarint(counter as nat, p3) + (PaddedVarint(timestampMs as nat, p4) + Flag(ephemeral))) + s5
    ensures Within(counter as nat, p3, 10) && Within(timestampMs as nat, p4, 10)
  {
    p3 := GroupsForm(s2, 10);
    p4 := GroupsForm(s3, 10);
    assert s4 == Flag(ephemeral) + s5;
  }

  lemma AdForm(s: Bytes, p0: Pads) returns (p: Pads)
    requires TakeAd(s).Parsed?
    ensures s == PaddedAd(TakeAd(s).value, p) + TakeAd(s).rest && AdWithin(TakeAd(s).value, p)
    ensures p.variant == p0.variant && p.ciphertext == p0.ciphertext && AdFits(TakeAd(s).value)
  {
    var Parsed(from, s1) := TakeUuid(s);
    var Parsed(username, s2) := TakeString(s1);
    var Parsed(counter, s3) := TakeU64(s2);
    var Parsed(timestampMs, s4) := TakeU64(s3);
    var Parsed(ephemeral, s5) := TakeBool(s4);
    var p1 := BytesForm(s);
    var p2 := StringForm(s1);
    var p3, p4 := TailForm(s2, s3, s4, s5, counter, timestampMs, ephemeral);
    p := p0.(from := p1, text := p2, counter := p3, timestamp := p4);
    Joined3(PaddedBytes(from.octets, p1), PaddedBytes(username, p2), PaddedTail(TakeAd(s).value, p), s5);
  }

  lemma Joined3(a: Bytes, b: Bytes, c: Bytes, rest: Bytes)
    ensures a + (b + (c + rest)) == (a + (b + c)) + rest
  {
  }

  lemma FrameForm(s: Bytes) returns (p: Pads)
    requires TakeClientFrame(s).Parsed?
    ensures s == PaddedFrame(TakeClientFrame(s).value, p) + TakeClientFrame(s).rest
    ensures FrameWithin(TakeClientFrame(s).value, p) && ClientFrameFits(TakeClientFrame(s).value)
  {
    var Parsed(f, rest) := TakeClientFrame(s);
    var Parsed(i, s1) := TakeVariant(s);
    var pad := GroupsForm(s, 5);
    p := NO_PADS.(variant := pad);
    match f
    case RoomSelect(text) =>
      pad := TextForm(s, s1, 0, p.variant, text, rest);
      p := p.(text := pad);
    case ClientHello(text) =>
      pad := TextForm(s, s1, 1, p.variant, text, rest);
      p := p.(text := pad);
    case ClientMessage(ad, ciphertext) => p := MessageForm(s, s1, ad, ciphertext, rest, p);
    case Clear =>
  }

  lemma TextForm(s: Bytes, s1: Bytes, i: nat, variantPad: nat, text: Bytes, rest: Bytes) returns (pad: nat)
    requires s == PaddedVarint(i, variantPad) + s1 && TakeString(s1) == Parsed(text, rest)
    ensures s == (PaddedVarint(i, variantPad) + PaddedBytes(text, pad)) + rest
    ensures Within(|text|, pad, 10) && StringFits(text)
  {
    pad := StringForm(s1);
  }

  lemma MessageForm(s: Bytes, s1: Bytes, ad: MessageAd, ciphertext: Bytes, rest: Bytes, p0: Pads) returns (p: Pads)
    requires s == PaddedVarint(2, p0.variant) + s1 && Within(2, p0.variant, 5)
    requires TakeAd(s1).Parsed? && TakeAd(s1).value == ad && TakeBytes(TakeAd(s1).rest) == Parsed(ciphertext, rest)
    ensures s == PaddedFrame(ClientMessage(ad, ciphertext), p) + rest
    ensures FrameWithin(ClientMessage(ad, ciphertext), p) && ClientFrameFits(ClientMessage(ad, ciphertext))
  {
    p := AdForm(s1, p0);
    var pad := BytesForm(TakeAd(s1).rest);
    p := p.(ciphertext := pad);
    Joined3(PaddedVarint(2, p.variant), PaddedAd(ad, p), PaddedBytes(ciphertext, pad), rest);
  }

  // ----- and every such form is accepted -----

  lemma {:induction false} GroupsOfForm(n: nat, pad: nat, maxLen: nat, rest: Bytes)
    requires Within(n, pad, maxLen)
    ensures TakeGroups(PaddedVarint(n, pad) + rest, maxLen) == Parsed(n, rest)
    decreases maxLen
  {
    var s := PaddedVarint(n, pad) + rest;
    if n >= 128 {
      GroupsOfForm(n / 128, pad, maxLen - 1, rest);
      assert s[1..] == PaddedVarint(n / 128, pad) + rest;
    } else if pad > 0 {
      GroupsOfForm(0, pad - 1, maxLen - 1, rest);
      assert s[1..] == PaddedVarint(0, pad - 1) + rest;
    } else {
      assert s[1..] == rest;
    }
  }

  lemma BytesOfForm(b: Bytes, pad: nat, rest: Bytes)
    requires |b| < TWO_64 && Within(|b|, pad, 10)
    ensures TakeBytes(PaddedBytes(b, pad) + rest) == Parsed(b, rest)
  {
    assert PaddedBytes(b, pad) + rest == PaddedVarint(|b|, pad) + (b + rest);
    GroupsOfForm(|b|, pad, 10, b + rest);
  }

  lemma StringOfForm(b: Bytes, pad: nat, rest: Bytes)
    requires StringFits(b) && Within(|b|, pad, 10)
    ensures TakeString(PaddedBytes(b, pad) + rest) == Parsed(b, rest)
  {
    BytesOfForm(b, pad, rest);
  }

  lemma AdOfForm(ad: MessageAd, p: Pads, rest: Bytes)
    requires AdFits(ad) && AdWithin(ad, p)
    ensures TakeAd(PaddedAd(ad, p) + rest) == Parsed(ad, rest)
  {
    var s4 := Flag(ad.ephemeral) + rest;
    var s3 := PaddedVarint(ad.timestampMs as nat, p.timestamp) + s4;
    var s2 := PaddedVarint(ad.counter as nat, p.counter) + s3;
    var s1 := PaddedBytes(ad.username, p.text) + s2;
    Joined3(PaddedVarint(ad.counter as nat, p.counter), PaddedVarint(ad.timestampMs as nat, p.timestamp), Flag(ad.ephemeral), rest);
    Joined3(PaddedBytes(ad.from.octets, p.from), PaddedBytes(ad.username, p.text), PaddedTail(ad, p), rest);
    BytesOfForm(ad.from.octets, p.from, s1);
    StringOfForm(ad.username, p.text, s2);
    GroupsOfForm(ad.counter as nat, p.counter, 10, s3);
    GroupsOfForm(ad.timestampMs as nat, p.timestamp, 10, s4);
    assert s4[1..] == rest;
  }

  lemma FrameOfForm(f: ClientFrame, p: Pads, rest: Bytes)
    requires ClientFrameFits(f) && FrameWithin(f, p)
    ensures TakeClientFrame(PaddedFrame(f, p) + rest) == Parsed(f, rest)
  {
    match f
    case RoomSelect(text) => TextOfForm(0, p.variant, text, p.text, rest);
    case ClientHello(text) => TextOfForm(1, p.variant, text, p.text, rest);
    case ClientMessage(ad, ciphertext) =>
      var s2 := PaddedBytes(ciphertext, p.ciphertext) + rest;
      var s1 := PaddedAd(ad, p) + s2;
      Joined3(PaddedVarint(2, p.variant), PaddedAd(ad, p), PaddedBytes(ciphertext, p.ciphertext), rest);
      GroupsOfForm(2, p.variant, 5, s1);
      AdOfForm(ad, p, s2);
      BytesOfForm(ciphertext, p.ciphertext, rest);
    case Clear => GroupsOfForm(3, p.variant, 5, rest);
  }

  lemma TextOfForm(i: nat, variantPad: nat, text: Bytes, pad: nat, rest: Bytes)
    requires i < 2 && Within(i, variantPad, 5) && StringFits(text) && Within(|text|, pad, 10)
    ensures TakeClientFrame((PaddedVarint(i, variantPad) + PaddedBytes(text, pad)) + rest)
         == Parsed(if i == 0 then RoomSelect(text) else ClientHello(text), rest)
  {
    var s1 := PaddedBytes(text, pad) + rest;
    assert (PaddedVarint(i, variantPad) + PaddedBytes(text, pad)) + rest == PaddedVarint(i, variantPad) + s1;
    GroupsOfForm(i, variantPad, 5, s1);
    StringOfForm(text, pad, rest);
  }

  /** The bytes the server accepts as a client frame, exactly: the frame's encoding, its strings UTF-8
      and its varints padded within the lengths of their types, and whatever follows. */
  lemma AcceptedExactly(s: Bytes, f: ClientFrame, rest: Bytes)
    ensures TakeClientFrame(s) == Parsed(f, rest)
       <==> ClientFrameFits(f) && exists p :: FrameWithin(f, p) && s == PaddedFrame(f, p) + rest
  {
    if TakeClientFrame(s) == Parsed(f, rest) {
      var p := FrameForm(s);
      assert FrameWithin(f, p) && s == PaddedFrame(f, p) + rest;
    }
    if ClientFrameFits(f) && exists p :: FrameWithin(f, p) && s == PaddedFrame(f, p) + rest {
      var p :| FrameWithin(f, p) && s == PaddedFrame(f, p) + rest;
      FrameOfForm(f, p, rest);
    }
  }
}
