/** The binary form of the frames: the Postcard Wire Format. Integers wider than a byte are
    little-endian base-128 varints, an enum is its variant index followed by the variant's fields,
    a string, byte vector or list is its length followed by its elements, and a UUID is written as a
    byte string. */
module Postcard {
  import opened Proto

  /** The outcome of reading a value off the front of a byte string. */
  datatype Parsed<+T> = Failed | Parsed(value: T, rest: Bytes) {
    predicate IsFailure() { Failed? }
    function PropagateFailure<U>(): Parsed<U> requires Failed? { Failed }
    function Extract(): (T, Bytes) requires Parsed? { (value, rest) }
  }

  const TWO_16: nat := 0x1_0000
  const TWO_32: nat := 0x1_0000_0000
  const TWO_64: nat := 0x1_0000_0000_0000_0000

  // ----- varints -----

  function PutVarint(n: nat): Bytes {
    if n < 128 then [n as u8] else [(n % 128 + 128) as u8] + PutVarint(n / 128)
  }

  /** Reads at most `maxLen` groups of seven bits. */
  function TakeGroups(s: Bytes, maxLen: nat): Parsed<nat> {
    if maxLen == 0 || s == [] then Failed
    else if s[0] < 128 then Parsed(s[0] as nat, s[1..])
    else
      var (high, rest) :- TakeGroups(s[1..], maxLen - 1);
      Parsed((s[0] - 128) as nat + 128 * high, rest)
  }

  /** A varint of a fixed-width type: too many groups or too large a value is an error. */
  function TakeVarint(s: Bytes, maxLen: nat, bound: nat): Parsed<nat> {
    var (n, rest) :- TakeGroups(s, maxLen);
    if n < bound then Parsed(n, rest) else Failed
  }

  function TakeU16(s: Bytes): Parsed<u16> {
    var (n, rest) :- TakeVarint(s, 3, TWO_16);
    Parsed(n as u16, rest)
  }

  function TakeU64(s: Bytes): Parsed<u64> {
    var (n, rest) :- TakeVarint(s, 10, TWO_64);
    Parsed(n as u64, rest)
  }

  function TakeLength(s: Bytes): Parsed<nat> {
    TakeVarint(s, 10, TWO_64)
  }

  function TakeVariant(s: Bytes): Parsed<nat> {
    TakeVarint(s, 5, TWO_32)
  }

  // ----- raw bytes, strings, booleans -----

  function TakeRaw(s: Bytes, n: nat): (r: Parsed<Bytes>)
    ensures r.Parsed? ==> |r.value| == n
  {
    if n <= |s| then Parsed(s[..n], s[n..]) else Failed
  }

  function PutBytes(b: Bytes): Bytes {
    PutVarint(|b|) + b
  }

  function TakeBytes(s: Bytes): Parsed<Bytes> {
    var (n, rest) :- TakeLength(s);
    TakeRaw(rest, n)
  }

  predicate Continues(b: u8) { 0x80 <= b <= 0xBF }

  /** The second byte that may follow a leading byte of a three-byte sequence. */
  predicate LeadsThree(b0: u8, b1: u8) {
    || (b0 == 0xE0 && 0xA0 <= b1 <= 0xBF)
    || ((0xE1 <= b0 <= 0xEC || 0xEE <= b0 <= 0xEF) && Continues(b1))
    || (b0 == 0xED && 0x80 <= b1 <= 0x9F)
  }

  predicate LeadsFour(b0: u8, b1: u8) {
    || (b0 == 0xF0 && 0x90 <= b1 <= 0xBF)
    || (0xF1 <= b0 <= 0xF3 && Continues(b1))
    || (b0 == 0xF4 && 0x80 <= b1 <= 0x8F)
  }

  /** The length of the well-formed sequence that starts at `i`, 0 if there is none. */
  function SequenceAt(b: Bytes, i: nat): (n: nat)
    requires i < |b|
    ensures i + n <= |b|
  {
    if b[i] < 0x80 then 1
    else if i + 1 < |b| && 0xC2 <= b[i] <= 0xDF && Continues(b[i + 1]) then 2
    else if i + 2 < |b| && LeadsThree(b[i], b[i + 1]) && Continues(b[i + 2]) then 3
    else if i + 3 < |b| && LeadsFour(b[i], b[i + 1]) && Continues(b[i + 2]) && Continues(b[i + 3]) then 4
    else 0
  }

  predicate Utf8From(b: Bytes, i: nat)
    requires i <= |b|
    decreases |b| - i
  {
    i == |b| || (SequenceAt(b, i) > 0 && Utf8From(b, i + SequenceAt(b, i)))
  }

  /** Well-formed UTF-8, as RFC 3629 defines it in section 4: no overlong forms, no surrogates, nothing
      beyond the last code point. */
  predicate ValidUtf8(b: Bytes) { Utf8From(b, 0) }

  /** A string is written as its bytes, and refused on reading if they are not UTF-8. */
  function TakeString(s: Bytes): Parsed<Bytes> {
    var (b, rest) :- TakeBytes(s);
    if ValidUtf8(b) then Parsed(b, rest) else Failed
  }

  function PutUuid(u: Uuid): Bytes {
    PutBytes(u.octets)
  }

  function TakeUuid(s: Bytes): Parsed<Uuid> {
    var (b, rest) :- TakeBytes(s);
    if |b| == 16 then Parsed(Uuid(b), rest) else Failed
  }

  function PutBool(b: bool): Bytes {
    [if b then 1 else 0]
  }

  function TakeBool(s: Bytes): Parsed<bool> {
    if s != [] && s[0] <= 1 then Parsed(s[0] == 1, s[1..]) else Failed
  }

  // ----- messages -----

  function PutAd(ad: MessageAd): Bytes {
    PutUuid(ad.from) + (PutBytes(ad.username) +
    (PutVarint(ad.counter as nat) + (PutVarint(ad.timestampMs as nat) + PutBool(ad.ephemeral))))
  }

  function TakeAd(s: Bytes): Parsed<MessageAd> {
    var (from, s1) :- TakeUuid(s);
    var (username, s2) :- TakeString(s1);
    var (counter, s3) :- TakeU64(s2);
    var (timestampMs, s4) :- TakeU64(s3);
    var (ephemeral, s5) :- TakeBool(s4);
    Parsed(MessageAd(from, username, counter, timestampMs, ephemeral), s5)
  }

  function PutMessage(m: RoomMessage): Bytes {
    PutUuid(m.from) + (PutBytes(m.username) + (PutAd(m.ad) + PutBytes(m.ciphertext)))
  }

  function TakeMessage(s: Bytes): Parsed<RoomMessage> {
    var (from, s1) :- TakeUuid(s);
    var (username, s2) :- TakeString(s1);
    var (ad, s3) :- TakeAd(s2);
    var (ciphertext, s4) :- TakeBytes(s3);
    Parsed(RoomMessage(from, username, ad, ciphertext), s4)
  }

  function PutMessages(ms: seq<RoomMessage>): Bytes {
    if ms == [] then [] else PutMessage(ms[0]) + PutMessages(ms[1..])
  }

  /** Reads `n` values one after the other. */
  function TakeMany<T>(take: Bytes -> Parsed<T>, s: Bytes, n: nat): Parsed<seq<T>>
    decreases n
  {
    if n == 0 then Parsed([], s)
    else
      var (x, s1) :- take(s);
      var (xs, s2) :- TakeMany(take, s1, n - 1);
      Parsed([x] + xs, s2)
  }

  function TakeMessages(s: Bytes, n: nat): Parsed<seq<RoomMessage>> { TakeMany(TakeMessage, s, n) }

  // ----- frames -----

  function ErrorIndex(e: ErrorKind): nat {
    match e
    case AuthFailed => 0
    case BadFrame => 1
    case RateLimited => 2
    case UnsupportedVersion => 3
    case Internal => 4
  }

  function TakeError(s: Bytes): Parsed<ErrorKind> {
    var (i, rest) :- TakeVariant(s);
    match i
    case 0 => Parsed(AuthFailed, rest)
    case 1 => Parsed(BadFrame, rest)
    case 2 => Parsed(RateLimited, rest)
    case 3 => Parsed(UnsupportedVersion, rest)
    case 4 => Parsed(Internal, rest)
    case _ => Failed
  }

  function PutClientFrame(f: ClientFrame): Bytes {
    match f
    case RoomSelect(room) => PutVarint(0) + PutBytes(room)
    case ClientHello(username) => PutVarint(1) + PutBytes(username)
    case ClientMessage(ad, ciphertext) => PutVarint(2) + (PutAd(ad) + PutBytes(ciphertext))
    case Clear => PutVarint(3)
  }

  function TakeClientFrame(s: Bytes): Parsed<ClientFrame> {
    var (i, s1) :- TakeVariant(s);
    match i
    case 0 =>
      var (room, s2) :- TakeString(s1);
      Parsed(RoomSelect(room), s2)
    case 1 =>
      var (username, s2) :- TakeString(s1);
      Parsed(ClientHello(username), s2)
    case 2 =>
      var (ad, s2) :- TakeAd(s1);
      var (ciphertext, s3) :- TakeBytes(s2);
      Parsed(ClientMessage(ad, ciphertext), s3)
    case 3 => Parsed(Clear, s1)
    case _ => Failed
  }

  function PutServerFrame(f: ServerFrame): Bytes {
    match f
    case ServerHello(salt, version) => PutVarint(0) + (salt + PutVarint(version as nat))
    case Welcome(userId, history) =>
      PutVarint(1) + (PutUuid(userId) + (PutVarint(|history|) + PutMessages(history)))
    case Message(m) => PutVarint(2) + PutMessage(m)
    case Cleared(author, username) => PutVarint(3) + (PutUuid(author) + PutBytes(username))
    case Error(reason) => PutVarint(4) + PutVarint(ErrorIndex(reason))
  }

  function TakeServerFrame(s: Bytes): Parsed<ServerFrame> {
    var (i, s1) :- TakeVariant(s);
    match i
    case 0 =>
      var (salt, s2) :- TakeRaw(s1, 32);
      var (version, s3) :- TakeU16(s2);
      Parsed(ServerHello(salt, version), s3)
    case 1 =>
      var (userId, s2) :- TakeUuid(s1);
      var (n, s3) :- TakeLength(s2);
      var (history, s4) :- TakeMessages(s3, n);
      Parsed(Welcome(userId, history), s4)
    case 2 =>
      var (m, s2) :- TakeMessage(s1);
      Parsed(Message(m), s2)
    case 3 =>
      var (author, s2) :- TakeUuid(s1);
      var (username, s3) :- TakeString(s2);
      Parsed(Cleared(author, username), s3)
    case 4 =>
      var (reason, s2) :- TakeError(s1);
      Parsed(Error(reason), s2)
    case _ => Failed
  }

  // ----- what every value of the program satisfies: strings are UTF-8, and on a 64-bit machine no
  // string, vector or list is longer than its length type -----

  predicate StringFits(b: Bytes) { |b| < TWO_64 && ValidUtf8(b) }

  predicate AdFits(ad: MessageAd) { StringFits(ad.username) }

  predicate MessageFits(m: RoomMessage) {
    StringFits(m.username) && AdFits(m.ad) && |m.ciphertext| < TWO_64
  }

  predicate ClientFrameFits(f: ClientFrame) {
    match f
    case RoomSelect(room) => StringFits(room)
    case ClientHello(username) => StringFits(username)
    case ClientMessage(ad, ciphertext) => AdFits(ad) && |ciphertext| < TWO_64
    case Clear => true
  }

  predicate ServerFrameFits(f: ServerFrame) {
    match f
    case ServerHello(_, _) => true
    case Welcome(_, history) => |history| < TWO_64 && forall i | 0 <= i < |history| :: MessageFits(history[i])
    case Message(m) => MessageFits(m)
    case Cleared(_, username) => StringFits(username)
    case Error(_) => true
  }

  lemma {:induction false} AsciiIsUtf8(b: Bytes, i: nat)
    requires i <= |b| && forall k | 0 <= k < |b| :: b[k] < 0x80
    ensures Utf8From(b, i)
    decreases |b| - i
  {
    if i < |b| { AsciiIsUtf8(b, i + 1); }
  }

  /** The names the server admits are ASCII, so its messages are among these values. */
  lemma AdmissibleFits(name: Bytes)
    requires AdmissibleUsername(name)
    ensures StringFits(name)
  {
    AsciiIsUtf8(name, 0);
  }

  lemma BoundedFits(m: RoomMessage)
    requires WithinBounds(m)
    ensures MessageFits(m)
  {
    AdmissibleFits(m.username);
  }

  // ----- reading back what was written -----

  function Pow128(k: nat): nat { if k == 0 then 1 else 128 * Pow128(k - 1) }

  lemma PowersReach()
    ensures Pow128(1) == 128 && Pow128(2) == 16384
    ensures Pow128(3) >= TWO_16 && Pow128(5) >= TWO_32
    ensures Pow128(9) == 0x8000_0000_0000_0000 && Pow128(10) >= TWO_64
  {
    assert Pow128(0) == 1;
    assert Pow128(1) == 128;
    assert Pow128(2) == 16384;
    assert Pow128(3) == 0x20_0000;
    assert Pow128(4) == 0x1000_0000;
    assert Pow128(5) == 0x8_0000_0000;
    assert Pow128(6) == 0x400_0000_0000;
    assert Pow128(7) == 0x2_0000_0000_0000;
    assert Pow128(8) == 0x100_0000_0000_0000;
    assert Pow128(9) == 0x8000_0000_0000_0000;
    assert Pow128(10) == 128 * Pow128(9);
  }

  lemma {:induction false} GroupsRoundTrip(n: nat, maxLen: nat, rest: Bytes)
    requires 1 <= maxLen && n < Pow128(maxLen)
    ensures TakeGroups(PutVarint(n) + rest, maxLen) == Parsed(n, rest)
  {
    var s := PutVarint(n) + rest;
    if n < 128 {
      assert s[1..] == rest;
    } else {
      GroupsRoundTrip(n / 128, maxLen - 1, rest);
      assert s[1..] == PutVarint(n / 128) + rest;
    }
  }

  lemma VariantRoundTrip(n: nat, rest: Bytes)
    requires n < TWO_32
    ensures TakeVariant(PutVarint(n) + rest) == Parsed(n, rest)
  {
    PowersReach();
    GroupsRoundTrip(n, 5, rest);
  }

  lemma U16RoundTrip(n: u16, rest: Bytes)
    ensures TakeU16(PutVarint(n as nat) + rest) == Parsed(n, rest)
  {
    PowersReach();
    GroupsRoundTrip(n as nat, 3, rest);
  }

  lemma LengthRoundTrip(n: nat, rest: Bytes)
    requires n < TWO_64
    ensures TakeLength(PutVarint(n) + rest) == Parsed(n, rest)
  {
    PowersReach();
    GroupsRoundTrip(n, 10, rest);
  }

  lemma U64RoundTrip(n: u64, rest: Bytes)
    ensures TakeU64(PutVarint(n as nat) + rest) == Parsed(n, rest)
  {
    LengthRoundTrip(n as nat, rest);
  }

  lemma BytesRoundTrip(b: Bytes, rest: Bytes)
    requires |b| < TWO_64
    ensures TakeBytes(PutBytes(b) + rest) == Parsed(b, rest)
  {
    assert PutBytes(b) + rest == PutVarint(|b|) + (b + rest);
    LengthRoundTrip(|b|, b + rest);
  }

  lemma StringRoundTrip(b: Bytes, rest: Bytes)
    requires StringFits(b)
    ensures TakeString(PutBytes(b) + rest) == Parsed(b, rest)
  {
    BytesRoundTrip(b, rest);
  }

  lemma UuidRoundTrip(u: Uuid, rest: Bytes)
    ensures TakeUuid(PutUuid(u) + rest) == Parsed(u, rest)
  {
    BytesRoundTrip(u.octets, rest);
  }

  lemma AdRoundTrip(ad: MessageAd, rest: Bytes)
    requires AdFits(ad)
    ensures TakeAd(PutAd(ad) + rest) == Parsed(ad, rest)
  {
    var s4 := PutBool(ad.ephemeral) + rest;
    var s3 := PutVarint(ad.timestampMs as nat) + s4;
    var s2 := PutVarint(ad.counter as nat) + s3;
    var s1 := PutBytes(ad.username) + s2;
    assert PutAd(ad) + rest == PutUuid(ad.from) + s1;
    UuidRoundTrip(ad.from, s1);
    StringRoundTrip(ad.username, s2);
    U64RoundTrip(ad.counter, s3);
    U64RoundTrip(ad.timestampMs, s4);
    assert s4[1..] == rest;
  }

  lemma MessageRoundTrip(m: RoomMessage, rest: Bytes)
    requires MessageFits(m)
    ensures TakeMessage(PutMessage(m) + rest) == Parsed(m, rest)
  {
    var s3 := PutBytes(m.ciphertext) + rest;
    var s2 := PutAd(m.ad) + s3;
    var s1 := PutBytes(m.username) + s2;
    assert PutMessage(m) + rest == PutUuid(m.from) + s1;
    UuidRoundTrip(m.from, s1);
    StringRoundTrip(m.username, s2);
    AdRoundTrip(m.ad, s3);
    BytesRoundTrip(m.ciphertext, rest);
  }

  lemma ManyStep<T>(take: Bytes -> Parsed<T>, head: Bytes, x: T, tail: Bytes, xs: seq<T>, rest: Bytes)
    requires take(head + (tail + rest)) == Parsed(x, tail + rest)
    requires TakeMany(take, tail + rest, |xs|) == Parsed(xs, rest)
    ensures TakeMany(take, (head + tail) + rest, |xs| + 1) == Parsed([x] + xs, rest)
  {
    assert (head + tail) + rest == head + (tail + rest);
  }

  lemma {:induction false} MessagesRoundTrip(ms: seq<RoomMessage>, rest: Bytes)
    requires forall i | 0 <= i < |ms| :: MessageFits(ms[i])
    ensures TakeMessages(PutMessages(ms) + rest, |ms|) == Parsed(ms, rest)
  {
    if ms == [] {
      assert PutMessages(ms) + rest == rest;
    } else {
      MessagesRoundTrip(ms[1..], rest);
      MessageRoundTrip(ms[0], PutMessages(ms[1..]) + rest);
      ManyStep(TakeMessage, PutMessage(ms[0]), ms[0], PutMessages(ms[1..]), ms[1..], rest);
      assert [ms[0]] + ms[1..] == ms;
    }
  }

  lemma ClientMessageRoundTrip(ad: MessageAd, ciphertext: Bytes, rest: Bytes)
    requires AdFits(ad) && |ciphertext| < TWO_64
    ensures TakeClientFrame(PutClientFrame(ClientMessage(ad, ciphertext)) + rest)
         == Parsed(ClientMessage(ad, ciphertext), rest)
  {
    var s2 := PutBytes(ciphertext) + rest;
    var s1 := PutAd(ad) + s2;
    assert PutClientFrame(ClientMessage(ad, ciphertext)) + rest == PutVarint(2) + s1;
    VariantRoundTrip(2, s1);
    AdRoundTrip(ad, s2);
    BytesRoundTrip(ciphertext, rest);
  }

  lemma ClientTextRoundTrip(text: Bytes, rest: Bytes)
    requires StringFits(text)
    ensures TakeClientFrame(PutClientFrame(RoomSelect(text)) + rest) == Parsed(RoomSelect(text), rest)
    ensures TakeClientFrame(PutClientFrame(ClientHello(text)) + rest) == Parsed(ClientHello(text), rest)
  {
    var s := PutBytes(text) + rest;
    assert PutClientFrame(RoomSelect(text)) + rest == PutVarint(0) + s;
    assert PutClientFrame(ClientHello(text)) + rest == PutVarint(1) + s;
    VariantRoundTrip(0, s);
    VariantRoundTrip(1, s);
    StringRoundTrip(text, rest);
  }

  /** Decoding an encoded client frame returns the frame and leaves what follows it. */
  lemma ClientFrameRoundTrip(f: ClientFrame, rest: Bytes)
    requires ClientFrameFits(f)
    ensures TakeClientFrame(PutClientFrame(f) + rest) == Parsed(f, rest)
  {
    match f
    case RoomSelect(room) => ClientTextRoundTrip(room, rest);
    case ClientHello(username) => ClientTextRoundTrip(username, rest);
    case ClientMessage(ad, ciphertext) => ClientMessageRoundTrip(ad, ciphertext, rest);
    case Clear => VariantRoundTrip(3, rest);
  }

  lemma ServerHelloRoundTrip(salt: Octets32, version: u16, rest: Bytes)
    ensures TakeServerFrame(PutServerFrame(ServerHello(salt, version)) + rest)
         == Parsed(ServerHello(salt, version), rest)
  {
    var s2 := PutVarint(version as nat) + rest;
    var s1 := salt + s2;
    assert PutServerFrame(ServerHello(salt, version)) + rest == PutVarint(0) + s1;
    VariantRoundTrip(0, s1);
    assert s1[..32] == salt && s1[32..] == s2;
    U16RoundTrip(version, rest);
  }

  lemma Regrouped(a: Bytes, b: Bytes, c: Bytes, d: Bytes, rest: Bytes)
    ensures (a + (b + (c + d))) + rest == a + (b + (c + (d + rest)))
  {
  }

  lemma WelcomeParts(s: Bytes, s1: Bytes, s2: Bytes, s3: Bytes, userId: Uuid, history: seq<RoomMessage>, rest: Bytes)
    requires TakeVariant(s) == Parsed(1, s1) && TakeUuid(s1) == Parsed(userId, s2)
    requires TakeLength(s2) == Parsed(|history|, s3) && TakeMessages(s3, |history|) == Parsed(history, rest)
    ensures TakeServerFrame(s) == Parsed(Welcome(userId, history), rest)
  {
  }

  lemma WelcomeRoundTrip(userId: Uuid, history: seq<RoomMessage>, rest: Bytes)
    requires ServerFrameFits(Welcome(userId, history))
    ensures TakeServerFrame(PutServerFrame(Welcome(userId, history)) + rest) == Parsed(Welcome(userId, history), rest)
  {
    var s3 := PutMessages(history) + rest;
    var s2 := PutVarint(|history|) + s3;
    var s1 := PutUuid(userId) + s2;
    Regrouped(PutVarint(1), PutUuid(userId), PutVarint(|history|), PutMessages(history), rest);
    VariantRoundTrip(1, s1);
    UuidRoundTrip(userId, s2);
    LengthRoundTrip(|history|, s3);
    MessagesRoundTrip(history, rest);
    WelcomeParts(PutVarint(1) + s1, s1, s2, s3, userId, history, rest);
  }

  lemma BroadcastMessageRoundTrip(m: RoomMessage, rest: Bytes)
    requires MessageFits(m)
    ensures TakeServerFrame(PutServerFrame(Message(m)) + rest) == Parsed(Message(m), rest)
  {
    var s1 := PutMessage(m) + rest;
    assert PutServerFrame(Message(m)) + rest == PutVarint(2) + s1;
    VariantRoundTrip(2, s1);
    MessageRoundTrip(m, rest);
    BroadcastParts(PutVarint(2) + s1, s1, m, rest);
  }

  lemma BroadcastParts(s: Bytes, s1: Bytes, m: RoomMessage, rest: Bytes)
    requires TakeVariant(s) == Parsed(2, s1) && TakeMessage(s1) == Parsed(m, rest)
    ensures TakeServerFrame(s) == Parsed(Message(m), rest)
  {
  }

  lemma ClearedRoundTrip(author: Uuid, username: Bytes, rest: Bytes)
    requires StringFits(username)
    ensures TakeServerFrame(PutServerFrame(Cleared(author, username)) + rest) == Parsed(Cleared(author, username), rest)
  {
    var s2 := PutBytes(username) + rest;
    var s1 := PutUuid(author) + s2;
    assert PutServerFrame(Cleared(author, username)) + rest == PutVarint(3) + s1;
    VariantRoundTrip(3, s1);
    UuidRoundTrip(author, s2);
    StringRoundTrip(username, rest);
  }

  lemma ErrorRoundTrip(reason: ErrorKind, rest: Bytes)
    ensures TakeServerFrame(PutServerFrame(Error(reason)) + rest) == Parsed(Error(reason), rest)
  {
    var s1 := PutVarint(ErrorIndex(reason)) + rest;
    assert PutServerFrame(Error(reason)) + rest == PutVarint(4) + s1;
    VariantRoundTrip(4, s1);
    VariantRoundTrip(ErrorIndex(reason), rest);
  }

  /** Decoding an encoded server frame returns the frame and leaves what follows it. */
  lemma ServerFrameRoundTrip(f: ServerFrame, rest: Bytes)
    requires ServerFrameFits(f)
    ensures TakeServerFrame(PutServerFrame(f) + rest) == Parsed(f, rest)
  {
    match f
    case ServerHello(salt, version) => ServerHelloRoundTrip(salt, version, rest);
    case Welcome(userId, history) => WelcomeRoundTrip(userId, history, rest);
    case Message(m) => BroadcastMessageRoundTrip(m, rest);
    case Cleared(author, username) => ClearedRoundTrip(author, username, rest);
    case Error(reason) => ErrorRoundTrip(reason, rest);
  }

  lemma ServerFrameReads(f: ServerFrame, whole: Bytes)
    requires ServerFrameFits(f) && PutServerFrame(f) <= whole
    ensures TakeServerFrame(whole) == Parsed(f, whole[|PutServerFrame(f)|..])
  {
    var written := PutServerFrame(f);
    assert written + whole[|written|..] == whole;
    ServerFrameRoundTrip(f, whole[|written|..]);
  }

  /** No encoded server frame is a proper prefix of another, and none has two readings. */
  lemma ServerFramesPrefixFree(f: ServerFrame, g: ServerFrame)
    requires ServerFrameFits(f) && ServerFrameFits(g)
    ensures PutServerFrame(f) <= PutServerFrame(g) <==> f == g
  {
    var whole := PutServerFrame(g);
    if PutServerFrame(f) <= whole {
      ServerFrameReads(f, whole);
      ServerFrameReads(g, whole);
    }
  }

  lemma ClientFrameReads(f: ClientFrame, whole: Bytes)
    requires ClientFrameFits(f) && PutClientFrame(f) <= whole
    ensures TakeClientFrame(whole) == Parsed(f, whole[|PutClientFrame(f)|..])
  {
    var written := PutClientFrame(f);
    assert written + whole[|written|..] == whole;
    ClientFrameRoundTrip(f, whole[|written|..]);
  }

  lemma ClientFramesPrefixFree(f: ClientFrame, g: ClientFrame)
    requires ClientFrameFits(f) && ClientFrameFits(g)
    ensures PutClientFrame(f) <= PutClientFrame(g) <==> f == g
  {
    var whole := PutClientFrame(g);
    if PutClientFrame(f) <= whole {
      ClientFrameReads(f, whole);
      ClientFrameReads(g, whole);
    }
  }

  /** The authenticated bytes determine every field they stand for. */
  lemma AadDeterminesAd(a: MessageAd, b: MessageAd)
    requires AdFits(a) && AdFits(b)
    ensures PutAd(a) == PutAd(b) <==> a == b
  {
    AdRoundTrip(a, []);
    AdRoundTrip(b, []);
    assert PutAd(a) + [] == PutAd(a) && PutAd(b) + [] == PutAd(b);
  }
}
