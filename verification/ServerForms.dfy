/** Which bytes a client accepts as a server frame: its encoding, strings UTF-8 and each varint padded
    within the length of its type. */
module ServerForms {
  import opened Proto
  import opened Postcard
  import opened WireForms

  /** How far each varint of a message is padded; those of its metadata are in `ad`. */
  datatype MessagePads = MessagePads(from: nat, text: nat, ad: Pads, ciphertext: nat)

  /** How far each varint of a server frame is padded: its variant, its one or two own varints, and its
      messages. */
  datatype ServerPads = ServerPads(variant: nat, first: nat, second: nat, messages: seq<MessagePads>)

  function PaddedMessage(m: RoomMessage, p: MessagePads): Bytes {
    PaddedBytes(m.from.octets, p.from)
    + (PaddedBytes(m.username, p.text) + (PaddedAd(m.ad, p.ad) + PaddedBytes(m.ciphertext, p.ciphertext)))
  }

  predicate MessageWithin(m: RoomMessage, p: MessagePads) {
    Within(16, p.from, 10) && Within(|m.username|, p.text, 10) && AdWithin(m.ad, p.ad) && Within(|m.ciphertext|, p.ciphertext, 10)
  }

  function PaddedMessages(ms: seq<RoomMessage>, ps: seq<MessagePads>): Bytes
    requires |ms| == |ps|
  {
    if ms == [] then [] else PaddedMessage(ms[0], ps[0]) + PaddedMessages(ms[1..], ps[1..])
  }

  predicate MessagesWithin(ms: seq<RoomMessage>, ps: seq<MessagePads>) {
    |ms| == |ps| && forall i | 0 <= i < |ms| :: MessageWithin(ms[i], ps[i])
  }

  /** The kinds of error in the order of their declaration. */
  function Number(e: ErrorKind): nat {
    if e == AuthFailed then 0
    else if e == BadFrame then 1
    else if e == RateLimited then 2
    else if e == UnsupportedVersion then 3
    else 4
  }

  predicate ServerWithin(f: ServerFrame, p: ServerPads) {
    match f
    case ServerHello(_, version) => Within(0, p.variant, 5) && Within(version as nat, p.first, 3)
    case Welcome(_, history) =>
      Within(1, p.variant, 5) && Within(16, p.first, 10) && Within(|history|, p.second, 10) && MessagesWithin(history, p.messages)
    case Message(m) => Within(2, p.variant, 5) && MessagesWithin([m], p.messages)
    case Cleared(_, username) => Within(3, p.variant, 5) && Within(16, p.first, 10) && Within(|username|, p.second, 10)
    case Error(reason) => Within(4, p.variant, 5) && Within(Number(reason), p.first, 5)
  }

  /** As many message pads as the frame has messages. */
  predicate OneEach(f: ServerFrame, p: ServerPads) {
    match f
    case Welcome(_, history) => |p.messages| == |history|
    case Message(_) => |p.messages| == 1
    case _ => true
  }

  function PaddedServer(f: ServerFrame, p: ServerPads): Bytes
    requires OneEach(f, p)
  {
    match f
    case ServerHello(salt, version) => PaddedVarint(0, p.variant) + (salt + PaddedVarint(version as nat, p.first))
    case Welcome(userId, history) =>
      PaddedVarint(1, p.variant)
      + (PaddedBytes(userId.octets, p.first) + (PaddedVarint(|history|, p.second) + PaddedMessages(history, p.messages)))
    case Message(m) => PaddedVarint(2, p.variant) + PaddedMessage(m, p.messages[0])
    case Cleared(author, username) =>
      PaddedVarint(3, p.variant) + (PaddedBytes(author.octets, p.first) + PaddedBytes(username, p.second))
    case Error(reason) => PaddedVarint(4, p.variant) + PaddedVarint(Number(reason), p.first)
  }

  // ----- without padding -----

  const NO_MESSAGE_PADS: MessagePads := MessagePads(0, 0, NO_PADS, 0)

  function NoMessagePads(n: nat): (ps: seq<MessagePads>)
    ensures |ps| == n
  {
    seq(n, _ => NO_MESSAGE_PADS)
  }

  lemma {:induction false} UnpaddedMessages(ms: seq<RoomMessage>)
    requires forall n: nat :: PaddedVarint(n, 0) == PutVarint(n)
    ensures PaddedMessages(ms, NoMessagePads(|ms|)) == PutMessages(ms)
  {
    if ms != [] {
      assert NoMessagePads(|ms|)[1..] == NoMessagePads(|ms| - 1);
      UnpaddedMessages(ms[1..]);
    }
  }

  /** The encoding itself, field by field: each varint is the shortest there is. */
  lemma UnpaddedServer(f: ServerFrame)
    ensures var p := ServerPads(0, 0, 0, NoMessagePads(match f case Welcome(_, history) => |history| case _ => 1));
            PaddedServer(f, p) == PutServerFrame(f)
  {
    forall n: nat ensures PaddedVarint(n, 0) == PutVarint(n) { UnpaddedIsPut(n); }
    match f
    case Welcome(_, history) => UnpaddedMessages(history);
    case _ =>
  }

  // ----- messages -----

  lemma Joined2(a: Bytes, b: Bytes, rest: Bytes)
    ensures a + (b + rest) == (a + b) + rest
  {
  }

  lemma Joined4(a: Bytes, b: Bytes, c: Bytes, d: Bytes, rest: Bytes)
    ensures a + (b + (c + (d + rest))) == (a + (b + (c + d))) + rest
  {
  }

  lemma MessageForm(s: Bytes) returns (p: MessagePads)
    requires TakeMessage(s).Parsed?
    ensures s == PaddedMessage(TakeMessage(s).value, p) + TakeMessage(s).rest
    ensures MessageWithin(TakeMessage(s).value, p) && MessageFits(TakeMessage(s).value)
  {
    var Parsed(from, s1) := TakeUuid(s);
    var Parsed(username, s2) := TakeString(s1);
    var Parsed(ad, s3) := TakeAd(s2);
    var Parsed(ciphertext, s4) := TakeBytes(s3);
    var p1 := BytesForm(s);
    var p2 := StringForm(s1);
    var p3 := AdForm(s2, NO_PADS);
    var p4 := BytesForm(s3);
    p := MessagePads(p1, p2, p3, p4);
    Joined4(PaddedBytes(from.octets, p1), PaddedBytes(username, p2), PaddedAd(ad, p3), PaddedBytes(ciphertext, p4), s4);
  }

  lemma MessageOfForm(m: RoomMessage, p: MessagePads, rest: Bytes)
    requires MessageFits(m) && MessageWithin(m, p)
    ensures TakeMessage(PaddedMessage(m, p) + rest) == Parsed(m, rest)
  {
    var s3 := PaddedBytes(m.ciphertext, p.ciphertext) + rest;
    var s2 := PaddedAd(m.ad, p.ad) + s3;
    var s1 := PaddedBytes(m.username, p.text) + s2;
    Joined4(PaddedBytes(m.from.octets, p.from), PaddedBytes(m.username, p.text), PaddedAd(m.ad, p.ad),
            PaddedBytes(m.ciphertext, p.ciphertext), rest);
    BytesOfForm(m.from.octets, p.from, s1);
    StringOfForm(m.username, p.text, s2);
    AdOfForm(m.ad, p.ad, s3);
    BytesOfForm(m.ciphertext, p.ciphertext, rest);
  }

  ghost predicate AllFit(ms: seq<RoomMessage>) {
    forall i | 0 <= i < |ms| :: MessageFits(ms[i])
  }

  lemma {:induction false} FitsCons(ms: seq<RoomMessage>)
    requires ms != []
    ensures AllFit(ms) <==> MessageFits(ms[0]) && AllFit(ms[1..])
  {
    assert forall i | 1 <= i < |ms| :: ms[1..][i - 1] == ms[i];
    if MessageFits(ms[0]) && AllFit(ms[1..]) {
      forall i | 0 <= i < |ms| ensures MessageFits(ms[i]) {
        if i > 0 { assert ms[1..][i - 1] == ms[i]; }
      }
    }
  }

  lemma {:induction false} WithinCons(ms: seq<RoomMessage>, ps: seq<MessagePads>)
    requires ms != [] && ps != []
    ensures MessagesWithin(ms, ps) <==> MessageWithin(ms[0], ps[0]) && MessagesWithin(ms[1..], ps[1..])
  {
    if MessagesWithin(ms[1..], ps[1..]) && MessageWithin(ms[0], ps[0]) {
      forall i | 0 <= i < |ms| ensures MessageWithin(ms[i], ps[i]) {
        if i > 0 { assert MessageWithin(ms[1..][i - 1], ps[1..][i - 1]); }
      }
    }
    if MessagesWithin(ms, ps) {
      forall i | 0 <= i < |ms| - 1 ensures MessageWithin(ms[1..][i], ps[1..][i]) {
        assert MessageWithin(ms[i + 1], ps[i + 1]);
      }
    }
  }

  lemma {:induction false} BytesCons(s: Bytes, s1: Bytes, ms: seq<RoomMessage>, ps: seq<MessagePads>, rest: Bytes)
    requires ms != [] && |ms| == |ps|
    requires s == PaddedMessage(ms[0], ps[0]) + s1 && s1 == PaddedMessages(ms[1..], ps[1..]) + rest
    ensures s == PaddedMessages(ms, ps) + rest
  {
  }

  /** What is left after each of the values read. */
  lemma {:induction false} ManyPieces<T>(take: Bytes -> Parsed<T>, s: Bytes, n: nat) returns (pieces: seq<Bytes>)
    requires TakeMany(take, s, n).Parsed?
    ensures |TakeMany(take, s, n).value| == n && |pieces| == n + 1
    ensures pieces[0] == s && pieces[n] == TakeMany(take, s, n).rest
    ensures forall i | 0 <= i < n :: take(pieces[i]) == Parsed(TakeMany(take, s, n).value[i], pieces[i + 1])
    decreases n
  {
    if n == 0 {
      pieces := [s];
    } else {
      var more := ManyPieces(take, take(s).rest, n - 1);
      pieces := [s] + more;
    }
  }

  lemma {:induction false} PiecesForm(pieces: seq<Bytes>, ms: seq<RoomMessage>) returns (ps: seq<MessagePads>)
    requires |pieces| == |ms| + 1
    requires forall i | 0 <= i < |ms| :: TakeMessage(pieces[i]) == Parsed(ms[i], pieces[i + 1])
    ensures MessagesWithin(ms, ps) && AllFit(ms) && pieces[0] == PaddedMessages(ms, ps) + pieces[|ms|]
    decreases |ms|
  {
    ps := [];
    if ms != [] {
      assert TakeMessage(pieces[0]) == Parsed(ms[0], pieces[0 + 1]);
      var p := MessageForm(pieces[0]);
      var more := PiecesForm(pieces[1..], ms[1..]);
      ps := [p] + more;
      assert ms == [ms[0]] + ms[1..];
      Cons(pieces[0], pieces[1], ms[0], p, ms[1..], more, pieces[|ms|]);
    }
  }

  lemma MessagesForm(s: Bytes, n: nat, ms: seq<RoomMessage>, rest: Bytes) returns (ps: seq<MessagePads>)
    requires TakeMessages(s, n) == Parsed(ms, rest)
    ensures MessagesWithin(ms, ps) && AllFit(ms) && |ms| == n && s == PaddedMessages(ms, ps) + rest
  {
    var pieces := ManyPieces(TakeMessage, s, n);
    ps := PiecesForm(pieces, ms);
  }

  lemma {:induction false} Cons(s: Bytes, s1: Bytes, m: RoomMessage, p: MessagePads, ms: seq<RoomMessage>, ps: seq<MessagePads>, rest: Bytes)
    requires MessageWithin(m, p) && MessagesWithin(ms, ps) && MessageFits(m) && AllFit(ms)
    requires s == PaddedMessage(m, p) + s1 && s1 == PaddedMessages(ms, ps) + rest
    ensures MessagesWithin([m] + ms, [p] + ps) && AllFit([m] + ms)
    ensures s == PaddedMessages([m] + ms, [p] + ps) + rest
  {
    assert ([m] + ms)[1..] == ms && ([p] + ps)[1..] == ps;
    WithinCons([m] + ms, [p] + ps);
    FitsCons([m] + ms);
    BytesCons(s, s1, [m] + ms, [p] + ps, rest);
  }

  lemma {:induction false} MessagesOfForm(ms: seq<RoomMessage>, ps: seq<MessagePads>, rest: Bytes)
    requires MessagesWithin(ms, ps) && AllFit(ms)
    ensures TakeMessages(PaddedMessages(ms, ps) + rest, |ms|) == Parsed(ms, rest)
  {
    if ms == [] {
      assert PaddedMessages(ms, ps) + rest == rest;
    } else {
      var head, tail := PaddedMessage(ms[0], ps[0]), PaddedMessages(ms[1..], ps[1..]);
      FitsCons(ms);
      WithinCons(ms, ps);
      MessagesOfForm(ms[1..], ps[1..], rest);
      MessageOfForm(ms[0], ps[0], tail + rest);
      ManyStep(TakeMessage, head, ms[0], tail, ms[1..], rest);
      assert ms == [ms[0]] + ms[1..];
    }
  }

  // ----- every accepted input has this form -----

  lemma HelloForm(s: Bytes, s1: Bytes, pad: nat, salt: Octets32, s2: Bytes, version: u16, rest: Bytes) returns (p: ServerPads)
    requires s == PaddedVarint(0, pad) + s1 && Within(0, pad, 5)
    requires s1 == salt + s2 && TakeU16(s2) == Parsed(version, rest)
    ensures ServerWithin(ServerHello(salt, version), p) && s == PaddedServer(ServerHello(salt, version), p) + rest
  {
    var pad2 := GroupsForm(s2, 3);
    p := ServerPads(pad, pad2, 0, []);
    Joined3(PaddedVarint(0, pad), salt, PaddedVarint(version as nat, pad2), rest);
  }

  lemma WelcomeForm(s: Bytes, s1: Bytes, pad: nat, userId: Uuid, s2: Bytes, s3: Bytes, history: seq<RoomMessage>, rest: Bytes)
    returns (p: ServerPads)
    requires s == PaddedVarint(1, pad) + s1 && Within(1, pad, 5)
    requires TakeUuid(s1) == Parsed(userId, s2) && TakeLength(s2).Parsed? && TakeLength(s2).rest == s3
    requires TakeMessages(s3, TakeLength(s2).value) == Parsed(history, rest)
    ensures ServerWithin(Welcome(userId, history), p) && s == PaddedServer(Welcome(userId, history), p) + rest
    ensures ServerFrameFits(Welcome(userId, history))
  {
    var pad1 := BytesForm(s1);
    var pad2 := GroupsForm(s2, 10);
    var ps := MessagesForm(s3, TakeLength(s2).value, history, rest);
    p := ServerPads(pad, pad1, pad2, ps);
    Joined4(PaddedVarint(1, pad), PaddedBytes(userId.octets, pad1), PaddedVarint(|history|, pad2), PaddedMessages(history, ps), rest);
  }

  lemma ClearedForm(s: Bytes, s1: Bytes, pad: nat, author: Uuid, s2: Bytes, username: Bytes, rest: Bytes) returns (p: ServerPads)
    requires s == PaddedVarint(3, pad) + s1 && Within(3, pad, 5)
    requires TakeUuid(s1) == Parsed(author, s2) && TakeString(s2) == Parsed(username, rest)
    ensures ServerWithin(Cleared(author, username), p) && s == PaddedServer(Cleared(author, username), p) + rest
    ensures ServerFrameFits(Cleared(author, username))
  {
    var pad1 := BytesForm(s1);
    var pad2 := StringForm(s2);
    p := ServerPads(pad, pad1, pad2, []);
    Joined3(PaddedVarint(3, pad), PaddedBytes(author.octets, pad1), PaddedBytes(username, pad2), rest);
  }

  lemma BroadcastForm(s: Bytes, s1: Bytes, pad: nat, m: RoomMessage, rest: Bytes) returns (p: ServerPads)
    requires s == PaddedVarint(2, pad) + s1 && Within(2, pad, 5) && TakeMessage(s1) == Parsed(m, rest)
    ensures ServerWithin(Message(m), p) && s == PaddedServer(Message(m), p) + rest && ServerFrameFits(Message(m))
  {
    var mp := MessageForm(s1);
    p := ServerPads(pad, 0, 0, [mp]);
    Joined2(PaddedVarint(2, pad), PaddedMessage(m, mp), rest);
  }

  lemma ErrorForm(s: Bytes, s1: Bytes, pad: nat, reason: ErrorKind, rest: Bytes) returns (p: ServerPads)
    requires s == PaddedVarint(4, pad) + s1 && Within(4, pad, 5) && TakeVariant(s1) == Parsed(Number(reason), rest)
    ensures ServerWithin(Error(reason), p) && s == PaddedServer(Error(reason), p) + rest
  {
    var pad1 := GroupsForm(s1, 5);
    p := ServerPads(pad, pad1, 0, []);
    Joined2(PaddedVarint(4, pad), PaddedVarint(Number(reason), pad1), rest);
  }

  lemma ServerForm(s: Bytes) returns (p: ServerPads)
    requires TakeServerFrame(s).Parsed?
    ensures ServerWithin(TakeServerFrame(s).value, p) && s == PaddedServer(TakeServerFrame(s).value, p) + TakeServerFrame(s).rest
    ensures ServerFrameFits(TakeServerFrame(s).value)
  {
    var Parsed(f, rest) := TakeServerFrame(s);
    var Parsed(i, s1) := TakeVariant(s);
    var pad := GroupsForm(s, 5);
    match f
    case ServerHello(salt, version) => p := HelloForm(s, s1, pad, salt, s1[32..], version, rest);
    case Welcome(userId, history) =>
      var s2 := TakeUuid(s1).rest;
      p := WelcomeForm(s, s1, pad, userId, s2, TakeLength(s2).rest, history, rest);
    case Message(m) => p := BroadcastForm(s, s1, pad, m, rest);
    case Cleared(author, username) => p := ClearedForm(s, s1, pad, author, TakeUuid(s1).rest, username, rest);
    case Error(reason) => p := ErrorForm(s, s1, pad, reason, rest);
  }

  // ----- and every such form is accepted -----

  lemma HelloOfForm(salt: Octets32, version: u16, p: ServerPads, rest: Bytes)
    requires ServerWithin(ServerHello(salt, version), p)
    ensures TakeServerFrame(PaddedServer(ServerHello(salt, version), p) + rest) == Parsed(ServerHello(salt, version), rest)
  {
    var s2 := PaddedVarint(version as nat, p.first) + rest;
    Joined3(PaddedVarint(0, p.variant), salt, PaddedVarint(version as nat, p.first), rest);
    GroupsOfForm(0, p.variant, 5, salt + s2);
    assert (salt + s2)[..32] == salt && (salt + s2)[32..] == s2;
    GroupsOfForm(version as nat, p.first, 3, rest);
  }

  lemma WelcomeOfForm(userId: Uuid, history: seq<RoomMessage>, p: ServerPads, rest: Bytes)
    requires ServerWithin(Welcome(userId, history), p) && ServerFrameFits(Welcome(userId, history))
    ensures TakeServerFrame(PaddedServer(Welcome(userId, history), p) + rest) == Parsed(Welcome(userId, history), rest)
  {
    var s3 := PaddedMessages(history, p.messages) + rest;
    var s2 := PaddedVarint(|history|, p.second) + s3;
    var s1 := PaddedBytes(userId.octets, p.first) + s2;
    var s := PaddedVarint(1, p.variant) + s1;
    Joined4(PaddedVarint(1, p.variant), PaddedBytes(userId.octets, p.first), PaddedVarint(|history|, p.second),
            PaddedMessages(history, p.messages), rest);
    GroupsOfForm(1, p.variant, 5, s1);
    BytesOfForm(userId.octets, p.first, s2);
    GroupsOfForm(|history|, p.second, 10, s3);
    MessagesOfForm(history, p.messages, rest);
    WelcomeParts(s, s1, s2, s3, userId, history, rest);
  }

  lemma ClearedOfForm(author: Uuid, username: Bytes, p: ServerPads, rest: Bytes)
    requires ServerWithin(Cleared(author, username), p) && StringFits(username)
    ensures TakeServerFrame(PaddedServer(Cleared(author, username), p) + rest) == Parsed(Cleared(author, username), rest)
  {
    var s2 := PaddedBytes(username, p.second) + rest;
    var s1 := PaddedBytes(author.octets, p.first) + s2;
    Joined3(PaddedVarint(3, p.variant), PaddedBytes(author.octets, p.first), PaddedBytes(username, p.second), rest);
    GroupsOfForm(3, p.variant, 5, s1);
    BytesOfForm(author.octets, p.first, s2);
    StringOfForm(username, p.second, rest);
  }

  lemma ServerOfForm(f: ServerFrame, p: ServerPads, rest: Bytes)
    requires ServerFrameFits(f) && ServerWithin(f, p)
    ensures TakeServerFrame(PaddedServer(f, p) + rest) == Parsed(f, rest)
  {
    match f
    case ServerHello(salt, version) => HelloOfForm(salt, version, p, rest);
    case Welcome(userId, history) => WelcomeOfForm(userId, history, p, rest);
    case Message(m) =>
      var s1 := PaddedMessage(m, p.messages[0]) + rest;
      assert PaddedServer(f, p) + rest == PaddedVarint(2, p.variant) + s1;
      GroupsOfForm(2, p.variant, 5, s1);
      MessageOfForm(m, p.messages[0], rest);
    case Cleared(author, username) => ClearedOfForm(author, username, p, rest);
    case Error(reason) =>
      var s1 := PaddedVarint(Number(reason), p.first) + rest;
      assert PaddedServer(f, p) + rest == PaddedVarint(4, p.variant) + s1;
      GroupsOfForm(4, p.variant, 5, s1);
      GroupsOfForm(Number(reason), p.first, 5, rest);
  }

  /** The bytes a client accepts as a server frame, exactly: the frame's encoding, its strings UTF-8 and
      its varints padded within the lengths of their types, and whatever follows. */
  lemma ServerAcceptedExactly(s: Bytes, f: ServerFrame, rest: Bytes)
    ensures TakeServerFrame(s) == Parsed(f, rest)
       <==> ServerFrameFits(f) && exists p :: ServerWithin(f, p) && s == PaddedServer(f, p) + rest
  {
    if TakeServerFrame(s) == Parsed(f, rest) {
      var p := ServerForm(s);
      assert ServerWithin(f, p) && s == PaddedServer(f, p) + rest;
    }
    if ServerFrameFits(f) && exists p :: ServerWithin(f, p) && s == PaddedServer(f, p) + rest {
      var p :| ServerWithin(f, p) && s == PaddedServer(f, p) + rest;
      ServerOfForm(f, p, rest);
    }
  }
}
