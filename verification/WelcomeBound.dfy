/** How large the frames get on the wire: the worst-case Welcome still fits one transport message. */
module WelcomeBound {
  import opened Proto
  import opened Postcard

  /** Bytes the transport's cipher appends to every message. */
  const AEAD_TAG_LEN: nat := 16

  /** The largest transport message of the Noise Protocol Framework (section 3), which is below the
      framing cap MAX_FRAME_LEN. */
  const NOISE_MAX: nat := 65535

  /** The largest encoding of one history entry within the server's bounds. */
  const MAX_ENTRY: nat := 4219

  /** Does the frame go through `transport_seal` and the length-delimited codec? */
  predicate Sendable(f: ServerFrame) {
    |PutServerFrame(f)| + AEAD_TAG_LEN <= NOISE_MAX && |PutServerFrame(f)| + AEAD_TAG_LEN <= MAX_FRAME_LEN
  }

  lemma {:induction false} VarintLength(n: nat, k: nat)
    requires 1 <= k && n < Pow128(k)
    ensures 1 <= |PutVarint(n)| <= k
    ensures n >= Pow128(k - 1) ==> |PutVarint(n)| == k
  {
    if n >= 128 {
      assert Pow128(k) == 128 * Pow128(k - 1);
      assert k >= 2 && Pow128(k - 1) == 128 * Pow128(k - 2);
      VarintLength(n / 128, k - 1);
    } else {
      if k >= 3 { Pow128Grows(k - 1); }
    }
  }

  lemma {:induction false} Pow128Grows(k: nat)
    requires k >= 1
    ensures Pow128(k) >= 128
  {
    if k > 1 { Pow128Grows(k - 1); }
  }

  lemma SmallVarints(n: nat)
    ensures n < 128 ==> |PutVarint(n)| == 1
    ensures 128 <= n < 16384 ==> |PutVarint(n)| == 2
    ensures n < TWO_64 ==> 1 <= |PutVarint(n)| <= 10
    ensures TWO_64 / 2 <= n < TWO_64 ==> |PutVarint(n)| == 10
  {
    PowersReach();
    if n < 128 { VarintLength(n, 1); }
    else if n < 16384 { VarintLength(n, 2); }
    if n < TWO_64 { VarintLength(n, 10); }
  }

  /** The size of an entry within the bounds, from the sizes of its parts. */
  lemma EntrySize(m: RoomMessage)
    requires WithinBounds(m)
    ensures |PutMessage(m)| ==
              37 + 2 * |m.username| + |PutVarint(m.ad.counter as nat)| + |PutVarint(m.ad.timestampMs as nat)|
              + |PutVarint(|m.ciphertext|)| + |m.ciphertext|
  {
    SmallVarints(16);
    SmallVarints(|m.username|);
    assert |PutUuid(m.from)| == 17 && |PutUuid(m.ad.from)| == 17;
    assert |PutAd(m.ad)| == 17 + (1 + |m.username|) + |PutVarint(m.ad.counter as nat)| + |PutVarint(m.ad.timestampMs as nat)| + 1;
  }

  lemma EntryBound(m: RoomMessage)
    requires WithinBounds(m)
    ensures |PutMessage(m)| <= MAX_ENTRY
  {
    EntrySize(m);
    SmallVarints(m.ad.counter as nat);
    SmallVarints(m.ad.timestampMs as nat);
    SmallVarints(|m.ciphertext|);
  }

  /** An entry as large as the server lets one be. */
  predicate Largest(m: RoomMessage) {
    && WithinBounds(m)
    && |m.username| == MAX_USERNAME_LEN
    && |m.ciphertext| == MAX_CIPHERTEXT_LEN
    && m.ad.counter as nat >= TWO_64 / 2
    && m.ad.timestampMs as nat >= TWO_64 / 2
  }

  lemma LargestEntrySize(m: RoomMessage)
    requires Largest(m)
    ensures |PutMessage(m)| == MAX_ENTRY
  {
    EntrySize(m);
    SmallVarints(m.ad.counter as nat);
    SmallVarints(m.ad.timestampMs as nat);
    SmallVarints(|m.ciphertext|);
  }

  lemma {:induction false} HistoryBound(ms: seq<RoomMessage>)
    requires forall i | 0 <= i < |ms| :: WithinBounds(ms[i])
    ensures |PutMessages(ms)| <= MAX_ENTRY * |ms|
    ensures (forall i | 0 <= i < |ms| :: Largest(ms[i])) ==> |PutMessages(ms)| == MAX_ENTRY * |ms|
  {
    if ms != [] {
      EntryBound(ms[0]);
      HistoryBound(ms[1..]);
      if forall i | 0 <= i < |ms| :: Largest(ms[i]) {
        LargestEntrySize(ms[0]);
      }
    }
  }

  lemma WelcomeSize(userId: Uuid, history: seq<RoomMessage>)
    requires |history| < 128
    ensures |PutServerFrame(Welcome(userId, history))| == 19 + |PutMessages(history)|
  {
    SmallVarints(1);
    SmallVarints(16);
    SmallVarints(|history|);
  }

  /** A full history of messages within the bounds fits one frame, with room to spare. */
  lemma WelcomeFits(userId: Uuid, history: seq<RoomMessage>)
    requires |history| <= HISTORY_LEN
    requires forall i | 0 <= i < |history| :: WithinBounds(history[i])
    ensures |PutServerFrame(Welcome(userId, history))| + AEAD_TAG_LEN <= 63320
    ensures Sendable(Welcome(userId, history))
  {
    WelcomeSize(userId, history);
    HistoryBound(history);
  }

  /** The history length is the largest that is safe: of the largest entries exactly up to
      HISTORY_LEN can be welcomed. */
  lemma HistoryLengthIsTight(userId: Uuid, history: seq<RoomMessage>)
    requires |history| < 128
    requires forall i | 0 <= i < |history| :: Largest(history[i])
    ensures Sendable(Welcome(userId, history)) <==> |history| <= HISTORY_LEN
  {
    WelcomeSize(userId, history);
    HistoryBound(history);
  }

  /** Such entries exist: the bound is met, not only respected. */
  lemma LargestEntryExists(from: Uuid) returns (m: RoomMessage)
    ensures Largest(m) && m.from == from
  {
    var name: Bytes := seq(MAX_USERNAME_LEN, _ => 97);
    m := RoomMessage(from, name, MessageAd(from, name, U64_MAX, U64_MAX, false), seq(MAX_CIPHERTEXT_LEN, _ => 0));
  }

  /** The frames the server broadcasts fit as well. */
  lemma BroadcastFits(f: ServerFrame)
    requires match f
             case Message(m) => WithinBounds(m)
             case Cleared(_, username) => |username| <= MAX_USERNAME_LEN
             case _ => false
    ensures Sendable(f)
  {
    match f
    case Message(m) =>
      SmallVarints(2);
      EntryBound(m);
    case Cleared(author, username) =>
      SmallVarints(3);
      SmallVarints(16);
      SmallVarints(|username|);
  }
}
