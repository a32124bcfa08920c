/** The client's state: the scrollback with its view, the counters it has seen and those it assigns,
    and the messages that expire. Each operation is a function on the state's value, and a method of
    the state proved to compute it. Instants are nanoseconds of a monotone clock. */
module ClientUi {
  import opened Proto
  import opened Texts

  const HISTORY_CAP: nat := 500
  const MILLISECOND: nat := 1_000_000
  const TTL: nat := EPHEMERAL_TTL_MS * MILLISECOND
  const REVEAL: nat := EPHEMERAL_REVEAL_MS * MILLISECOND

  datatype Ephemeral = Ephemeral(receivedAt: nat, revealedUntil: Option<nat>)

  datatype DisplayKind = ChatText(username: Bytes, text: Bytes) | Notice(text: Bytes)

  datatype DisplayMsg = DisplayMsg(tsMs: u64, kind: DisplayKind, ephemeral: Option<Ephemeral>)

  /** The value of a client's state. */
  datatype View = View(
    username: Bytes,
    userId: Uuid,
    input: Text,
    messages: seq<DisplayMsg>,
    scroll: nat,                  // messages below the bottom of the window
    innerH: nat,                  // height of the pane at the last render
    nextCounter: u64,
    seen: map<Uuid, u64>)         // highest counter accepted from each sender

  function NewView(username: Bytes, userId: Uuid): View {
    View(username, userId, [], [], 0, 0, 1, map[])
  }

  // ----- scrolling -----

  function Max(a: nat, b: nat): nat { if a < b then b else a }

  function Min(a: nat, b: nat): nat { if a < b then a else b }

  /** Subtraction that stops at zero. */
  function Less(a: nat, b: nat): nat { if a < b then 0 else a - b }

  function MaxScroll(v: View): nat { Less(|v.messages|, Max(v.innerH, 1)) }

  function Clamp(v: View): View {
    if v.scroll > MaxScroll(v) then v.(scroll := MaxScroll(v)) else v
  }

  function Push(v: View, m: DisplayMsg): View {
    var capped := |v.messages| == HISTORY_CAP;
    var kept := if capped then v.messages[1..] else v.messages;
    Clamp(v.(messages := kept + [m], scroll := if v.scroll > 0 && !capped then v.scroll + 1 else v.scroll))
  }

  function ClearMessages(v: View): View { v.(messages := [], scroll := 0) }

  function ScrollUp(v: View, n: nat): View { Clamp(v.(scroll := v.scroll + n)) }

  function ScrollDown(v: View, n: nat): View { v.(scroll := Less(v.scroll, n)) }

  function ScrollToLatest(v: View): View { v.(scroll := 0) }

  function ScrollToOldest(v: View): View { v.(scroll := MaxScroll(v)) }

  /** Rendering at a pane height remembers the height and clamps. */
  function Resize(v: View, h: nat): View { Clamp(v.(innerH := h)) }

  /** The rows a render shows: from `WindowStart` up to `WindowEnd`. */
  function WindowEnd(v: View): nat { Less(|v.messages|, v.scroll) }

  function WindowStart(v: View): nat { Less(WindowEnd(v), v.innerH) }

  function Visible(v: View): seq<DisplayMsg> { v.messages[WindowStart(v)..WindowEnd(v)] }

  // ----- ephemeral messages -----

  /** Not ephemeral, or still younger than its time to live. */
  predicate Lives(m: DisplayMsg, now: nat) {
    m.ephemeral.Some? ==> now - m.ephemeral.value.receivedAt < TTL
  }

  predicate RevealExpired(m: DisplayMsg, now: nat) {
    m.ephemeral.Some? && m.ephemeral.value.revealedUntil.Some? && now >= m.ephemeral.value.revealedUntil.value
  }

  function Remasked(m: DisplayMsg, now: nat): DisplayMsg {
    if RevealExpired(m, now) then m.(ephemeral := Some(m.ephemeral.value.(revealedUntil := None))) else m
  }

  function Revealed(m: DisplayMsg, until: nat): DisplayMsg {
    if m.ephemeral.Some? then m.(ephemeral := Some(m.ephemeral.value.(revealedUntil := Some(until)))) else m
  }

  /** The messages that live at `now`, in order. */
  function Living(ms: seq<DisplayMsg>, now: nat): seq<DisplayMsg> {
    if ms == [] then []
    else Living(ms[..|ms| - 1], now) + if Lives(ms[|ms| - 1], now) then [ms[|ms| - 1]] else []
  }

  function RemaskedAll(ms: seq<DisplayMsg>, now: nat): (r: seq<DisplayMsg>)
    ensures |r| == |ms|
  {
    seq(|ms|, i requires 0 <= i < |ms| => Remasked(ms[i], now))
  }

  function RevealedAll(ms: seq<DisplayMsg>, until: nat): seq<DisplayMsg> {
    seq(|ms|, i requires 0 <= i < |ms| => Revealed(ms[i], until))
  }

  /** The tick: drop what has expired, clamp if anything was dropped, mask what was revealed too long. */
  function Tick(v: View, now: nat): View {
    var living := Living(v.messages, now);
    var v1 := v.(messages := living);
    var v2 := if |living| < |v.messages| then Clamp(v1) else v1;
    v2.(messages := RemaskedAll(v2.messages, now))
  }

  function Reveal(v: View, now: nat): View {
    v.(messages := RevealedAll(v.messages, now + REVEAL))
  }

  /** Whole seconds left on an ephemeral message's countdown, rounded up. */
  function SecsLeft(receivedAt: nat, now: nat): nat {
    var elapsedMs := Less(now, receivedAt) / MILLISECOND;
    (Less(EPHEMERAL_TTL_MS, elapsedMs) + 999) / 1000
  }

  // ----- counters -----

  function SeenOf(v: View, sender: Uuid): u64 { if sender in v.seen then v.seen[sender] else 0 }

  /** Replay protection: only a counter above all earlier ones of the sender is accepted. */
  function AcceptCounter(v: View, sender: Uuid, counter: u64): (View, bool) {
    var top := SeenOf(v, sender);
    if counter > top then (v.(seen := v.seen[sender := counter]), true)
    else (v.(seen := v.seen[sender := top]), false)
  }

  /** Counters stop at the largest value instead of wrapping. */
  function Following(counter: u64): u64 { if counter == U64_MAX then U64_MAX else counter + 1 }

  // ----- the state -----

  class UiState {
    var username: Bytes
    var userId: Uuid
    var input: Text
    var messages: seq<DisplayMsg>
    var scroll: nat
    var lastInnerH: nat
    var nextCounter: u64
    var seenCounters: map<Uuid, u64>

    function Value(): View
      reads this
    {
      View(username, userId, input, messages, scroll, lastInnerH, nextCounter, seenCounters)
    }

    constructor (username: Bytes, userId: Uuid)
      ensures Value() == NewView(username, userId)
    {
      this.username := username;
      this.userId := userId;
      input := [];
      messages := [];
      scroll := 0;
      lastInnerH := 0;
      nextCounter := 1;
      seenCounters := map[];
    }

    method TryAcceptCounter(sender: Uuid, counter: u64) returns (ok: bool)
      modifies this
      ensures (Value(), ok) == AcceptCounter(old(Value()), sender, counter)
    {
      var entry: u64 := if sender in seenCounters then seenCounters[sender] else 0;
      ok := counter > entry;
      if ok {
        entry := counter;
      }
      seenCounters := seenCounters[sender := entry];
    }

    method ClampScroll()
      modifies this`scroll
      ensures Value() == Clamp(old(Value()))
    {
      var max := Less(|messages|, Max(lastInnerH, 1));
      if scroll > max {
        scroll := max;
      }
    }

    method PushMessage(msg: DisplayMsg)
      modifies this
      ensures Value() == Push(old(Value()), msg)
    {
      var wasCapped := |messages| == HISTORY_CAP;
      if wasCapped {
        messages := messages[1..];
      }
      messages := messages + [msg];
      if scroll > 0 && !wasCapped {
        scroll := scroll + 1;
      }
      ClampScroll();
    }

    method ClearAll()
      modifies this
      ensures Value() == ClearMessages(old(Value()))
    {
      messages := [];
      scroll := 0;
    }

    method TickExpireEphemerals(now: nat)
      modifies this
      ensures Value() == Tick(old(Value()), now)
    {
      var before := messages;
      var kept: seq<DisplayMsg> := [];
      for i := 0 to |before|
        invariant kept == Living(before[..i], now)
        invariant Value() == old(Value())
      {
        assert before[..i + 1][..i] == before[..i];
        if Lives(before[i], now) {
          kept := kept + [before[i]];
        }
      }
      assert before[..|before|] == before;
      messages := kept;
      if |messages| < |before| {
        ClampScroll();
      }
      label clamped:
      for i := 0 to |messages|
        invariant |messages| == |kept|
        invariant forall j | 0 <= j < i :: messages[j] == Remasked(kept[j], now)
        invariant forall j | i <= j < |kept| :: messages[j] == kept[j]
        invariant Value() == old@clamped(Value()).(messages := messages)
      {
        if RevealExpired(messages[i], now) {
          messages := messages[i := Remasked(messages[i], now)];
        }
      }
      assert messages == RemaskedAll(kept, now);
    }

    method RevealEphemerals(now: nat)
      modifies this
      ensures Value() == Reveal(old(Value()), now)
    {
      var until := now + REVEAL;
      for i := 0 to |messages|
        invariant |messages| == |old(messages)|
        invariant forall j | 0 <= j < i :: messages[j] == Revealed(old(messages)[j], until)
        invariant forall j | i <= j < |messages| :: messages[j] == old(messages)[j]
        invariant Value() == old(Value()).(messages := messages)
      {
        messages := messages[i := Revealed(messages[i], until)];
      }
      assert messages == RevealedAll(old(messages), until);
    }

    method ScrollBack(n: nat)
      modifies this
      ensures Value() == ScrollUp(old(Value()), n)
    {
      scroll := scroll + n;
      ClampScroll();
    }

    method ScrollForward(n: nat)
      modifies this
      ensures Value() == ScrollDown(old(Value()), n)
    {
      scroll := Less(scroll, n);
    }

    /** Rendering into a pane of inner height `h`. */
    method Render(h: nat) returns (rows: seq<DisplayMsg>)
      modifies this
      ensures Value() == Resize(old(Value()), h) && rows == Visible(Value())
    {
      lastInnerH := h;
      ClampScroll();
      var end := Less(|messages|, scroll);
      var start := Less(end, h);
      rows := messages[start..][..end - start];
    }
  }

  // ----- what every operation keeps -----

  /** The scrollback is within its cap and the view within the scrollback. */
  predicate ViewOk(v: View) {
    |v.messages| <= HISTORY_CAP && v.scroll <= MaxScroll(v)
  }

  lemma {:induction false} LivingShrinks(ms: seq<DisplayMsg>, now: nat)
    ensures |Living(ms, now)| <= |ms|
  {
    if ms != [] { LivingShrinks(ms[..|ms| - 1], now); }
  }

  lemma ChangesKeepView(v: View, m: DisplayMsg, now: nat)
    requires ViewOk(v)
    ensures ViewOk(Push(v, m)) && ViewOk(ClearMessages(v)) && ViewOk(Tick(v, now)) && ViewOk(Reveal(v, now))
  {
    LivingShrinks(v.messages, now);
  }

  lemma MovesKeepView(v: View, n: nat)
    requires ViewOk(v)
    ensures ViewOk(ScrollUp(v, n)) && ViewOk(ScrollDown(v, n)) && ViewOk(ScrollToLatest(v)) && ViewOk(ScrollToOldest(v))
    ensures ViewOk(Resize(v, n))
  {
  }

  /** Within these bounds the window is well-formed, and as many rows are shown as there are and fit. */
  lemma RowsFill(v: View)
    requires ViewOk(v)
    ensures WindowStart(v) <= WindowEnd(v) <= |v.messages|
    ensures |Visible(v)| == Min(v.innerH, |v.messages|)
  {
  }

  // ----- which rows -----

  /** The rows shown are counted from the bottom: `scroll` messages are below the last of them. */
  lemma VisibleRows(v: View, i: nat)
    requires ViewOk(v) && i < |Visible(v)|
    ensures v.scroll + i < |v.messages|
    ensures Visible(v)[|Visible(v)| - 1 - i] == v.messages[|v.messages| - 1 - v.scroll - i]
  {
  }

  /** A render at height `h` clamps the scroll position and shows as many rows as fit and exist, down to
      `scroll` messages above the newest. */
  lemma RenderShows(v: View, h: nat, i: nat)
    requires ViewOk(v)
    ensures var v', n := Resize(v, h), |v.messages|;
            var top := if n <= h then 0 else if h == 0 then n - 1 else n - h;
            && v' == v.(innerH := h, scroll := if v.scroll <= top then v.scroll else top)
            && |Visible(v')| == (if h <= n then h else n)
            && (i < |Visible(v')| ==> v'.scroll + i < n && Visible(v')[|Visible(v')| - 1 - i] == v.messages[n - 1 - v'.scroll - i])
  {
  }

  /** Home shows the oldest message first, End the newest last. */
  lemma EndsShown(v: View)
    requires ViewOk(v) && v.innerH > 0 && v.messages != []
    ensures var home, end := ScrollToOldest(v), ScrollToLatest(v);
            && Visible(home) != [] && Visible(home)[0] == v.messages[0]
            && Visible(end) != [] && Visible(end)[|Visible(end)| - 1] == v.messages[|v.messages| - 1]
  {
  }

  /** Scrolling back by one, where there is room, brings the next older message in at the top and
      moves the others down by one; scrolling forth undoes it. */
  lemma ScrollsByOne(v: View)
    requires ViewOk(v) && v.innerH > 0 && v.scroll + v.innerH < |v.messages|
    ensures var back := ScrollUp(v, 1);
            && Visible(back) == [v.messages[|v.messages| - v.scroll - v.innerH - 1]] + Visible(v)[..|Visible(v)| - 1]
            && ScrollDown(back, 1) == v
  {
    var back := ScrollUp(v, 1);
    assert back.scroll == v.scroll + 1;
    var start := WindowStart(back);
    assert Visible(back) == v.messages[start..start + v.innerH];
    assert Visible(v) == v.messages[start + 1..start + 1 + v.innerH];
    assert v.messages[start..start + v.innerH] == [v.messages[start]] + v.messages[start + 1..start + v.innerH];
  }

  // ----- anchoring -----

  /** While the reader is scrolled back, a new message leaves the rendered rows as they are, below the
      cap. At the cap the window moves on by one message. */
  lemma PushAnchorsView(v: View, m: DisplayMsg)
    requires ViewOk(v) && v.scroll > 0
    ensures |v.messages| < HISTORY_CAP ==> Visible(Push(v, m)) == Visible(v)
    ensures |v.messages| == HISTORY_CAP ==>
              Visible(Push(v, m)) == (v.messages + [m])[WindowStart(v) + 1..WindowEnd(v) + 1]
  {
  }

  /** So with distinct messages on screen the rows stay exactly when the scrollback is not full. */
  lemma AnchoredExactlyBelowCap(v: View, m: DisplayMsg)
    requires ViewOk(v) && v.scroll > 0 && v.innerH > 0
    requires forall i, j | 0 <= i < j < |v.messages| :: v.messages[i] != v.messages[j]
    ensures Visible(Push(v, m)) == Visible(v) <==> |v.messages| < HISTORY_CAP
  {
    PushAnchorsView(v, m);
    if |v.messages| == HISTORY_CAP {
      var start := WindowStart(v);
      assert Visible(v)[0] == v.messages[start];
      assert (v.messages + [m])[start + 1] == v.messages[start + 1];
      assert Visible(Push(v, m))[0] == v.messages[start + 1];
    }
  }

  /** A reader at the bottom stays at the bottom and sees the new message last. */
  lemma PinnedSeesNewest(v: View, m: DisplayMsg)
    requires ViewOk(v) && v.scroll == 0 && v.innerH > 0
    ensures var v' := Push(v, m);
            v'.scroll == 0 && Visible(v') != [] && Visible(v')[|Visible(v')| - 1] == m
  {
  }

  // ----- expiry -----

  lemma {:induction false} LivingMembers(ms: seq<DisplayMsg>, now: nat, m: DisplayMsg)
    ensures m in Living(ms, now) <==> m in ms && Lives(m, now)
  {
    if ms != [] {
      LivingMembers(ms[..|ms| - 1], now, m);
      assert ms == ms[..|ms| - 1] + [ms[|ms| - 1]];
    }
  }

  /** How many of the first `n` messages live. */
  function LivingBefore(ms: seq<DisplayMsg>, now: nat, n: nat): nat
    requires n <= |ms|
  {
    |Living(ms[..n], now)|
  }

  /** Each living message keeps its place among the living: the order is untouched. */
  lemma {:induction false} LivingInOrder(ms: seq<DisplayMsg>, now: nat, i: nat)
    requires i < |ms| && Lives(ms[i], now)
    ensures LivingBefore(ms, now, i) < |Living(ms, now)|
    ensures Living(ms, now)[LivingBefore(ms, now, i)] == ms[i]
    decreases |ms|
  {
    var n := |ms| - 1;
    if i < n {
      LivingInOrder(ms[..n], now, i);
      assert ms[..n][..i] == ms[..i];
    }
  }

  /** After a tick exactly the messages that are not ephemeral or younger than the time to live are
      left, in their order, and nothing stays revealed beyond its time. */
  lemma TickKeepsExactlyTheLiving(v: View, now: nat)
    ensures forall i | 0 <= i < |v.messages| && Lives(v.messages[i], now) ::
              && LivingBefore(v.messages, now, i) < |Tick(v, now).messages|
              && Tick(v, now).messages[LivingBefore(v.messages, now, i)] == Remasked(v.messages[i], now)
    ensures forall m | m in Tick(v, now).messages ::
              Lives(m, now) && !RevealExpired(m, now) && exists m0 :: m0 in v.messages && Lives(m0, now) && m == Remasked(m0, now)
    ensures |Tick(v, now).messages| == LivingBefore(v.messages, now, |v.messages|)
  {
    var living := Living(v.messages, now);
    assert v.messages[..|v.messages|] == v.messages;
    forall i | 0 <= i < |v.messages| && Lives(v.messages[i], now)
      ensures LivingBefore(v.messages, now, i) < |living| && living[LivingBefore(v.messages, now, i)] == v.messages[i]
    {
      LivingInOrder(v.messages, now, i);
    }
    forall m | m in Tick(v, now).messages
      ensures Lives(m, now) && !RevealExpired(m, now)
      ensures exists m0 :: m0 in v.messages && Lives(m0, now) && m == Remasked(m0, now)
    {
      var i :| 0 <= i < |living| && Tick(v, now).messages[i] == m;
      LivingMembers(v.messages, now, living[i]);
      assert m == Remasked(living[i], now);
    }
  }

  /** The countdown is the remaining time in seconds, rounded up: between 1 and 30 for as long as the
      message lives, and 0 exactly when it no longer does. */
  lemma CountdownExact(receivedAt: nat, now: nat)
    requires receivedAt <= now
    ensures now - receivedAt < TTL <==> SecsLeft(receivedAt, now) >= 1
    ensures SecsLeft(receivedAt, now) <= 30
    ensures now - receivedAt < TTL ==>
              var left := TTL - (now - receivedAt);
              (SecsLeft(receivedAt, now) - 1) * 1000 * MILLISECOND < left <= SecsLeft(receivedAt, now) * 1000 * MILLISECOND
  {
    var elapsed := now - receivedAt;
    var ms := elapsed / MILLISECOND;
    assert ms * MILLISECOND <= elapsed < (ms + 1) * MILLISECOND;
    if ms < EPHEMERAL_TTL_MS {
      var secs := SecsLeft(receivedAt, now);
      assert secs == (EPHEMERAL_TTL_MS - ms + 999) / 1000;
      assert secs * 1000 - 1000 < EPHEMERAL_TTL_MS - ms <= secs * 1000;
    }
  }

  /** At the moment of the tick every surviving ephemeral message shows a countdown from 1 to 30. */
  lemma TickCountdowns(v: View, now: nat, m: DisplayMsg)
    requires m in Tick(v, now).messages && m.ephemeral.Some? && m.ephemeral.value.receivedAt <= now
    ensures 1 <= SecsLeft(m.ephemeral.value.receivedAt, now) <= 30
  {
    TickKeepsExactlyTheLiving(v, now);
    CountdownExact(m.ephemeral.value.receivedAt, now);
  }

  // ----- revealing -----

  /** Ctrl-R reveals every ephemeral message until REVEAL from now, and touches nothing else. */
  lemma RevealEffect(v: View, at: nat)
    ensures Reveal(v, at) == v.(messages := Reveal(v, at).messages) && |Reveal(v, at).messages| == |v.messages|
    ensures forall i | 0 <= i < |v.messages| ::
              Reveal(v, at).messages[i] ==
                match v.messages[i].ephemeral
                case None => v.messages[i]
                case Some(e) => v.messages[i].(ephemeral := Some(Ephemeral(e.receivedAt, Some(at + REVEAL))))
  {
  }

  /** A message revealed at `at` that still lives at a later tick is revealed up to the end of its time
      and masked from then on; its text and its life are not affected. */
  lemma RevealedForItsTime(v: View, at: nat, t: nat, i: nat)
    requires i < |v.messages| && at <= t && v.messages[i].ephemeral.Some?
    requires t - v.messages[i].ephemeral.value.receivedAt < TTL
    ensures var m, revealed := v.messages[i], Reveal(v, at).messages;
            var k := LivingBefore(revealed, t, i);
            && k < |Tick(Reveal(v, at), t).messages|
            && Tick(Reveal(v, at), t).messages[k]
                 == m.(ephemeral := Some(Ephemeral(m.ephemeral.value.receivedAt, if t < at + REVEAL then Some(at + REVEAL) else None)))
  {
    TickKeepsExactlyTheLiving(Reveal(v, at), t);
  }
}
