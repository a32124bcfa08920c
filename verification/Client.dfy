/** The client as a consumer of the server's stream and a producer of its own: history seeding, live
    frames with replay rejection, and the keys that send messages. Opening and sealing a message are
    parameters: the cipher is not part of this model. */
module Client {
  import opened Proto
  import opened Stores
  import opened Texts
  import opened ClientUi

  // ----- the server's stream -----

  /** What the cipher makes of a message: its plaintext, if it authenticates. */
  type Opener = RoomMessage -> Option<Bytes>

  datatype ClientError = ServerError(reason: ErrorKind) | UnexpectedHandshakeFrame

  const DECRYPTION_FAILED: Bytes := [91, 100, 101, 99, 114, 121, 112, 116, 105, 111, 110, 32, 102, 97, 105, 108, 101, 100, 93, 32]
  const DROPPED_REPLAY: Bytes := [100, 114, 111, 112, 112, 101, 100, 32, 114, 101, 112, 108, 97, 121, 32, 102, 114, 111, 109, 32]
  const CLEARED_BY: Bytes := [99, 108, 101, 97, 114, 101, 100, 32, 98, 121, 32]

  /** What a message looks like that is displayed at `now`: stamped with its own time; if it opened, its
      text under its sender's name, ephemeral from now on exactly if the message is; else a notice. */
  ghost predicate IsDisplayOf(d: DisplayMsg, m: RoomMessage, open: Opener, now: nat) {
    && d.tsMs == m.ad.timestampMs
    && match open(m)
       case None => d.kind == Notice(DECRYPTION_FAILED + m.username) && d.ephemeral == None
       case Some(text) =>
         && d.kind == ChatText(m.username, text)
         && (m.ad.ephemeral ==> d.ephemeral == Some(Ephemeral(now, None)))
         && (!m.ad.ephemeral ==> d.ephemeral == None)
  }

  function DecryptToDisplay(open: Opener, m: RoomMessage, now: nat): (d: DisplayMsg)
    ensures IsDisplayOf(d, m, open, now)
  {
    match open(m)
    case Some(text) =>
      DisplayMsg(m.ad.timestampMs, ChatText(m.username, text),
                 if m.ad.ephemeral then Some(Ephemeral(now, None)) else None)
    case None => DisplayMsg(m.ad.timestampMs, Notice(DECRYPTION_FAILED + m.username), None)
  }

  function SystemMsg(text: Bytes, wallMs: u64): DisplayMsg { DisplayMsg(wallMs, Notice(text), None) }

  /** Seeding from the Welcome: every history message counts as seen and is shown. */
  function SeedOne(v: View, open: Opener, m: RoomMessage, now: nat): View {
    Push(AcceptCounter(v, m.ad.from, m.ad.counter).0, DecryptToDisplay(open, m, now))
  }

  function Seed(v: View, open: Opener, history: seq<RoomMessage>, now: nat): View {
    if history == [] then v else SeedOne(Seed(v, open, history[..|history| - 1], now), open, history[|history| - 1], now)
  }

  function OnFrame(v: View, open: Opener, f: ServerFrame, now: nat, wallMs: u64): (View, Option<ClientError>) {
    match f
    case Message(m) =>
      var (v1, newer) := AcceptCounter(v, m.ad.from, m.ad.counter);
      if newer then (Push(v1, DecryptToDisplay(open, m, now)), None)
      else (Push(v1, SystemMsg(DROPPED_REPLAY + m.username, wallMs)), None)
    case Cleared(_, username) => (Push(ClearMessages(v), SystemMsg(CLEARED_BY + username, wallMs)), None)
    case Error(reason) => (v, Some(ServerError(reason)))
    case ServerHello(_, _) => (v, Some(UnexpectedHandshakeFrame))
    case Welcome(_, _) => (v, Some(UnexpectedHandshakeFrame))
  }

  method SeedHistory(state: UiState, open: Opener, history: seq<RoomMessage>, now: nat)
    modifies state
    ensures state.Value() == Seed(old(state.Value()), open, history, now)
  {
    for i := 0 to |history|
      invariant state.Value() == Seed(old(state.Value()), open, history[..i], now)
    {
      var seen := state.TryAcceptCounter(history[i].ad.from, history[i].ad.counter);
      state.PushMessage(DecryptToDisplay(open, history[i], now));
      assert history[..i + 1][..i] == history[..i];
    }
    assert history[..|history|] == history;
  }

  method HandleServerFrame(state: UiState, open: Opener, f: ServerFrame, now: nat, wallMs: u64)
    returns (error: Option<ClientError>)
    modifies state
    ensures (state.Value(), error) == OnFrame(old(state.Value()), open, f, now, wallMs)
  {
    error := None;
    match f
    case Message(m) =>
      var newer := state.TryAcceptCounter(m.ad.from, m.ad.counter);
      if !newer {
        state.PushMessage(SystemMsg(DROPPED_REPLAY + m.username, wallMs));
        return;
      }
      state.PushMessage(DecryptToDisplay(open, m, now));
    case Cleared(_, username) =>
      state.ClearAll();
      state.PushMessage(SystemMsg(CLEARED_BY + username, wallMs));
    case Error(reason) => error := Some(ServerError(reason));
    case ServerHello(_, _) => error := Some(UnexpectedHandshakeFrame);
    case Welcome(_, _) => error := Some(UnexpectedHandshakeFrame);
  }

  // ----- keys -----

  datatype Key = CtrlC | CtrlR | Enter | Backspace | Up | Down | PageUp | PageDown | Home | End | Char(c: char) | Other

  datatype KeyAction = NoAction | Send(frame: ClientFrame) | Quit

  /** What the surroundings supply when a key arrives: the clocks, and what sealing a text with its
      metadata gives, if it works. */
  datatype Env = Env(now: nat, wallMs: u64, seal: (Text, MessageAd) -> Option<Bytes>)

  const SECRET_SHORT: Text := "/s "
  const SECRET_LONG: Text := "/secret "
  const ENCRYPTION_FAILED: Bytes :=
    [101, 110, 99, 114, 121, 112, 116, 105, 111, 110, 32, 102, 97, 105, 108, 101, 100]

  /** What follows the prefix, if the text has it. */
  function StripPrefix(s: Text, prefix: Text): Option<Text> {
    if prefix <= s then Some(s[|prefix|..]) else None
  }

  function SecretBody(trimmed: Text): Option<Text> {
    if StripPrefix(trimmed, SECRET_SHORT).Some? then StripPrefix(trimmed, SECRET_SHORT)
    else StripPrefix(trimmed, SECRET_LONG)
  }

  /** Sending takes the next counter before it seals, so a failed seal skips a counter. */
  function Submit(v: View, body: Text, ephemeral: bool, env: Env): (View, KeyAction) {
    var ad := MessageAd(v.userId, v.username, v.nextCounter, env.wallMs, ephemeral);
    var v1 := v.(nextCounter := Following(v.nextCounter));
    match env.seal(body, ad)
    case Some(ct) => (v1, Send(ClientMessage(ad, ct)))
    case None => (Push(v1, SystemMsg(ENCRYPTION_FAILED, env.wallMs)), NoAction)
  }

  function OnEnter(v: View, env: Env): (View, KeyAction) {
    var trimmed := TrimEnd(v.input);
    var v1 := v.(input := []);
    if trimmed == [] then (v1, NoAction)
    else if trimmed == "/c" || trimmed == "/clear" then (v1, Send(Clear))
    else if trimmed == "/q" || trimmed == "/quit" then (v1, Quit)
    else match SecretBody(trimmed)
      case Some(rest) =>
        if Trim(rest) == [] then (v1, NoAction) else Submit(v1, Trim(rest), true, env)
      case None => Submit(v1, trimmed, false, env)
  }

  function PageStep(v: View): nat { Max(Less(v.innerH, 1), 1) }

  function OnKey(v: View, key: Key, env: Env): (View, KeyAction) {
    match key
    case CtrlC => (v, Quit)
    case CtrlR => (ClientUi.Reveal(v, env.now), NoAction)
    case Enter => OnEnter(v, env)
    case Backspace => (v.(input := if v.input == [] then [] else v.input[..|v.input| - 1]), NoAction)
    case Up => (ScrollUp(v, 1), NoAction)
    case Down => (ScrollDown(v, 1), NoAction)
    case PageUp => (ScrollUp(v, PageStep(v)), NoAction)
    case PageDown => (ScrollDown(v, PageStep(v)), NoAction)
    case Home => (ScrollToOldest(v), NoAction)
    case End => (ScrollToLatest(v), NoAction)
    case Char(c) => (v.(input := v.input + [c]), NoAction)
    case Other => (v, NoAction)
  }

  method HandleKey(state: UiState, key: Key, env: Env) returns (action: KeyAction)
    modifies state
    ensures (state.Value(), action) == OnKey(old(state.Value()), key, env)
  {
    action := NoAction;
    match key
    case CtrlC => action := Quit;
    case CtrlR => state.RevealEphemerals(env.now);
    case Enter =>
      var trimmed := TrimEnd(state.input);
      state.input := [];
      if trimmed == [] { return; }
      if trimmed == "/c" || trimmed == "/clear" { return Send(Clear); }
      if trimmed == "/q" || trimmed == "/quit" { return Quit; }
      var secret := SecretBody(trimmed);
      if secret.Some? && Trim(secret.value) == [] { return; }
      var counter := state.nextCounter;
      state.nextCounter := Following(counter);
      var ad := MessageAd(state.userId, state.username, counter, env.wallMs, secret.Some?);
      match env.seal(if secret.Some? then Trim(secret.value) else trimmed, ad) {
        case Some(ct) => action := Send(ClientMessage(ad, ct));
        case None => state.PushMessage(SystemMsg(ENCRYPTION_FAILED, env.wallMs));
      }
    case Backspace => state.input := if state.input == [] then [] else state.input[..|state.input| - 1];
    case Up => state.ScrollBack(1);
    case Down => state.ScrollForward(1);
    case PageUp => state.ScrollBack(Max(Less(state.lastInnerH, 1), 1));
    case PageDown => state.ScrollForward(Max(Less(state.lastInnerH, 1), 1));
    case Home => state.scroll := Less(|state.messages|, Max(state.lastInnerH, 1));
    case End => state.scroll := 0;
    case Char(c) => state.input := state.input + [c];
    case Other =>
  }

  // ----- a client's life -----

  /** What the event loop reacts to. */
  datatype Event =
    | Arrival(frame: ServerFrame, now: nat, wallMs: u64)
    | Pressed(key: Key, env: Env)
    | Ticked(now: nat)
    | Rendered(h: nat)

  function OnEvent(v: View, open: Opener, e: Event): View {
    match e
    case Arrival(f, now, wallMs) => OnFrame(v, open, f, now, wallMs).0
    case Pressed(key, env) => OnKey(v, key, env).0
    case Ticked(now) => Tick(v, now)
    case Rendered(h) => Resize(v, h)
  }

  ghost function Live(v: View, open: Opener, es: seq<Event>): View {
    if es == [] then v else OnEvent(Live(v, open, es[..|es| - 1]), open, es[|es| - 1])
  }

  // ----- what is shown -----

  /** The highest counter of the sender along a log of messages, 0 if there is none. */
  function TopCounter(log: seq<RoomMessage>, sender: Uuid): u64 {
    if log == [] then 0
    else
      var top := TopCounter(log[..|log| - 1], sender);
      var m := log[|log| - 1];
      if m.ad.from == sender && m.ad.counter > top then m.ad.counter else top
  }

  /** Does the client show the message, having seen `earlier`? */
  ghost predicate Shows(earlier: seq<RoomMessage>, m: RoomMessage) {
    m.ad.counter > TopCounter(earlier, m.ad.from)
  }

  /** The messages a client pushes to its pane: the whole history, and the live messages it accepts. */
  ghost function PaneLog(history: seq<RoomMessage>, live: seq<RoomMessage>): seq<RoomMessage> {
    if live == [] then history
    else
      var n := |live| - 1;
      PaneLog(history, live[..n]) + if Shows(history + live[..n], live[n]) then [live[n]] else []
  }

  /** The counters a view has seen are the highest ones of what it has been given. */
  ghost predicate SeenExactly(v: View, log: seq<RoomMessage>) {
    forall sender :: SeenOf(v, sender) == TopCounter(log, sender)
  }

  lemma AcceptIsShows(v: View, log: seq<RoomMessage>, m: RoomMessage)
    requires SeenExactly(v, log)
    ensures AcceptCounter(v, m.ad.from, m.ad.counter).1 <==> Shows(log, m)
    ensures SeenExactly(AcceptCounter(v, m.ad.from, m.ad.counter).0, log + [m])
  {
    assert (log + [m])[..|log|] == log;
    var v' := AcceptCounter(v, m.ad.from, m.ad.counter).0;
    forall sender ensures SeenOf(v', sender) == TopCounter(log + [m], sender) {
      assert SeenOf(v, sender) == TopCounter(log, sender);
    }
  }

  lemma {:induction false} SeedSees(v: View, open: Opener, history: seq<RoomMessage>, now: nat)
    requires SeenExactly(v, [])
    ensures SeenExactly(Seed(v, open, history, now), history)
  {
    if history != [] {
      var n := |history| - 1;
      var before := Seed(v, open, history[..n], now);
      SeedSees(v, open, history[..n], now);
      AcceptIsShows(before, history[..n], history[n]);
      assert history[..n] + [history[n]] == history;
      assert Push(AcceptCounter(before, history[n].ad.from, history[n].ad.counter).0, DecryptToDisplay(open, history[n], now)).seen
          == AcceptCounter(before, history[n].ad.from, history[n].ad.counter).0.seen;
      forall sender ensures SeenOf(Seed(v, open, history, now), sender) == TopCounter(history, sender) {
        assert SeenOf(AcceptCounter(before, history[n].ad.from, history[n].ad.counter).0, sender) == TopCounter(history, sender);
      }
    }
  }

  /** The messages among the frames that arrive. */
  ghost function Received(es: seq<Event>): seq<RoomMessage> {
    if es == [] then []
    else Received(es[..|es| - 1]) + MessageOf(es[|es| - 1])
  }

  ghost function MessageOf(e: Event): seq<RoomMessage> {
    if e.Arrival? && e.frame.Message? then [e.frame.msg] else []
  }

  lemma KeysLeaveSeen(v: View, key: Key, env: Env)
    ensures OnKey(v, key, env).0.seen == v.seen
  {
  }

  lemma EventSees(v: View, open: Opener, log: seq<RoomMessage>, e: Event)
    requires SeenExactly(v, log)
    ensures SeenExactly(OnEvent(v, open, e), log + MessageOf(e))
  {
    if e.Arrival? && e.frame.Message? {
      var m := e.frame.msg;
      AcceptIsShows(v, log, m);
      var accepted := AcceptCounter(v, m.ad.from, m.ad.counter).0;
      assert OnEvent(v, open, e).seen == accepted.seen;
      SameSeen(accepted, OnEvent(v, open, e), log + [m]);
    } else {
      assert log + [] == log;
      if e.Pressed? { KeysLeaveSeen(v, e.key, e.env); }
      SameSeen(v, OnEvent(v, open, e), log);
    }
  }

  lemma SameSeen(v: View, v': View, log: seq<RoomMessage>)
    requires SeenExactly(v, log) && v'.seen == v.seen
    ensures SeenExactly(v', log)
  {
    forall sender ensures SeenOf(v', sender) == TopCounter(log, sender) {
      assert SeenOf(v, sender) == TopCounter(log, sender);
    }
  }

  /** Whatever the server sends, honest or not, and whatever the user does meanwhile, the client's
      memory of a sender is the highest counter of that sender in history and stream. */
  lemma {:induction false} LiveSees(v: View, open: Opener, history: seq<RoomMessage>, es: seq<Event>)
    requires SeenExactly(v, history)
    ensures SeenExactly(Live(v, open, es), history + Received(es))
  {
    if es == [] {
      assert history + [] == history;
    } else {
      var n := |es| - 1;
      LiveSees(v, open, history, es[..n]);
      EventSees(Live(v, open, es[..n]), open, history + Received(es[..n]), es[n]);
      assert history + Received(es[..n]) + MessageOf(es[n]) == history + Received(es);
    }
  }

  /** The pane with one more entry, the oldest gone if it was full. */
  ghost predicate GainsEntry(v: View, v': View, d: DisplayMsg) {
    v'.messages == (if |v.messages| == HISTORY_CAP then v.messages[1..] else v.messages) + [d]
  }

  /** A live message is shown exactly when its counter exceeds every earlier history or live counter
      of its sender; otherwise a notice is shown in its place. This holds for any stream. */
  lemma LiveShownExactly(username: Bytes, userId: Uuid, open: Opener, history: seq<RoomMessage>, joined: nat,
                         es: seq<Event>, m: RoomMessage, now: nat, wallMs: u64)
    returns (d: DisplayMsg)
    ensures var v := Live(Seed(NewView(username, userId), open, history, joined), open, es);
            var (v', error) := OnFrame(v, open, Message(m), now, wallMs);
            && error == None && GainsEntry(v, v', d)
            && (Shows(history + Received(es), m) ==> IsDisplayOf(d, m, open, now))
            && (!Shows(history + Received(es), m) ==> d == DisplayMsg(wallMs, Notice(DROPPED_REPLAY + m.username), None))
  {
    var seeded := Seed(NewView(username, userId), open, history, joined);
    SeedSees(NewView(username, userId), open, history, joined);
    LiveSees(seeded, open, history, es);
    AcceptIsShows(Live(seeded, open, es), history + Received(es), m);
    d := if Shows(history + Received(es), m) then DecryptToDisplay(open, m, now)
         else DisplayMsg(wallMs, Notice(DROPPED_REPLAY + m.username), None);
  }

  /** What each frame does to the client, field by field. */
  lemma FrameEffect(v: View, open: Opener, f: ServerFrame, now: nat, wallMs: u64)
    ensures var (v', error) := OnFrame(v, open, f, now, wallMs);
            match f
            case Message(m) =>
              var newer := m.ad.counter > SeenOf(v, m.ad.from);
              && error == None && v'.messages != [] && GainsEntry(v, v', v'.messages[|v'.messages| - 1])
              && (newer ==> IsDisplayOf(v'.messages[|v'.messages| - 1], m, open, now))
              && (!newer ==> v'.messages[|v'.messages| - 1] == DisplayMsg(wallMs, Notice(DROPPED_REPLAY + m.username), None))
              && (forall x :: SeenOf(v', x) == if x == m.ad.from && newer then m.ad.counter else SeenOf(v, x))
              && v' == v.(messages := v'.messages, scroll := v'.scroll, seen := v'.seen)
            case Cleared(_, username) =>
              error == None && v' == v.(messages := [DisplayMsg(wallMs, Notice(CLEARED_BY + username), None)], scroll := 0)
            case Error(reason) => v' == v && error == Some(ServerError(reason))
            case ServerHello(_, _) => v' == v && error == Some(UnexpectedHandshakeFrame)
            case Welcome(_, _) => v' == v && error == Some(UnexpectedHandshakeFrame)
  {
  }

  /** What seeding shows: every entry of a history that fits the pane, in order. */
  lemma {:induction false} SeedShows(v: View, open: Opener, history: seq<RoomMessage>, now: nat)
    requires v.messages == [] && |history| <= HISTORY_CAP
    ensures var v' := Seed(v, open, history, now);
            |v'.messages| == |history| && forall i | 0 <= i < |history| :: IsDisplayOf(v'.messages[i], history[i], open, now)
  {
    if history != [] {
      SeedShows(v, open, history[..|history| - 1], now);
    }
  }

  lemma EnterKeepsView(v: View, env: Env)
    requires ViewOk(v)
    ensures ViewOk(OnEnter(v, env).0)
  {
    var v1 := v.(input := [], nextCounter := Following(v.nextCounter));
    ChangesKeepView(v1, SystemMsg(ENCRYPTION_FAILED, env.wallMs), env.now);
  }

  lemma KeyKeepsView(v: View, key: Key, env: Env)
    requires ViewOk(v)
    ensures ViewOk(OnKey(v, key, env).0)
  {
    match key
    case Enter => EnterKeepsView(v, env);
    case CtrlR => ChangesKeepView(v, SystemMsg([], 0), env.now);
    case PageUp => MovesKeepView(v, PageStep(v));
    case PageDown => MovesKeepView(v, PageStep(v));
    case _ => MovesKeepView(v, 1);
  }

  lemma FrameKeepsView(v: View, open: Opener, f: ServerFrame, now: nat, wallMs: u64)
    requires ViewOk(v)
    ensures ViewOk(OnFrame(v, open, f, now, wallMs).0)
  {
    match f
    case Message(m) =>
      var v1 := AcceptCounter(v, m.ad.from, m.ad.counter).0;
      ChangesKeepView(v1, DecryptToDisplay(open, m, now), now);
      ChangesKeepView(v1, SystemMsg(DROPPED_REPLAY + m.username, wallMs), now);
    case Cleared(_, username) =>
      ChangesKeepView(ClearMessages(v), SystemMsg(CLEARED_BY + username, wallMs), now);
    case _ =>
  }

  lemma {:induction false} SeedKeepsView(v: View, open: Opener, history: seq<RoomMessage>, now: nat)
    requires ViewOk(v)
    ensures ViewOk(Seed(v, open, history, now))
  {
    if history != [] {
      var n := |history| - 1;
      SeedKeepsView(v, open, history[..n], now);
      var v1 := AcceptCounter(Seed(v, open, history[..n], now), history[n].ad.from, history[n].ad.counter).0;
      ChangesKeepView(v1, DecryptToDisplay(open, history[n], now), now);
    }
  }

  lemma {:induction false} LiveKeepsView(v: View, open: Opener, es: seq<Event>)
    requires ViewOk(v)
    ensures ViewOk(Live(v, open, es))
  {
    if es != [] {
      var v1, e := Live(v, open, es[..|es| - 1]), es[|es| - 1];
      LiveKeepsView(v, open, es[..|es| - 1]);
      match e
      case Arrival(f, now, wallMs) => FrameKeepsView(v1, open, f, now, wallMs);
      case Pressed(key, env) => KeyKeepsView(v1, key, env);
      case Ticked(now) => ChangesKeepView(v1, SystemMsg([], 0), now);
      case Rendered(h) => MovesKeepView(v1, h);
    }
  }

  /** Through the whole life of a client, whatever frames, keys, ticks and resizes come, the scrollback
      stays within its cap, the scroll position within the scrollback, and a render shows exactly as
      many rows as fit and exist. */
  lemma ViewAlwaysOk(username: Bytes, userId: Uuid, open: Opener, history: seq<RoomMessage>, joined: nat, es: seq<Event>)
    ensures var v := Live(Seed(NewView(username, userId), open, history, joined), open, es);
            && |v.messages| <= HISTORY_CAP
            && v.scroll <= Less(|v.messages|, Max(v.innerH, 1))
            && WindowStart(v) <= WindowEnd(v) <= |v.messages|
            && |Visible(v)| == Min(v.innerH, |v.messages|)
  {
    SeedKeepsView(NewView(username, userId), open, history, joined);
    LiveKeepsView(Seed(NewView(username, userId), open, history, joined), open, es);
    RowsFill(Live(Seed(NewView(username, userId), open, history, joined), open, es));
  }

  // ----- no message twice -----

  ghost predicate SamePair(a: RoomMessage, b: RoomMessage) {
    a.ad.from == b.ad.from && a.ad.counter == b.ad.counter
  }

  ghost predicate NoPairTwice(log: seq<RoomMessage>) {
    forall i, j | 0 <= i < j < |log| :: !SamePair(log[i], log[j])
  }

  lemma {:induction false} TopCounterBounds(log: seq<RoomMessage>, sender: Uuid)
    ensures forall i | 0 <= i < |log| && log[i].ad.from == sender :: log[i].ad.counter <= TopCounter(log, sender)
    ensures TopCounter(log, sender) > 0 ==>
              exists i :: 0 <= i < |log| && log[i].ad.from == sender && log[i].ad.counter == TopCounter(log, sender)
  {
    if log != [] {
      var n := |log| - 1;
      TopCounterBounds(log[..n], sender);
      if TopCounter(log, sender) > 0 {
        if TopCounter(log[..n], sender) == TopCounter(log, sender) {
          var i :| 0 <= i < n && log[..n][i].ad.from == sender && log[..n][i].ad.counter == TopCounter(log, sender);
          assert log[i] == log[..n][i];
        } else {
          assert log[n].ad.from == sender && log[n].ad.counter == TopCounter(log, sender);
        }
      }
    }
  }

  lemma {:induction false} PaneLogMembers(history: seq<RoomMessage>, live: seq<RoomMessage>, m: RoomMessage)
    ensures m in PaneLog(history, live) ==> m in history + live
  {
    if live != [] {
      var n := |live| - 1;
      PaneLogMembers(history, live[..n], m);
      assert history + live == history + live[..n] + [live[n]];
    }
  }

  /** No (sender, counter) pair is pushed to the pane twice, whatever the server sends live, if the
      history it started with had none twice. */
  lemma {:induction false} LiveNeverRepeats(history: seq<RoomMessage>, live: seq<RoomMessage>)
    requires NoPairTwice(history)
    ensures NoPairTwice(PaneLog(history, live))
  {
    if live != [] {
      var n := |live| - 1;
      var before := PaneLog(history, live[..n]);
      LiveNeverRepeats(history, live[..n]);
      if Shows(history + live[..n], live[n]) {
        forall i | 0 <= i < |before| ensures !SamePair(before[i], live[n]) {
          PaneLogMembers(history, live[..n], before[i]);
          TopCounterBounds(history + live[..n], live[n].ad.from);
        }
      }
    }
  }

  /** The condition is needed: history is pushed unchecked. The pane repeats no pair exactly when the
      history did not. */
  lemma PaneRepeatsOnlyHistory(history: seq<RoomMessage>, live: seq<RoomMessage>)
    ensures NoPairTwice(PaneLog(history, live)) <==> NoPairTwice(history)
  {
    PaneLogExtends(history, live);
    if NoPairTwice(history) { LiveNeverRepeats(history, live); }
  }

  lemma {:induction false} PaneLogExtends(history: seq<RoomMessage>, live: seq<RoomMessage>)
    ensures history <= PaneLog(history, live)
  {
    if live != [] { PaneLogExtends(history, live[..|live| - 1]); }
  }

  /** The messages of the stream whose counters the client's state accepts as they arrive. */
  ghost function Accepted(v: View, open: Opener, es: seq<Event>): seq<RoomMessage> {
    if es == [] then []
    else
      var n := |es| - 1;
      Accepted(v, open, es[..n]) + AcceptedOf(Live(v, open, es[..n]), es[n])
  }

  ghost function AcceptedOf(v: View, e: Event): seq<RoomMessage> {
    if e.Arrival? && e.frame.Message? && AcceptCounter(v, e.frame.msg.ad.from, e.frame.msg.ad.counter).1
    then [e.frame.msg] else []
  }

  lemma PaneLogAppend(history: seq<RoomMessage>, live: seq<RoomMessage>, m: RoomMessage)
    ensures PaneLog(history, live + [m]) == PaneLog(history, live) + if Shows(history + live, m) then [m] else []
  {
    assert (live + [m])[..|live|] == live;
  }

  /** One event: what the state accepts of it is what the pane's log gains. */
  lemma AcceptedStep(v: View, history: seq<RoomMessage>, live: seq<RoomMessage>, e: Event)
    requires SeenExactly(v, history + live)
    ensures PaneLog(history, live + MessageOf(e)) == PaneLog(history, live) + AcceptedOf(v, e)
  {
    if e.Arrival? && e.frame.Message? {
      AcceptIsShows(v, history + live, e.frame.msg);
      PaneLogAppend(history, live, e.frame.msg);
    } else {
      assert live + MessageOf(e) == live;
    }
  }

  /** The pane's log is what the state does: seed the history, then push what it accepts. */
  lemma {:induction false} AcceptedIsPaneLog(v: View, open: Opener, history: seq<RoomMessage>, es: seq<Event>)
    requires SeenExactly(v, history)
    ensures history + Accepted(v, open, es) == PaneLog(history, Received(es))
  {
    if es != [] {
      var n := |es| - 1;
      var before := Live(v, open, es[..n]);
      AcceptedIsPaneLog(v, open, history, es[..n]);
      LiveSees(v, open, history, es[..n]);
      AcceptedStep(before, history, Received(es[..n]), es[n]);
      assert history + Accepted(v, open, es) == history + Accepted(v, open, es[..n]) + AcceptedOf(before, es[n]);
    }
  }

  // ----- the counters a client sends -----

  /** The counters of the messages a client sends, in order. */
  ghost function SentCounters(v: View, open: Opener, es: seq<Event>): seq<u64> {
    if es == [] then []
    else
      var n := |es| - 1;
      SentCounters(v, open, es[..n]) + CounterSent(Live(v, open, es[..n]), es[n])
  }

  ghost function CounterSent(v: View, e: Event): seq<u64> {
    if e.Pressed? then
      var action := OnKey(v, e.key, e.env).1;
      if action.Send? && action.frame.ClientMessage? then [action.frame.ad.counter] else []
    else []
  }

  ghost predicate Ascending(cs: seq<u64>) {
    (forall i | 0 <= i < |cs| :: cs[i] >= 1) && forall i, j | 0 <= i < j < |cs| :: cs[i] < cs[j]
  }

  lemma OneEvent(v: View, open: Opener, e: Event)
    requires v.nextCounter >= 1
    ensures var v' := OnEvent(v, open, e);
            && v.nextCounter <= v'.nextCounter
            && v'.nextCounter as int <= v.nextCounter as int + 1
            && (CounterSent(v, e) != [] ==> CounterSent(v, e) == [v.nextCounter] && v'.nextCounter == Following(v.nextCounter))
  {
  }

  /** Counters start at 1 and strictly increase until the largest value has been assigned. */
  lemma {:induction false} SentAscending(v: View, open: Opener, es: seq<Event>)
    requires v.nextCounter == 1
    ensures 1 <= Live(v, open, es).nextCounter as int <= 1 + |es|
    ensures Live(v, open, es).nextCounter < U64_MAX ==>
              Ascending(SentCounters(v, open, es)) &&
              forall i | 0 <= i < |SentCounters(v, open, es)| :: SentCounters(v, open, es)[i] < Live(v, open, es).nextCounter
  {
    if es != [] {
      var n := |es| - 1;
      SentAscending(v, open, es[..n]);
      OneEvent(Live(v, open, es[..n]), open, es[n]);
    }
  }

  /** A sent counter is below the next one unless it was the largest value. */
  lemma CounterRepeatsExactlyAtMax(v: View, key: Key, env: Env)
    requires v.nextCounter >= 1
    requires var action := OnKey(v, key, env).1; action.Send? && action.frame.ClientMessage?
    ensures var (v', action) := OnKey(v, key, env);
            action.frame.ad.counter < v'.nextCounter <==> v.nextCounter != U64_MAX
  {
  }

  /** The server's counter check on a sequence of counters from one session. */
  ghost function Offer(ss: Sessions, id: Uuid, counters: seq<u64>): (Sessions, bool) {
    if counters == [] then (ss, true)
    else
      var (before, ok) := Offer(ss, id, counters[..|counters| - 1]);
      var (after, accepted) := AdvanceCounter(before, id, counters[|counters| - 1]);
      (after, ok && accepted)
  }

  /** A fresh session accepts a sequence of counters exactly when it ascends from at least 1. */
  lemma {:induction false} AscendingAccepted(ss: Sessions, id: Uuid, counters: seq<u64>)
    requires id in ss && ss[id].lastCounter == 0
    ensures var (after, ok) := Offer(ss, id, counters);
            && (ok <==> Ascending(counters))
            && id in after
            && (ok ==> after[id].lastCounter == if counters == [] then 0 else counters[|counters| - 1])
  {
    if counters != [] {
      var n := |counters| - 1;
      AscendingAccepted(ss, id, counters[..n]);
      AscendingAppend(counters[..n], counters[n]);
      assert counters[..n] + [counters[n]] == counters;
    }
  }

  lemma AscendingAppend(cs: seq<u64>, c: u64)
    ensures Ascending(cs + [c]) <==> Ascending(cs) && c >= 1 && (cs == [] || c > cs[|cs| - 1])
  {
    var more := cs + [c];
    assert forall i | 0 <= i < |cs| :: more[i] == cs[i];
    assert more[|cs|] == c;
  }

  lemma {:induction false} SeedCounter(v: View, open: Opener, history: seq<RoomMessage>, now: nat)
    ensures Seed(v, open, history, now).nextCounter == v.nextCounter
  {
    if history != [] { SeedCounter(v, open, history[..|history| - 1], now); }
  }

  // ----- the secret command -----

  lemma SecretBodyNotBlank(trimmed: Text)
    requires trimmed != [] && !IsWhitespace(trimmed[|trimmed| - 1]) && SecretBody(trimmed).Some?
    ensures Trim(SecretBody(trimmed).value) != []
  {
    var rest := SecretBody(trimmed).value;
    assert IsWhitespace(SECRET_SHORT[|SECRET_SHORT| - 1]) && IsWhitespace(SECRET_LONG[|SECRET_LONG| - 1]);
    assert rest != [] && rest[|rest| - 1] == trimmed[|trimmed| - 1];
    TrimStartFacts(rest);
    TrimEndFacts(TrimStart(rest));
  }

  /** The lines that ask for an ephemeral message. */
  ghost predicate SecretLine(line: Text) { "/s " <= line || "/secret " <= line }

  /** What is to be sealed: of a secret what follows the command, trimmed; of any other line all of it. */
  ghost function BodyOf(line: Text): Text {
    if "/s " <= line then Trim(line[3..]) else if "/secret " <= line then Trim(line[8..]) else line
  }

  ghost predicate Command(line: Text) { line == "/c" || line == "/clear" || line == "/q" || line == "/quit" }

  /** What an entered line does, field by field. The message it sends bears the client's identity, its
      next counter and the wall clock, and is ephemeral exactly if the line asked for it. The check for
      an empty secret never fires: the line is trimmed before the command is looked for. */
  lemma LineEffect(v: View, env: Env)
    ensures var (v', action) := OnKey(v, Enter, env);
            var line := TrimEnd(v.input);
            if line == [] then v' == v.(input := []) && action == NoAction
            else if Command(line) then
              v' == v.(input := []) && action == if line == "/c" || line == "/clear" then Send(Clear) else Quit
            else
              var ad := MessageAd(v.userId, v.username, v.nextCounter, env.wallMs, SecretLine(line));
              var counted := v.(input := [], nextCounter := if v.nextCounter == U64_MAX then U64_MAX else v.nextCounter + 1);
              match env.seal(BodyOf(line), ad)
              case Some(ct) => v' == counted && action == Send(ClientMessage(ad, ct))
              case None =>
                && action == NoAction && v' == counted.(messages := v'.messages, scroll := v'.scroll)
                && GainsEntry(v, v', DisplayMsg(env.wallMs, Notice(ENCRYPTION_FAILED), None))
  {
    var line := TrimEnd(v.input);
    TrimEndFacts(v.input);
    assert |SECRET_SHORT| == 3 && |SECRET_LONG| == 8;
    if SecretBody(line).Some? {
      assert SECRET_SHORT[1] == 's' && SECRET_LONG[1] == 's';
      assert line[1] == 's' && "/c"[1] == 'c' && "/clear"[1] == 'c' && "/q"[1] == 'q' && "/quit"[1] == 'q';
      SecretBodyNotBlank(line);
    }
  }

  /** A secret is always sent if it can be sealed, and sent as ephemeral. */
  lemma SecretAlwaysSent(v: View, env: Env, ct: Bytes)
    requires SecretLine(TrimEnd(v.input))
    requires var ad := MessageAd(v.userId, v.username, v.nextCounter, env.wallMs, true);
             env.seal(BodyOf(TrimEnd(v.input)), ad) == Some(ct)
    ensures OnKey(v, Enter, env).1
         == Send(ClientMessage(MessageAd(v.userId, v.username, v.nextCounter, env.wallMs, true), ct))
  {
    var line := TrimEnd(v.input);
    assert line[1] == 's' && "/c"[1] == 'c' && "/clear"[1] == 'c' && "/q"[1] == 'q' && "/quit"[1] == 'q';
    LineEffect(v, env);
  }

  /** `/s` or `/secret` with nothing but white space after it goes out as ordinary text. */
  lemma BareSecretIsOrdinary(v: View, env: Env, ct: Bytes)
    requires TrimEnd(v.input) == "/s" || TrimEnd(v.input) == "/secret"
    requires var ad := MessageAd(v.userId, v.username, v.nextCounter, env.wallMs, false);
             env.seal(TrimEnd(v.input), ad) == Some(ct)
    ensures OnKey(v, Enter, env).1
         == Send(ClientMessage(MessageAd(v.userId, v.username, v.nextCounter, env.wallMs, false), ct))
  {
    var line := TrimEnd(v.input);
    assert |SECRET_SHORT| == 3 && |SECRET_LONG| == 8;
    assert SECRET_SHORT[2] == ' ' && "/secret"[2] == 'e';
    assert line[1] == 's' && "/c"[1] == 'c' && "/clear"[1] == 'c' && "/q"[1] == 'q' && "/quit"[1] == 'q';
    LineEffect(v, env);
  }

  // ----- the other keys -----

  /** The highest the pane can be scrolled back. */
  ghost function Top(v: View): nat {
    if |v.messages| <= v.innerH then 0 else if v.innerH == 0 then |v.messages| - 1 else |v.messages| - v.innerH
  }

  /** A page: a pane's height less one, and at least one row. */
  ghost function Page(v: View): nat { if v.innerH <= 2 then 1 else v.innerH - 1 }

  ghost function Back(v: View, n: nat): nat { if v.scroll + n <= Top(v) then v.scroll + n else Top(v) }

  ghost function Forth(v: View, n: nat): nat { if v.scroll <= n then 0 else v.scroll - n }

  /** What every other key does, field by field. */
  lemma KeyEffect(v: View, key: Key, env: Env)
    requires !key.Enter?
    ensures var (v', action) := OnKey(v, key, env);
            && action == (if key == CtrlC then Quit else NoAction)
            && match key
               case CtrlC => v' == v
               case CtrlR => v' == v.(messages := v'.messages)
               case Enter => false
               case Backspace => v' == v.(input := if v.input == [] then [] else v.input[..|v.input| - 1])
               case Up => v' == v.(scroll := Back(v, 1))
               case Down => v' == v.(scroll := Forth(v, 1))
               case PageUp => v' == v.(scroll := Back(v, Page(v)))
               case PageDown => v' == v.(scroll := Forth(v, Page(v)))
               case Home => v' == v.(scroll := Top(v))
               case End => v' == v.(scroll := 0)
               case Char(c) => v' == v.(input := v.input + [c])
               case Other => v' == v
  {
  }
}
