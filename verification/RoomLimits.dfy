/** What the room does not promise: runs that reach the states one might think impossible. What does
    hold is said by `SweptUnlessTouched` and `LeftoversExactly` of the sweeper and of failed Welcomes, and
    by `DeliveredIsShown` and `MissingExactlyAfterClear` of the clients' screens. */
module RoomLimits {
  import opened Proto
  import opened Stores
  import opened RoomMachine
  import opened SlidingWindow
  import opened Client
  import opened Screens
  import opened EndToEnd

  lemma Go(s: State, step: Step) returns (s': State)
    requires Reachable(s) && Enabled(s, step)
    ensures s' == Apply(s, step) && Reachable(s')
  {
    s' := Apply(s, step);
    var steps :| After(steps) == Some(s);
    assert (steps + [step])[..|steps|] == steps;
    assert After(steps + [step]) == Some(s');
  }

  lemma Start() returns (s: State)
    ensures s == INIT && Reachable(s)
  {
    s := INIT;
    assert After([]) == Some(INIT);
  }

  /** A task that has just sent its Welcome, with its session as registered. */
  lemma JoinFirst(a: Uuid, username: Bytes, ok: bool) returns (s: State)
    requires AdmissibleUsername(username)
    ensures Reachable(s) && s.now == 0 && s.sessionsLock == Free && s.conns == {a} && s.sweeper == Idle
    ensures s.sessions == map[a := Session(username, 0, 0, [], None)] && s.tasks.Keys == {a}
    ensures s.tasks[a].pc == (if ok then Pumping else Returning) && s.tasks[a].username == username
    ensures s.tasks[a].enqueued == []
  {
    s := Start();
    s := Go(s, Register(a, username, 0));
    s := Go(s, Connect(a));
    s := Go(s, TakeHistory(a));
    s := Go(s, SendWelcome(a, ok));
  }

  lemma ListedThenTouched(s: State, a: Uuid) returns (s': State)
    requires Reachable(s) && s.now == 0 && s.sessionsLock == Free && s.sweeper == Idle
    requires a in s.tasks && s.tasks[a].pc == Handling(Clear) && a in s.sessions && s.sessions[a].lastActive == 0
    ensures Reachable(s') && Enabled(s', StartSweep) && a in s'.sweeper.stale
    ensures a in s'.sessions && s'.sessions[a].lastActive == s'.now && s'.conns == s.conns
  {
    var at := SESSION_TIMEOUT + 1;
    s' := Go(s, ListStale(at));
    assert a in StaleIds(s.sessions, at);
    s' := Go(s', Touch(a, at));
  }

  /** The sweeper may remove a session that was active this very instant: it was touched after the
      list was made. */
  lemma SweepHitsActive(a: Uuid, username: Bytes) returns (s: State)
    requires AdmissibleUsername(username)
    ensures Reachable(s) && Enabled(s, Sweep) && a in s.sweeper.stale
    ensures a in s.sessions && s.sessions[a].lastActive == s.now && a in s.conns
  {
    var joined := JoinFirst(a, username, true);
    var asked := Go(joined, Receive(a, Clear));
    s := ListedThenTouched(asked, a);
    s := Go(s, StartSweep);
  }

  /** A connection whose Welcome fails is over without cleaning up: its session and its connection stay. */
  lemma FailedWelcomeStays(a: Uuid, username: Bytes) returns (s: State)
    requires AdmissibleUsername(username)
    ensures Reachable(s) && s.sessionsLock == Free && s.tasks.Keys == {a} && s.tasks[a].pc == Closed
    ensures a in s.sessions && a in s.conns
  {
    s := JoinFirst(a, username, false);
    s := Go(s, Return(a));
  }

  // ----- a message lost to the replay check -----

  /** `a` speaks while `x` is registered but has not looked at the history yet; so far `sent` went out. */
  ghost predicate Two(s: State, a: Uuid, x: Uuid, username: Bytes, counter: u64, sent: seq<ServerFrame>) {
    && Reachable(s) && a != x && s.now == 0 && s.sessionsLock == Free
    && s.tasks.Keys == {a, x} && s.conns == {a, x}
    && a in s.sessions && s.sessions[a].lastCounter == counter && |s.sessions[a].messageWindow| <= |sent| <= 2
    && s.tasks[a].pc == Pumping && s.tasks[a].username == username && s.tasks[x].pc == Registered
    && s.tasks[a].enqueued == s.tasks[x].enqueued == sent
    && s.tasks[a].taken == s.tasks[x].taken == s.tasks[x].delivered == 0
  }

  lemma TwoJoin(a: Uuid, x: Uuid, username: Bytes) returns (s: State)
    requires AdmissibleUsername(username) && a != x
    ensures Two(s, a, x, username, 0, []) && s.history == [] && s.sessions[a].lastClear == None
  {
    s := Start();
    s := Go(s, Register(a, username, 0));
    s := Go(s, Connect(a));
    s := Go(s, TakeHistory(a));
    s := Go(s, SendWelcome(a, true));
    s := Go(s, Register(x, username, 0));
    s := Go(s, Connect(x));
  }

  lemma PruneShrinks(q: seq<nat>, now: nat, window: nat)
    ensures |Prune(q, now, window)| <= |q|
  {
  }

  lemma Submitted(s: State, a: Uuid, m: RoomMessage) returns (s': State)
    requires Reachable(s) && s.now == 0 && s.sessionsLock == Free && a in s.tasks && a in s.sessions
    requires s.tasks[a].pc == Pumping && WithinBounds(m) && m.from == a && m.username == s.tasks[a].username
    ensures Reachable(s') && Enabled(s', AdmitMessage(a, 0)) && s'.tasks[a].pc == Admitting(m.ad, m.ciphertext)
    ensures s' == s.(sessions := s'.sessions, tasks := s.tasks[a := s.tasks[a].(pc := s'.tasks[a].pc)])
    ensures s'.sessions == s.sessions[a := s.sessions[a].(lastActive := 0)]
  {
    s' := Go(s, Receive(a, ClientMessage(m.ad, m.ciphertext)));
    s' := Go(s', Touch(a, 0));
  }

  /** The message goes through the checks, and into the history unless it is ephemeral. */
  lemma Admitted(s: State, a: Uuid, m: RoomMessage) returns (s': State)
    requires Reachable(s) && Enabled(s, AdmitMessage(a, 0)) && s.tasks[a].pc == Admitting(m.ad, m.ciphertext)
    requires m.from == a && m.username == s.tasks[a].username && s.now == 0
    requires a in s.sessions && m.ad.counter > s.sessions[a].lastCounter && |s.sessions[a].messageWindow| < 3
    ensures Reachable(s') && a in s'.tasks && s'.tasks[a].pc == Announcing(Message(m))
    ensures s'.tasks == s.tasks[a := s'.tasks[a]] && s'.conns == s.conns && s'.now == 0 && s'.sessionsLock == Free
    ensures s'.tasks[a].username == s.tasks[a].username
    ensures s'.tasks[a].enqueued == s.tasks[a].enqueued && s'.tasks[a].taken == s.tasks[a].taken
    ensures a in s'.sessions && s'.sessions[a].lastCounter == m.ad.counter
    ensures |s'.sessions[a].messageWindow| <= |s.sessions[a].messageWindow| + 1
    ensures forall other | other != a && other in s.sessions :: other in s'.sessions
    ensures s'.history == if m.ad.ephemeral then s.history else PushHistory(s.history, m)
  {
    PruneShrinks(s.sessions[a].messageWindow, 0, MSG_RATE_WINDOW);
    s' := Go(s, AdmitMessage(a, 0));
    if s'.tasks[a].pc.Recording? {
      s' := Go(s', Record(a));
    }
  }

  lemma SendToOther(s: State, a: Uuid, x: Uuid, f: ServerFrame) returns (s': State)
    requires Reachable(s) && a != x && s.tasks.Keys == {a, x} && s.conns == {a, x}
    requires s.tasks[a].pc == Sending(f, {a, x} - {a}, {}) && OutboxAccepts(s.tasks[x])
    ensures Reachable(s') && s' == s.(tasks := s'.tasks) && s'.tasks.Keys == {a, x}
    ensures s'.tasks[x] == s.tasks[x].(enqueued := s.tasks[x].enqueued + [f])
    ensures s'.tasks[a] == s.tasks[a].(pc := Pumping)
  {
    s' := Go(s, TrySend(a, x));
    assert s'.tasks[a].pc == Sending(f, {}, {});
    s' := Go(s', Evict(a));
  }

  /** A broadcast to the two of them, undisturbed. */
  lemma SendToBoth(s: State, a: Uuid, x: Uuid, f: ServerFrame) returns (s': State)
    requires Reachable(s) && a != x && s.tasks.Keys == {a, x} && s.conns == {a, x} && s.tasks[a].pc == Announcing(f)
    requires OutboxAccepts(s.tasks[a]) && OutboxAccepts(s.tasks[x])
    ensures Reachable(s') && s' == s.(tasks := s'.tasks) && s'.tasks.Keys == {a, x}
    ensures s'.tasks[x] == s.tasks[x].(enqueued := s.tasks[x].enqueued + [f])
    ensures s'.tasks[a] == s.tasks[a].(enqueued := s.tasks[a].enqueued + [f], pc := Pumping)
  {
    var told := Go(s, SnapshotConns(a));
    told := Go(told, TrySend(a, a));
    s' := SendToOther(told, a, x, f);
  }

  /** One message said by `a` from start to end. */
  lemma Said(s: State, a: Uuid, x: Uuid, username: Bytes, counter: u64, sent: seq<ServerFrame>, m: RoomMessage)
    returns (s': State)
    requires Two(s, a, x, username, counter, sent) && |sent| < 2 && WithinBounds(m)
    requires m.from == a && m.username == username && m.ad.counter > counter
    ensures Two(s', a, x, username, m.ad.counter, sent + [Message(m)])
    ensures s'.history == if m.ad.ephemeral then s.history else PushHistory(s.history, m)
  {
    s' := Submitted(s, a, m);
    s' := Admitted(s', a, m);
    s' := SendToBoth(s', a, x, Message(m));
  }

  lemma XLooks(s: State, x: Uuid, w: seq<RoomMessage>) returns (s': State)
    requires Reachable(s) && x in s.tasks && s.tasks[x].pc == Registered && s.history == w
    requires s.tasks[x].taken == 0 && |s.tasks[x].enqueued| == 2
    ensures Reachable(s') && x in s'.tasks && s'.tasks[x].welcome == Some(w) && s'.history == w
    ensures s'.tasks[x].enqueued == s.tasks[x].enqueued && s'.tasks[x].delivered == 2
  {
    s' := Go(s, TakeHistory(x));
    s' := Go(s', SendWelcome(x, true));
    s' := Go(s', Deliver(x, true));
    s' := Go(s', Deliver(x, true));
  }

  lemma NotAbove(m: RoomMessage, later: RoomMessage)
    requires m.ad.from == later.ad.from && m.ad.counter <= later.ad.counter
    ensures !Shows([later], m)
  {
    TopCounterBounds([later], m.ad.from);
    assert [later][0] == later;
  }

  lemma BothSaid(a: Uuid, x: Uuid, username: Bytes, m: RoomMessage, later: RoomMessage) returns (s: State)
    requires AdmissibleUsername(username) && a != x && WithinBounds(m) && WithinBounds(later)
    requires m.from == later.from == a && m.username == later.username == username
    requires m.ad.ephemeral && !later.ad.ephemeral && 0 < m.ad.counter < later.ad.counter
    ensures Two(s, a, x, username, later.ad.counter, [Message(m), Message(later)]) && s.history == [later]
  {
    s := TwoJoin(a, x, username);
    s := Said(s, a, x, username, 0, [], m);
    s := Said(s, a, x, username, m.ad.counter, [Message(m)], later);
  }

  /** The exception for ephemeral messages is real. `x` registers; `a` says an ephemeral message, then
      an ordinary one; then `x` looks at the history. The ephemeral message is delivered to `x`'s
      client, and its screen never shows it: the history already holds a later counter. */
  lemma EphemeralLostToJoin(a: Uuid, x: Uuid, username: Bytes) returns (s: State, m: RoomMessage)
    requires AdmissibleUsername(username) && a != x
    ensures Reachable(s) && x in s.tasks && s.tasks[x].welcome.Some? && s.tasks[x].delivered == |s.tasks[x].enqueued|
    ensures m.ad.ephemeral && Message(m) in s.tasks[x].enqueued
    ensures forall f | f in s.tasks[x].enqueued :: !f.Cleared?
    ensures m !in Screen(s.tasks[x].welcome.value, s.tasks[x].enqueued)
  {
    m := RoomMessage(a, username, MessageAd(a, username, 1, 0, true), []);
    var later := RoomMessage(a, username, MessageAd(a, username, 2, 0, false), []);
    s := BothSaid(a, x, username, m, later);
    s := XLooks(s, x, [later]);
    NotAbove(m, later);
    assert s.tasks[x].enqueued[..2] == s.tasks[x].enqueued && s.tasks[x].enqueued[0] == Message(m);
    DeliveredIsShown(s, x, 2, 0);
  }

  /** One clear by `a` from start to end. */
  lemma ClearedAll(s: State, a: Uuid, x: Uuid, username: Bytes) returns (s': State)
    requires Two(s, a, x, username, 0, []) && s.sessions[a].lastClear == None
    ensures Two(s', a, x, username, 0, [Cleared(a, username)]) && s'.history == []
  {
    s' := Go(s, Receive(a, Clear));
    s' := Go(s', Touch(a, 0));
    s' := ClearRecorded(s', a, x, username);
    s' := SendToBoth(s', a, x, Cleared(a, username));
  }

  lemma ClearRecorded(s: State, a: Uuid, x: Uuid, username: Bytes) returns (s': State)
    requires Reachable(s) && Enabled(s, AdmitClear(a, 0)) && s.tasks[a].username == username && s.now == 0
    requires a in s.sessions && s.sessions[a].lastClear == None
    ensures Reachable(s') && s'.history == []
    ensures s'.sessions == s.sessions[a := s.sessions[a].(lastClear := Some(0))]
    ensures a in s'.tasks && s'.tasks == s.tasks[a := s'.tasks[a]] && s'.tasks[a].pc == Announcing(Cleared(a, username))
    ensures s'.tasks[a].username == username && s'.tasks[a].enqueued == s.tasks[a].enqueued
    ensures s'.tasks[a].taken == s.tasks[a].taken
    ensures s'.conns == s.conns && s'.now == 0 && s'.sessionsLock == Free
  {
    s' := Go(s, AdmitClear(a, 0));
    s' := Go(s', Record(a));
  }

  /** A message that is not ephemeral, said after a clear and delivered after it, can be lost as well.
      `x` registers; `a` clears, then speaks; then `x` looks at the history, which holds the message.
      The clear is still queued: it wipes the Welcome off the screen, and the message that follows it
      is dropped as a replay of what the Welcome held. */
  lemma DurableLostToClear(a: Uuid, x: Uuid, username: Bytes) returns (s: State, m: RoomMessage)
    requires AdmissibleUsername(username) && a != x
    ensures Reachable(s) && x in s.tasks && !m.ad.ephemeral && s.history == [m] && s.tasks[x].welcome == Some([m])
    ensures s.tasks[x].enqueued == [Cleared(a, username), Message(m)] && s.tasks[x].delivered == 2
    ensures m !in Screen([m], s.tasks[x].enqueued)
  {
    m := RoomMessage(a, username, MessageAd(a, username, 1, 0, false), []);
    s := TwoJoin(a, x, username);
    s := ClearedAll(s, a, x, username);
    s := Said(s, a, x, username, 0, [Cleared(a, username)], m);
    s := XLooks(s, x, [m]);
    NotAbove(m, m);
    assert s.tasks[x].enqueued[..2] == s.tasks[x].enqueued;
    assert s.tasks[x].enqueued[0].Cleared? && s.tasks[x].enqueued[1] == Message(m);
    DeliveredIsShown(s, x, 2, 1);
  }

  // ----- a clear and a screen that disagree -----

  lemma ClearAllowed(a: Uuid, username: Bytes) returns (s: State)
    requires AdmissibleUsername(username)
    ensures Reachable(s) && s.now == 0 && s.sessionsLock == Free && s.tasks.Keys == {a} && s.conns == {a}
    ensures s.tasks[a].pc == Recording(Cleared(a, username)) && s.tasks[a].enqueued == []
  {
    s := JoinFirst(a, username, true);
    s := Go(s, Receive(a, Clear));
    s := Go(s, Touch(a, 0));
    s := Go(s, AdmitClear(a, 0));
  }

  /** `a`'s clear has wiped the history and is about to be announced to `x`. */
  lemma Wiped(a: Uuid, x: Uuid, username: Bytes) returns (s: State)
    requires AdmissibleUsername(username) && a != x
    ensures Reachable(s) && s.now == 0 && s.sessionsLock == Free && s.tasks.Keys == {a, x} && s.conns == {a, x}
    ensures s.tasks[a].pc == Announcing(Cleared(a, username)) && s.tasks[x].pc == Pumping
    ensures s.tasks[x].username == username && s.tasks[a].enqueued == s.tasks[x].enqueued == []
    ensures x in s.sessions && s.sessions[x].lastCounter == 0 && s.sessions[x].messageWindow == []
    ensures s.history == []
  {
    s := ClearAllowed(a, username);
    s := SecondJoins(s, a, x, username);
    s := Go(s, Record(a));
  }

  lemma SecondJoins(s: State, a: Uuid, x: Uuid, username: Bytes) returns (s': State)
    requires Reachable(s) && a != x && s.tasks.Keys == {a} && s.conns == {a} && s.now == 0 && s.sessionsLock == Free
    requires AdmissibleUsername(username) && s.tasks[a].pc == Recording(Cleared(a, username))
    ensures Reachable(s') && s'.now == 0 && s'.sessionsLock == Free && s'.tasks.Keys == {a, x} && s'.conns == {a, x}
    ensures s'.tasks[a] == s.tasks[a] && s'.tasks[x].pc == Pumping && s'.tasks[x].username == username
    ensures s'.tasks[x].enqueued == [] && x in s'.sessions && s'.sessions[x] == Session(username, 0, 0, [], None)
  {
    s' := Go(s, Register(x, username, 0));
    s' := Go(s', Connect(x));
    s' := Go(s', TakeHistory(x));
    s' := Go(s', SendWelcome(x, true));
  }

  /** Wiping the history and announcing the wipe are separate steps, and a message may pass between
      them: every client is told of the message first and of the clear afterwards, so its pane ends up
      empty, while the history holds the message. Nobody is left with anything to do. */
  lemma ClearPartsViews(a: Uuid, x: Uuid, username: Bytes) returns (s: State, m: RoomMessage)
    requires AdmissibleUsername(username) && a != x
    ensures Reachable(s) && s.tasks.Keys == s.conns == {a, x}
    ensures s.tasks[a].pc == s.tasks[x].pc == Pumping && s.history == [m]
    ensures s.tasks[a].enqueued == s.tasks[x].enqueued == [Message(m), Cleared(a, username)]
    ensures forall w :: Screen(w, s.tasks[a].enqueued) == Screen(w, s.tasks[x].enqueued) == []
  {
    m := RoomMessage(x, username, MessageAd(x, username, 1, 0, false), []);
    s := Wiped(a, x, username);
    s := Submitted(s, x, m);
    s := Admitted(s, x, m);
    s := SendToBoth(s, x, a, Message(m));
    s := SendToBoth(s, a, x, Cleared(a, username));
  }
}
