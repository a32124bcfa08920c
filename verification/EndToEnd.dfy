/** The server's room and a client together: what a connected client's pane shows, over every schedule
    of the room. */
module EndToEnd {
  import opened Proto
  import opened RoomMachine
  import opened RoomLogs
  import opened RoomInvariant
  import opened RoomSteps
  import opened RoomTheorems
  import opened ClientUi
  import opened Client
  import opened Screens
  import opened PaneRows

  /** The live messages a task has sent its client after the Welcome. */
  ghost function LiveMessages(t: Task): seq<RoomMessage>
    requires t.delivered <= |t.enqueued|
  {
    MessagesIn(t.enqueued[..t.delivered])
  }

  // ----- the server's promise about one client's stream -----

  lemma {:induction false} OrderlyMessages(fs: seq<ServerFrame>)
    requires IncreasingPerSender(fs)
    requires forall i | 0 <= i < |fs| && fs[i].Message? :: fs[i].msg.ad.from == fs[i].msg.from && fs[i].msg.ad.counter > 0
    ensures Orderly(MessagesIn(fs))
  {
    if fs != [] {
      var n := |fs| - 1;
      assert forall i | 0 <= i < n :: fs[..n][i] == fs[i];
      OrderlyMessages(fs[..n]);
      if fs[n].Message? {
        forall m | m in MessagesIn(fs[..n]) && m.from == fs[n].msg.from ensures m.ad.counter < fs[n].msg.ad.counter {
          MessagesInMembers(fs[..n], m);
          var i :| 0 <= i < n && fs[..n][i] == Message(m);
          assert fs[i] == Message(m);
        }
      }
    }
  }

  lemma EnqueuedOrderly(s: State, x: Uuid, n: nat)
    requires Inv(s) && x in s.tasks && n <= |s.tasks[x].enqueued|
    ensures Orderly(MessagesIn(s.tasks[x].enqueued[..n]))
  {
    var fs := s.tasks[x].enqueued;
    OutboxIncreasing(s, x);
    assert SendersKnown(fs, s.tasks) by { assert AllKnown(s.tasks); }
    forall i | 0 <= i < n && fs[..n][i].Message?
      ensures fs[..n][i].msg.ad.from == fs[..n][i].msg.from && fs[..n][i].msg.ad.counter > 0
    {
      assert KnownFrame(fs[i], s.tasks);
    }
    assert IncreasingPerSender(fs[..n]) by { assert forall i | 0 <= i < n :: fs[..n][i] == fs[i]; }
    OrderlyMessages(fs[..n]);
  }

  lemma IssuedPositive(s: State, m: RoomMessage)
    requires Inv(s) && m.from in s.tasks && Message(m) in s.tasks[m.from].issued
    ensures m.ad.counter > 0
  {
    TaskFacts(s, m.from);
  }

  lemma HistoryOrderly(s: State, x: Uuid)
    requires Inv(s) && x in s.tasks && TookHistory(s.tasks[x])
    ensures Orderly(HistoryTaken(s.tasks[x]))
  {
    TaskFacts(s, x);
    var t := s.tasks[x];
    var log := s.recorded[..t.historyAt];
    RecordedIncreasing(s);
    assert IncreasingPerSender(log) by { assert forall i | 0 <= i < |log| :: log[i] == s.recorded[i]; }
    ReplayIncreasing(log);
    forall i | 0 <= i < |Replay(log)| ensures Replay(log)[i].ad.from == Replay(log)[i].from && Replay(log)[i].ad.counter > 0 {
      RecordedMember(s, log, Replay(log)[i]);
      IssuedPositive(s, Replay(log)[i]);
    }
  }

  // ----- no message twice -----

  lemma OrderlyNoTwice(ms: seq<RoomMessage>)
    requires Orderly(ms)
    ensures NoPairTwice(ms)
  {
  }

  /** End to end, no (sender, counter) pair is ever pushed to a client's pane twice, even when the
      Welcome overlaps frames already waiting in the outbox. */
  lemma NoMessageTwice(s: State, x: Uuid)
    requires Reachable(s) && x in s.tasks && s.tasks[x].welcome.Some?
    ensures s.tasks[x].delivered <= |s.tasks[x].enqueued|
    ensures NoPairTwice(PaneLog(s.tasks[x].welcome.value, LiveMessages(s.tasks[x])))
  {
    ReachableOk(s);
    TaskFacts(s, x);
    HistoryOrderly(s, x);
    OrderlyNoTwice(s.tasks[x].welcome.value);
    LiveNeverRepeats(s.tasks[x].welcome.value, LiveMessages(s.tasks[x]));
  }

  /** The same of the client as it runs: the history it seeds and the messages its state accepts, at
      any moment and whatever keys, ticks and resizes come in between. This needs an honest history
      only; it holds for any frames that follow. */
  lemma ClientNeverRepeats(s: State, x: Uuid, open: Opener, joined: nat, es: seq<Event>)
    requires Reachable(s) && x in s.tasks && s.tasks[x].welcome.Some?
    ensures var t := s.tasks[x];
            var history := t.welcome.value;
            NoPairTwice(history + Accepted(Seed(NewView(t.username, x), open, history, joined), open, es))
  {
    var t := s.tasks[x];
    var history := t.welcome.value;
    ReachableOk(s);
    TaskFacts(s, x);
    HistoryOrderly(s, x);
    OrderlyNoTwice(history);
    LiveNeverRepeats(history, Received(es));
    SeedSees(NewView(t.username, x), open, history, joined);
    AcceptedIsPaneLog(Seed(NewView(t.username, x), open, history, joined), open, history, es);
  }

  // ----- what the replay check costs -----

  lemma CounterPositions(fs: seq<ServerFrame>, i: nat, j: nat)
    requires Increasing(fs) && i < |fs| && j < |fs| && fs[i].Message? && fs[j].Message?
    requires fs[i].msg.ad.counter <= fs[j].msg.ad.counter
    ensures i <= j
  {
  }

  /** A durable message that some later message of the same sender in `x`'s history has overtaken was
      itself recorded before `x` looked. */
  lemma OvertakenWasRecorded(s: State, x: Uuid, m: RoomMessage, later: RoomMessage)
    requires Inv(s) && x in s.tasks && TookHistory(s.tasks[x])
    requires later in HistoryTaken(s.tasks[x]) && Message(m) in s.tasks[x].enqueued && !m.ad.ephemeral
    requires later.from == m.from && m.ad.counter <= later.ad.counter
    ensures s.tasks[x].historyAt <= |s.recorded| && Message(m) in s.recorded[..s.tasks[x].historyAt]
  {
    TaskFacts(s, x);
    var a := m.from;
    assert a in s.tasks by {
      assert SendersKnown(s.tasks[x].enqueued, s.tasks) by { assert AllKnown(s.tasks); }
      var i :| 0 <= i < |s.tasks[x].enqueued| && s.tasks[x].enqueued[i] == Message(m);
      assert KnownFrame(s.tasks[x].enqueued[i], s.tasks);
    }
    TaskFacts(s, a);
    EnqueuedWasIssued(s, Message(m), a, x);
    var log := s.recorded[..s.tasks[x].historyAt];
    LaterRecorded(s, log, later);
    OvertakenPrefix(s, a, m, later, log);
  }

  lemma LaterRecorded(s: State, log: seq<ServerFrame>, m: RoomMessage)
    requires log <= s.recorded && m in Replay(log)
    ensures Message(m) in log
  {
    HistoryEntries(log);
    var i :| 0 <= i < |Replay(log)| && Replay(log)[i] == m;
    assert log[|log| - |Replay(log)| + i] == Message(m);
  }

  lemma OvertakenPrefix(s: State, a: Uuid, m: RoomMessage, later: RoomMessage, log: seq<ServerFrame>)
    requires Inv(s) && a in s.tasks && log <= s.recorded && Message(later) in log
    requires Message(m) in s.tasks[a].issued && m.from == a && !m.ad.ephemeral && later.from == a
    requires m.ad.counter <= later.ad.counter
    ensures Message(m) in log
  {
    TaskFacts(s, a);
    var issued, settled := s.tasks[a].issued, Settled(s.tasks[a]);
    var whole := From(s.recorded, a);
    FromPrefix(s.recorded, |log|, a);
    assert s.recorded[..|log|] == log;
    FromMembers(log, a, Message(later));
    var j :| 0 <= j < |From(log, a)| && From(log, a)[j] == Message(later);
    IssuedIncreasing(s, a, 0, settled);
    assert issued[0..settled] == issued[..settled];
    DurableIncreasing(issued[..settled]);
    IssuedEarlierIsSettled(s, a, m, later);
    DurableMembers(issued[..settled], Message(m));
    var i :| 0 <= i < |whole| && whole[i] == Message(m);
    assert whole[j] == Message(later);
    CounterPositions(whole, i, j);
    assert From(log, a)[i] == Message(m);
    FromMembers(log, a, Message(m));
  }

  lemma IssuedEarlierIsSettled(s: State, a: Uuid, m: RoomMessage, later: RoomMessage)
    requires Inv(s) && a in s.tasks && later.from == a && Message(later) in s.recorded
    requires Message(m) in s.tasks[a].issued && m.ad.counter <= later.ad.counter
    ensures Message(m) in s.tasks[a].issued[..Settled(s.tasks[a])]
  {
    TaskFacts(s, a);
    var issued, settled := s.tasks[a].issued, Settled(s.tasks[a]);
    FromMembers(s.recorded, a, Message(later));
    DurableMembers(issued[..settled], Message(later));
    var j :| 0 <= j < settled && issued[..settled][j] == Message(later);
    var i :| 0 <= i < |issued| && issued[i] == Message(m);
    assert issued[j] == Message(later);
    CounterPositions(issued, i, j);
    assert issued[..settled][i] == Message(m);
  }

  lemma RecordedSeenOrGone(s: State, x: Uuid, m: RoomMessage)
    requires Inv(s) && x in s.tasks && TookHistory(s.tasks[x])
    requires s.tasks[x].historyAt <= |s.recorded| && Message(m) in s.recorded[..s.tasks[x].historyAt]
    ensures m in HistoryTaken(s.tasks[x]) || GoneBefore(s, m, s.tasks[x])
  {
    TaskFacts(s, x);
    var log := s.recorded[..s.tasks[x].historyAt];
    var k :| 0 <= k < |log| && log[k] == Message(m);
    assert s.recorded[k] == Message(m);
    InHistoryUnlessDisplaced(log, k);
  }

  /** A message the history of `x` outdoes and does not hold was ephemeral, or gone before `x` looked. */
  lemma OutdoneIsGone(s: State, x: Uuid, m: RoomMessage)
    requires Inv(s) && x in s.tasks && s.tasks[x].welcome.Some? && Message(m) in s.tasks[x].enqueued
    requires !Shows(s.tasks[x].welcome.value, m) && m !in s.tasks[x].welcome.value
    ensures m.ad.ephemeral || GoneBefore(s, m, s.tasks[x])
    ensures !m.ad.ephemeral ==>
              s.tasks[x].historyAt <= |s.recorded| && Message(m) in s.recorded[..s.tasks[x].historyAt]
  {
    var w := s.tasks[x].welcome.value;
    if !m.ad.ephemeral {
      TaskFacts(s, x);
      EnqueuedMessage(s, x, m);
      TopCounterBounds(w, m.ad.from);
      var i :| 0 <= i < |w| && w[i].ad.from == m.ad.from && w[i].ad.counter == TopCounter(w, m.ad.from);
      HistoryOrderly(s, x);
      OvertakenWasRecorded(s, x, m, w[i]);
      RecordedSeenOrGone(s, x, m);
    }
  }

  lemma EnqueuedMessage(s: State, x: Uuid, m: RoomMessage)
    requires Inv(s) && x in s.tasks && Message(m) in s.tasks[x].enqueued
    ensures m.ad.from == m.from && m.ad.counter > 0 && m.from in s.tasks
  {
    var fs := s.tasks[x].enqueued;
    assert SendersKnown(fs, s.tasks) by { assert AllKnown(s.tasks); }
    var i :| 0 <= i < |fs| && fs[i] == Message(m);
    assert KnownFrame(fs[i], s.tasks);
  }

  lemma OncePerStream(fs: seq<ServerFrame>, i: nat, j: nat)
    requires IncreasingPerSender(fs) && i < |fs| && j < |fs| && fs[i].Message? && fs[i] == fs[j]
    ensures i == j
  {
  }

  /** What a delivered message's place on its client's screen depends on, at any moment of the
      delivery: it is there exactly when no clear has come after it and it either got past the
      Welcome's counters, or was in the Welcome itself and no clear has come at all. And what fails
      the counters without being in the Welcome was ephemeral, or had been wiped or pushed out of the
      history before the connection looked. */
  lemma DeliveredIsShown(s: State, x: Uuid, k: nat, n: nat)
    requires Reachable(s) && x in s.tasks && s.tasks[x].welcome.Some?
    requires n < k <= |s.tasks[x].enqueued| && s.tasks[x].enqueued[n].Message?
    ensures var t := s.tasks[x];
            var w, fs, m := t.welcome.value, t.enqueued[..k], t.enqueued[n].msg;
            && (m in Screen(w, fs) <==> NoClearAfter(fs, n) && (Shows(w, m) || (m in w && NoClearAfter(fs, -1))))
            && (!Shows(w, m) && m !in w ==> m.ad.ephemeral || GoneBefore(s, m, t))
  {
    ReachableOk(s);
    var t := s.tasks[x];
    var w, fs, m := t.welcome.value, t.enqueued[..k], t.enqueued[n].msg;
    assert fs[n] == Message(m) && Message(m) in t.enqueued;
    EnqueuedOrderly(s, x, k);
    ScreenExactly(w, fs, m);
    OutboxIncreasing(s, x);
    forall i | 0 <= i < k && fs[i] == Message(m) ensures i == n {
      assert t.enqueued[i] == Message(m);
      OncePerStream(t.enqueued, i, n);
    }
    if !Shows(w, m) && m !in w { OutdoneIsGone(s, x, m); }
  }

  lemma HistoryFitsPane(s: State, x: Uuid)
    requires Inv(s) && x in s.tasks && s.tasks[x].welcome.Some?
    ensures |s.tasks[x].welcome.value| <= HISTORY_CAP && Orderly(s.tasks[x].welcome.value)
  {
    TaskFacts(s, x);
    HistoryEntries(s.recorded[..s.tasks[x].historyAt]);
    HistoryOrderly(s, x);
  }

  /** A message of the Welcome is on the rows of the running client exactly if its row still stands,
      whatever the client was sent or did since. */
  lemma PaneShowsHistory(s: State, x: Uuid, open: Opener, joined: nat, es: seq<Event>, i: nat)
    requires Reachable(s) && x in s.tasks && s.tasks[x].welcome.Some? && i < |s.tasks[x].welcome.value|
    ensures var w := s.tasks[x].welcome.value;
            var v := Seed(NewView(s.tasks[x].username, x), open, w, joined);
            On(RowsOf(v, open, w, joined, es), w[i]) <==> SeedStands(open, w, joined, es, Adds(v, open, es, |w|), i)
  {
    ReachableOk(s);
    HistoryFitsPane(s, x);
    HistoryRowExactly(s.tasks[x].username, x, open, s.tasks[x].welcome.value, joined, es, i);
  }

  /** Which event brought the message, and whether the client accepted it. */
  lemma AcceptedAt(s: State, x: Uuid, k: nat, n: nat, v: View, open: Opener, es: seq<Event>, p: nat, q: nat)
    requires Inv(s) && x in s.tasks && s.tasks[x].welcome.Some? && SeenExactly(v, s.tasks[x].welcome.value)
    requires n < k <= |s.tasks[x].enqueued| && s.tasks[x].enqueued[n].Message? && Frames(es) == s.tasks[x].enqueued[..k]
    requires p < |es| && es[p].Arrival? && |Frames(es[..p])| == n && q < |es|
    ensures Accepts(v, open, es, q, s.tasks[x].enqueued[n].msg) <==>
              q == p && Shows(s.tasks[x].welcome.value, s.tasks[x].enqueued[n].msg)
    ensures es[p].frame == s.tasks[x].enqueued[n]
  {
    var fs, w, m := s.tasks[x].enqueued, s.tasks[x].welcome.value, s.tasks[x].enqueued[n].msg;
    FrameAt(es, p);
    AcceptsShows(v, open, w, es, q, m);
    if q == p {
      assert Frames(es)[..n] == fs[..n];
      EnqueuedOrderly(s, x, n + 1);
      assert fs[..n + 1] == fs[..n] + [fs[n]];
      MessagesAppend(fs[..n], fs[n]);
      OrderlyTop(w, MessagesIn(fs[..n]), m);
    } else if es[q].Arrival? && es[q].frame == Message(m) {
      FrameAt(es, q);
      OutboxIncreasing(s, x);
      OncePerStream(fs, |Frames(es[..q])|, n);
      if p < q { FramesOrder(es, p, q); } else { FramesOrder(es, q, p); }
    }
  }

  /** A message of the stream on the rows of the running client that was brought it by event `p`,
      exactly, at any moment of the delivery and with any keys, ticks and resizes in between. If it
      passed the Welcome's counters, it is on the rows exactly if its row stands: no clear came after
      it, no later tick found it expired, and at no time have HISTORY_CAP younger rows stood. If not,
      it is there only if the Welcome's own copy is. And what is on the rows is on the screen. */
  lemma PaneShows(s: State, x: Uuid, k: nat, n: nat, open: Opener, joined: nat, es: seq<Event>, p: nat)
    requires Reachable(s) && x in s.tasks && s.tasks[x].welcome.Some?
    requires n < k <= |s.tasks[x].enqueued| && s.tasks[x].enqueued[n].Message? && Frames(es) == s.tasks[x].enqueued[..k]
    requires p < |es| && es[p].Arrival? && |Frames(es[..p])| == n
    ensures var w, m := s.tasks[x].welcome.value, s.tasks[x].enqueued[n].msg;
            var v := Seed(NewView(s.tasks[x].username, x), open, w, joined);
            var rows, adds := RowsOf(v, open, w, joined, es), Adds(v, open, es, |w|);
            && Displays(rows) == Live(v, open, es).messages
            && (Shows(w, m) ==> (On(rows, m) <==> ArrivalStands(open, es, adds, p, m)))
            && (!Shows(w, m) ==> (On(rows, m) <==> exists i :: 0 <= i < |w| && w[i] == m && SeedStands(open, w, joined, es, adds, i)))
            && (On(rows, m) ==> m in Screen(w, s.tasks[x].enqueued[..k]))
  {
    ReachableOk(s);
    HistoryFitsPane(s, x);
    var t := s.tasks[x];
    var w, m := t.welcome.value, t.enqueued[n].msg;
    var v := Seed(NewView(t.username, x), open, w, joined);
    SeedSees(NewView(t.username, x), open, w, joined);
    RowsShowScreen(t.username, x, open, w, joined, es, m);
    forall q | 0 <= q < |es| ensures Accepts(v, open, es, q, m) <==> q == p && Shows(w, m) {
      AcceptedAt(s, x, k, n, v, open, es, p, q);
    }
    if m in w { TopCounterBounds(w, m.ad.from); }
  }

  // ----- the server's history and the clients' screens -----

  /** A message in the history has one place in the log, and no wipe was logged after it. */
  lemma HistoryPlace(s: State, m: RoomMessage) returns (k: nat)
    requires Inv(s) && m in s.history
    ensures k < |s.recorded| && s.recorded[k] == Message(m) && !Displaced(s.recorded, k)
    ensures forall j | 0 <= j < |s.recorded| && s.recorded[j] == Message(m) :: j == k
    ensures forall j | 0 <= j < |s.recorded| && s.recorded[j].Cleared? :: j < k
  {
    HistoryEntries(s.recorded);
    var i :| 0 <= i < |s.history| && s.history[i] == m;
    k := |s.recorded| - |s.history| + i;
    InHistoryUnlessDisplaced(s.recorded, k);
    RecordedIncreasing(s);
  }

  /** A message still in the history was not gone when any connection looked. */
  lemma NotGone(s: State, m: RoomMessage, x: Uuid)
    requires Inv(s) && m in s.history && x in s.tasks && TookHistory(s.tasks[x])
    ensures !GoneBefore(s, m, s.tasks[x])
  {
    var k := HistoryPlace(s, m);
  }

  lemma SettledWasRecorded(s: State, a: Uuid, i: nat)
    requires Inv(s) && a in s.tasks && i < Settled(s.tasks[a]) && Durable(s.tasks[a].issued[i])
    ensures s.tasks[a].issued[i] in s.recorded
  {
    TaskFacts(s, a);
    var settled := s.tasks[a].issued[..Settled(s.tasks[a])];
    assert settled[i] == s.tasks[a].issued[i];
    DurableMembers(settled, s.tasks[a].issued[i]);
    FromMembers(s.recorded, a, s.tasks[a].issued[i]);
  }

  lemma RecordedIsSettled(s: State, a: Uuid, f: ServerFrame) returns (i: nat)
    requires Inv(s) && a in s.tasks && SentBy(f, a) && f in s.recorded
    ensures i < Settled(s.tasks[a]) && s.tasks[a].issued[i] == f
  {
    TaskFacts(s, a);
    var settled := s.tasks[a].issued[..Settled(s.tasks[a])];
    FromMembers(s.recorded, a, f);
    DurableMembers(settled, f);
    i :| 0 <= i < |settled| && settled[i] == f;
  }

  lemma EnqueuedIsAnnounced(s: State, f: ServerFrame, a: Uuid, x: Uuid) returns (i: nat)
    requires Inv(s) && x in s.tasks && a in s.tasks && f in s.tasks[x].enqueued && SentBy(f, a)
    ensures i < Announced(s.tasks[a]) && s.tasks[a].issued[i] == f
  {
    TaskFacts(s, x);
    PairFacts(s, a, x);
    var from := From(s.tasks[x].enqueued, a);
    FromMembers(s.tasks[x].enqueued, a, f);
    var k :| 0 <= k < |from| && from[k] == f;
    i := Base(a, s.tasks[x]) + k;
  }

  /** A durable frame in an outbox has been through the history. */
  lemma EnqueuedWasRecorded(s: State, f: ServerFrame, a: Uuid, x: Uuid)
    requires Inv(s) && x in s.tasks && a in s.tasks && f in s.tasks[x].enqueued && SentBy(f, a) && Durable(f)
    ensures f in s.recorded
  {
    var i := EnqueuedIsAnnounced(s, f, a, x);
    SettledWasRecorded(s, a, i);
  }

  /** Where the screen got the message: the Welcome counts as before all frames. A clear since then? */
  ghost predicate ClearedSince(w: seq<RoomMessage>, fs: seq<ServerFrame>, m: RoomMessage) {
    if m in w then exists p :: 0 <= p < |fs| && fs[p].Cleared?
    else exists n, p :: 0 <= n < p < |fs| && fs[n] == Message(m) && fs[p].Cleared?
  }

  /** How the screens differ from the history, at any moment of the delivery. A message of the
      history that a client has been given or sent is missing from its screen exactly when a clear
      stands after it in the client's stream. Every such clear wiped the history before the message
      came into it: only its announcement was late. */
  lemma MissingExactlyAfterClear(s: State, x: Uuid, k: nat, m: RoomMessage)
    requires Reachable(s) && x in s.tasks && s.tasks[x].welcome.Some? && k <= |s.tasks[x].enqueued| && m in s.history
    requires m in s.tasks[x].welcome.value || Message(m) in s.tasks[x].enqueued[..k]
    ensures var w, fs := s.tasks[x].welcome.value, s.tasks[x].enqueued[..k];
            m !in Screen(w, fs) <==> ClearedSince(w, fs, m)
  {
    ReachableOk(s);
    var t := s.tasks[x];
    var w, fs := t.welcome.value, t.enqueued[..k];
    EnqueuedOrderly(s, x, k);
    ScreenExactly(w, fs, m);
    if m in w {
      TopCounterBounds(w, m.ad.from);
    } else {
      var n :| 0 <= n < k && fs[n] == Message(m);
      assert t.enqueued[n] == Message(m);
      OutboxIncreasing(s, x);
      forall i | 0 <= i < k && fs[i] == Message(m) ensures i == n {
        assert t.enqueued[i] == Message(m);
        OncePerStream(t.enqueued, i, n);
      }
      if !Shows(w, m) {
        OutdoneIsGone(s, x, m);
        HistoryMember(s, m);
        NotGone(s, m, x);
      }
    }
  }

  /** Every clear a client has been sent wiped the history before any message now in it was pushed. */
  lemma ClearsCameBefore(s: State, x: Uuid, m: RoomMessage) returns (k: nat)
    requires Reachable(s) && x in s.tasks && m in s.history
    ensures k < |s.recorded| && s.recorded[k] == Message(m)
    ensures forall j | 0 <= j < |s.recorded| && s.recorded[j].Cleared? :: j < k
    ensures forall p | 0 <= p < |s.tasks[x].enqueued| && s.tasks[x].enqueued[p].Cleared? ::
              s.tasks[x].enqueued[p] in s.recorded[..k]
  {
    ReachableOk(s);
    k := HistoryPlace(s, m);
    var fs := s.tasks[x].enqueued;
    assert SendersKnown(fs, s.tasks) by { assert AllKnown(s.tasks); }
    forall p | 0 <= p < |fs| && fs[p].Cleared? ensures fs[p] in s.recorded[..k] {
      assert KnownFrame(fs[p], s.tasks);
      EnqueuedWasRecorded(s, fs[p], fs[p].author, x);
      var j :| 0 <= j < |s.recorded| && s.recorded[j] == fs[p];
      assert s.recorded[..k][j] == fs[p];
    }
  }

  /** Its sender is about to announce the message, or is sending it out and has yet to try `x`. */
  ghost predicate OnItsWay(s: State, m: RoomMessage, x: Uuid) {
    m.from in s.tasks &&
    var pc := s.tasks[m.from].pc;
    pc == Announcing(Message(m)) || (pc.Sending? && pc.decided == Message(m) && x in pc.todo)
  }

  /** Its sender is sending the message out, and `x` has refused it: `Evict` will disconnect `x`. */
  ghost predicate TurnedAway(s: State, m: RoomMessage, x: Uuid) {
    m.from in s.tasks &&
    var pc := s.tasks[m.from].pc;
    pc.Sending? && pc.decided == Message(m) && x in pc.dead
  }

  /** Every message of the history was given to a connected client, or sent to it, or is on its way, or
      the client has just refused it and is about to be disconnected. */
  lemma HistoryReaches(s: State, x: Uuid, m: RoomMessage)
    requires Reachable(s) && x in s.conns && x in s.tasks && TookHistory(s.tasks[x]) && m in s.history
    ensures m in HistoryTaken(s.tasks[x]) || Message(m) in s.tasks[x].enqueued || OnItsWay(s, m, x) || TurnedAway(s, m, x)
  {
    ReachableOk(s);
    HistoryMember(s, m);
    var k := HistoryPlace(s, m);
    var a := m.from;
    assert s.recorded[k] == Message(m);
    var i := RecordedIsSettled(s, a, Message(m));
    TaskFacts(s, a);
    if i < Announced(s.tasks[a]) {
      JoinMissesNothing(s, a, i, x);
      NotGone(s, m, x);
    }
  }
}
