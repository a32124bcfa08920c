/** Who gets a message or a clear through, stated against the full logs. */
module RoomRules {
  import opened Proto
  import opened Stores
  import opened SlidingWindow
  import opened RoomMachine
  import opened RoomLogs
  import opened RoomInvariant
  import opened RoomSteps

  /** No session gets more than MSG_RATE_MAX messages through in any MSG_RATE_WINDOW, over any run
      that mixes messages, clears and refusals. The log has one entry for each message issued. */
  lemma MessageRateHolds(s: State, a: Uuid, lo: int)
    requires Reachable(s) && a in s.tasks
    ensures Count(s.tasks[a].quotaLog, lo, lo + MSG_RATE_WINDOW) <= MSG_RATE_MAX
    ensures |s.tasks[a].quotaLog| == MessageCount(s.tasks[a].issued)
  {
    ReachableOk(s);
    TaskFacts(s, a);
    SpacedBoundsEveryWindow(s.tasks[a].quotaLog, s.now, MSG_RATE_WINDOW, MSG_RATE_MAX, lo);
  }

  /** Accepted clears of one session lie at least the cooldown apart. */
  lemma ClearsApart(s: State, a: Uuid, i: nat, j: nat)
    requires Reachable(s) && a in s.tasks && i < j < |s.tasks[a].clearLog|
    ensures s.tasks[a].clearLog[j] - s.tasks[a].clearLog[i] >= CLEAR_COOLDOWN
    decreases j
  {
    ReachableOk(s);
    TaskFacts(s, a);
    if i < j - 1 { ClearsApart(s, a, i, j - 1); }
  }

  /** The highest counter among the messages. */
  function Highest(fs: seq<ServerFrame>): u64 {
    if fs == [] then 0
    else
      var top := Highest(fs[..|fs| - 1]);
      var f := fs[|fs| - 1];
      if f.Message? && f.msg.ad.counter > top then f.msg.ad.counter else top
  }

  lemma {:induction false} HighestIs(fs: seq<ServerFrame>)
    ensures forall i | 0 <= i < |fs| && fs[i].Message? :: fs[i].msg.ad.counter <= Highest(fs)
    ensures Highest(fs) > 0 ==> exists i :: 0 <= i < |fs| && fs[i].Message? && fs[i].msg.ad.counter == Highest(fs)
  {
    if fs != [] {
      var n := |fs| - 1;
      HighestIs(fs[..n]);
      assert forall i | 0 <= i < n :: fs[..n][i] == fs[i];
      if Highest(fs[..n]) > 0 {
        var i :| 0 <= i < n && fs[..n][i].Message? && fs[..n][i].msg.ad.counter == Highest(fs[..n]);
        assert fs[i].Message? && fs[i].msg.ad.counter == Highest(fs[..n]);
      }
    }
  }

  /** Until it leaves, a task's session remembers exactly the highest counter it let through. */
  predicate Remembers(t: Task, ss: Session) {
    Joining(t.pc) || Active(t.pc) ==> ss.lastCounter == Highest(t.issued)
  }

  ghost predicate AllRemember(s: State) {
    && (forall x | x in s.tasks && x in s.sessions :: Remembers(s.tasks[x], s.sessions[x]))
    && (forall x | x in s.tasks && Joining(s.tasks[x].pc) :: s.tasks[x].issued == [])
  }

  lemma HighestAppend(fs: seq<ServerFrame>, f: ServerFrame)
    ensures Highest(fs + [f]) == if f.Message? && f.msg.ad.counter > Highest(fs) then f.msg.ad.counter else Highest(fs)
  {
    assert (fs + [f])[..|fs|] == fs;
  }

  /** One task moves on; what it has issued and what its session remembers stay. */
  lemma MoveRemembered(s: State, s': State, id: Uuid)
    requires AllRemember(s) && id in s.tasks && id in s'.tasks && s'.tasks == s.tasks[id := s'.tasks[id]]
    requires s'.tasks[id].issued == s.tasks[id].issued
    requires Joining(s'.tasks[id].pc) ==> Joining(s.tasks[id].pc)
    requires Active(s'.tasks[id].pc) ==> Joining(s.tasks[id].pc) || Active(s.tasks[id].pc)
    requires forall x {:trigger s'.sessions[x]} | x in s'.sessions ::
               x in s.sessions && s'.sessions[x].lastCounter == s.sessions[x].lastCounter
    ensures AllRemember(s')
  {
  }

  predicate Serving(step: Step) {
    step.Touch? || step.Receive? || step.Deliver? || step.Hangup? || step.Record? || step.SnapshotConns? || step.Evict?
  }

  predicate ComingOrGoing(step: Step) {
    step.Connect? || step.TakeHistory? || step.SendWelcome? || step.Leave? || step.Unlink? || step.Return?
  }

  lemma ServingRemembered(s: State, step: Step)
    requires AllRemember(s) && Enabled(s, step) && Serving(step)
    ensures AllRemember(Apply(s, step))
  {
    MoveRemembered(s, Apply(s, step), step.id);
  }

  lemma ComingRemembered(s: State, step: Step)
    requires AllRemember(s) && Enabled(s, step) && ComingOrGoing(step)
    ensures AllRemember(Apply(s, step))
  {
    MoveRemembered(s, Apply(s, step), step.id);
  }

  lemma SharedRemembered(s: State, step: Step)
    requires AllRemember(s) && Enabled(s, step)
    requires step.Register? || step.TrySend? || step.ListStale? || step.StartSweep? || step.Sweep?
    ensures AllRemember(Apply(s, step))
  {
    var s' := Apply(s, step);
    forall x | x in s'.tasks && x in s'.sessions ensures Remembers(s'.tasks[x], s'.sessions[x]) {
      if x in s.tasks && x in s.sessions { assert Remembers(s.tasks[x], s.sessions[x]); }
    }
  }

  lemma RememberedKept(s: State, step: Step)
    requires AllRemember(s) && Enabled(s, step)
    ensures AllRemember(Apply(s, step))
  {
    if step.AdmitMessage? {
      MessageRemembered(s, step.id, step.at);
    } else if step.AdmitClear? {
      ClearRemembered(s, step.id, step.at);
    } else if Serving(step) {
      ServingRemembered(s, step);
    } else if ComingOrGoing(step) {
      ComingRemembered(s, step);
    } else {
      SharedRemembered(s, step);
    }
  }

  lemma UpdateRemembered(s: State, s': State, id: Uuid)
    requires AllRemember(s) && id in s.tasks && id in s'.tasks && s'.tasks == s.tasks[id := s'.tasks[id]]
    requires !Joining(s'.tasks[id].pc) && (id in s'.sessions ==> Remembers(s'.tasks[id], s'.sessions[id]))
    requires forall x {:trigger s'.sessions[x]} | x in s'.sessions && x != id ::
               x in s.sessions && s'.sessions[x] == s.sessions[x]
    ensures AllRemember(s')
  {
  }

  lemma MessageRemembered(s: State, id: Uuid, at: nat)
    requires AllRemember(s) && Enabled(s, AdmitMessage(id, at))
    ensures AllRemember(MessageAdmitted(s, id, at))
  {
    MessageAdmittedCases(s, id, at);
    var t, s' := s.tasks[id], MessageAdmitted(s, id, at);
    HighestAppend(t.issued, Message(RoomMessage(id, t.username, t.pc.ad, t.pc.ciphertext)));
    UpdateRemembered(s, s', id);
  }

  lemma ClearRemembered(s: State, id: Uuid, at: nat)
    requires AllRemember(s) && Enabled(s, AdmitClear(id, at))
    ensures AllRemember(ClearAdmitted(s, id, at))
  {
    var t, s' := s.tasks[id], ClearAdmitted(s, id, at);
    HighestAppend(t.issued, Cleared(id, t.username));
    if ConsumeClear(s.sessions, id, at).1 {
      assert Remembers(s.tasks[id], s.sessions[id]);
      assert Remembers(s'.tasks[id], s'.sessions[id]);
    } else {
      MoveRemembered(s, s', id);
    }
  }

  lemma {:induction false} RememberedAlways(steps: seq<Step>)
    requires After(steps).Some?
    ensures AllRemember(After(steps).value)
  {
    if steps != [] {
      RememberedAlways(steps[..|steps| - 1]);
      RememberedKept(After(steps[..|steps| - 1]).value, steps[|steps| - 1]);
    }
  }

  /** A message is admitted exactly when its session still exists, its counter is positive and above
      that of every message the session got through, and the full log has room in the window that
      ends now. */
  lemma AdmissionRule(s: State, id: Uuid, at: nat)
    requires Reachable(s) && Enabled(s, AdmitMessage(id, at))
    ensures var t := s.tasks[id];
            |MessageAdmitted(s, id, at).tasks[id].issued| == |t.issued| + 1 <==>
              && id in s.sessions
              && t.pc.ad.counter > 0
              && (forall i | 0 <= i < |t.issued| && t.issued[i].Message? :: t.pc.ad.counter > t.issued[i].msg.ad.counter)
              && Count(t.quotaLog, at - MSG_RATE_WINDOW, at) < MSG_RATE_MAX
  {
    MessageAdmittedCases(s, id, at);
    if id in s.sessions {
      CounterRule(s, id);
      WindowRule(s, id, at);
    }
  }

  lemma CounterRule(s: State, id: Uuid)
    requires Reachable(s) && id in s.tasks && id in s.sessions && s.tasks[id].pc.Admitting?
    ensures var t := s.tasks[id];
            t.pc.ad.counter > s.sessions[id].lastCounter <==>
              && t.pc.ad.counter > 0
              && forall i | 0 <= i < |t.issued| && t.issued[i].Message? :: t.pc.ad.counter > t.issued[i].msg.ad.counter
  {
    HighestIs(s.tasks[id].issued);
    var steps :| After(steps) == Some(s);
    RememberedAlways(steps);
    assert Remembers(s.tasks[id], s.sessions[id]);
  }

  lemma WindowRule(s: State, id: Uuid, at: nat)
    requires Reachable(s) && id in s.tasks && id in s.sessions && s.now <= at
    ensures Admit(s.sessions[id].messageWindow, at, MSG_RATE_WINDOW, MSG_RATE_MAX).1
       <==> Count(s.tasks[id].quotaLog, at - MSG_RATE_WINDOW, at) < MSG_RATE_MAX
  {
    ReachableOk(s);
    TaskFacts(s, id);
    AdmitRefines(s.sessions[id].messageWindow, s.tasks[id].quotaLog, s.now, at, MSG_RATE_WINDOW, MSG_RATE_MAX);
  }

  /** A clear is admitted exactly when the session exists and its last accepted clear, if any, is at
      least the cooldown ago. */
  lemma ClearRule(s: State, id: Uuid, at: nat)
    requires Reachable(s) && Enabled(s, AdmitClear(id, at))
    ensures var t := s.tasks[id];
            |ClearAdmitted(s, id, at).tasks[id].issued| == |t.issued| + 1 <==>
              && id in s.sessions
              && (t.clearLog != [] ==> at - t.clearLog[|t.clearLog| - 1] >= CLEAR_COOLDOWN)
  {
    ReachableOk(s);
    TaskFacts(s, id);
  }

  // ----- what a frame does to the room, field by field -----

  /** Another task's part of the room, and all that is shared but the sessions. */
  ghost predicate OthersUntouched(s: State, s': State, id: Uuid) {
    && s'.tasks.Keys == s.tasks.Keys
    && (forall x | x in s.tasks && x != id :: s'.tasks[x] == s.tasks[x])
    && s'.sessions.Keys == s.sessions.Keys
    && (forall x | x in s.sessions && x != id :: s'.sessions[x] == s.sessions[x])
    && s'.history == s.history && s'.recorded == s.recorded && s'.conns == s.conns
    && s'.sessionsLock == s.sessionsLock && s'.sweeper == s.sweeper
  }

  /** May the session clear? Its last accepted clear, if any, is at least the cooldown ago. */
  ghost predicate MayClear(s: State, id: Uuid, at: nat)
    requires id in s.tasks
  {
    var log := s.tasks[id].clearLog;
    id in s.sessions && (log == [] || at - log[|log| - 1] >= CLEAR_COOLDOWN)
  }

  /** A clear, in full: it is let through exactly if the session may clear, and then only the time of
      its last clear is noted. Otherwise the connection ends and nothing else changes. */
  lemma ClearOutcome(s: State, id: Uuid, at: nat)
    requires Reachable(s) && Enabled(s, AdmitClear(id, at))
    ensures var t, s' := s.tasks[id], Apply(s, AdmitClear(id, at));
            && OthersUntouched(s, s', id) && s'.now == at
            && (MayClear(s, id, at) ==>
                  && s'.tasks[id] == t.(pc := Recording(Cleared(id, t.username)), issued := t.issued + [Cleared(id, t.username)],
                                        clearLog := t.clearLog + [at])
                  && s'.sessions[id] == s.sessions[id].(lastClear := Some(at)))
            && (!MayClear(s, id, at) ==> s'.tasks[id] == t.(pc := Leaving) && s'.sessions == s.sessions)
  {
    ReachableOk(s);
    TaskFacts(s, id);
  }

  /** May the session send this message? Its counter is above that of every message it got through,
      and fewer than the maximum went through in the window that ends now. */
  ghost predicate NewCounter(s: State, id: Uuid)
    requires id in s.tasks && s.tasks[id].pc.Admitting?
  {
    var t := s.tasks[id];
    && id in s.sessions && t.pc.ad.counter > 0
    && forall i | 0 <= i < |t.issued| && t.issued[i].Message? :: t.pc.ad.counter > t.issued[i].msg.ad.counter
  }

  ghost predicate HasQuota(t: Task, at: nat) {
    Count(t.quotaLog, at - MSG_RATE_WINDOW, at) < MSG_RATE_MAX
  }

  /** A message, in full. Let through, it goes out under the session's own identity with the metadata
      and ciphertext it came with, by way of the history unless it is ephemeral. A stale counter
      changes nothing; a new one is remembered even if the quota then refuses the message. Refused
      either way, the connection ends. */
  lemma MessageOutcome(s: State, id: Uuid, at: nat)
    requires Reachable(s) && Enabled(s, AdmitMessage(id, at))
    ensures var t, s' := s.tasks[id], Apply(s, AdmitMessage(id, at));
            && OthersUntouched(s, s', id) && s'.now == at
            && (NewCounter(s, id) && HasQuota(t, at) ==>
                  var f := Message(RoomMessage(id, t.username, t.pc.ad, t.pc.ciphertext));
                  s'.tasks[id] == t.(pc := if t.pc.ad.ephemeral then Announcing(f) else Recording(f),
                                     issued := t.issued + [f], quotaLog := t.quotaLog + [at]))
            && (!(NewCounter(s, id) && HasQuota(t, at)) ==> s'.tasks[id] == t.(pc := Leaving))
            && (!NewCounter(s, id) ==> s'.sessions == s.sessions)
            && (NewCounter(s, id) ==>
                  var window := s'.sessions[id].messageWindow;
                  && s'.sessions[id] == s.sessions[id].(lastCounter := t.pc.ad.counter, messageWindow := window)
                  && |window| == Count(t.quotaLog, at - MSG_RATE_WINDOW, at) + (if HasQuota(t, at) then 1 else 0)
                  && Tracks(window, s'.tasks[id].quotaLog, at, MSG_RATE_WINDOW))
  {
    MessageTouchesOne(s, id, at);
    MessageAdmittedCases(s, id, at);
    if id in s.sessions {
      CounterRule(s, id);
      QuotaOutcome(s, id, at);
    }
  }

  lemma MessageTouchesOne(s: State, id: Uuid, at: nat)
    requires Enabled(s, AdmitMessage(id, at))
    ensures OthersUntouched(s, MessageAdmitted(s, id, at), id) && MessageAdmitted(s, id, at).now == at
  {
    MessageAdmittedCases(s, id, at);
  }

  lemma QuotaOutcome(s: State, id: Uuid, at: nat)
    requires Reachable(s) && id in s.tasks && id in s.sessions && s.now <= at
    ensures var (window, ok) := Admit(s.sessions[id].messageWindow, at, MSG_RATE_WINDOW, MSG_RATE_MAX);
            var log := s.tasks[id].quotaLog;
            && (ok <==> HasQuota(s.tasks[id], at))
            && |window| == Count(log, at - MSG_RATE_WINDOW, at) + (if ok then 1 else 0)
            && Tracks(window, if ok then log + [at] else log, at, MSG_RATE_WINDOW)
  {
    ReachableOk(s);
    TaskFacts(s, id);
    AdmitRefines(s.sessions[id].messageWindow, s.tasks[id].quotaLog, s.now, at, MSG_RATE_WINDOW, MSG_RATE_MAX);
    PrunedCount(s.sessions[id].messageWindow, s.tasks[id].quotaLog, s.now, at, MSG_RATE_WINDOW);
  }

  /** The first thing done with any frame: its session, if there is one, counts as heard from now. Then
      a clear goes on to ask, a message goes on if it bears the session's identity and fits, and
      anything else ends the connection. */
  lemma TouchOutcome(s: State, id: Uuid, at: nat)
    requires Enabled(s, Touch(id, at))
    ensures var t, s' := s.tasks[id], Apply(s, Touch(id, at));
            var pc := s'.tasks[id].pc;
            && OthersUntouched(s, s', id) && s'.now == at && s'.tasks[id] == t.(pc := pc)
            && (id in s.sessions ==> s'.sessions[id] == s.sessions[id].(lastActive := at))
            && match t.pc.incoming
               case RoomSelect(_) => pc == Leaving
               case ClientHello(_) => pc == Leaving
               case Clear => pc == AskingClear
               case ClientMessage(ad, ciphertext) =>
                 if ad.from == id && ad.username == t.username && |ciphertext| <= MAX_CIPHERTEXT_LEN
                 then pc == Admitting(ad, ciphertext) else pc == Leaving
  {
  }

  /** One offer of a frame, in full: it is taken exactly if the receiving end is there and fewer than
      OUTBOX_DEPTH frames wait, and then it waits last; else the receiver is marked. */
  lemma OfferOutcome(s: State, id: Uuid, to: Uuid)
    requires Enabled(s, TrySend(id, to))
    ensures var t, tx, s' := s.tasks[id], s.tasks[to], Apply(s, TrySend(id, to));
            var taken := tx.pc != Closed && |tx.enqueued| - tx.taken < OUTBOX_DEPTH;
            && s' == s.(tasks := s'.tasks) && s'.tasks.Keys == s.tasks.Keys
            && forall x | x in s.tasks ::
                 s'.tasks[x] == s.tasks[x].(
                   enqueued := if x == to && taken then tx.enqueued + [t.pc.decided] else s.tasks[x].enqueued,
                   pc := if x == id then Sending(t.pc.decided, t.pc.todo - {to}, if taken then t.pc.dead else t.pc.dead + {to})
                         else s.tasks[x].pc)
  {
  }

  // ----- names -----

  /** A session bears its task's name, and that is the name the connection registered with. */
  ghost predicate Named(s: State, steps: seq<Step>) {
    && (forall x | x in s.sessions && x in s.tasks :: s.sessions[x].username == s.tasks[x].username)
    && (forall x | x in s.tasks :: exists i :: 0 <= i < |steps| && steps[i].Register? && steps[i].id == x
                                               && steps[i].username == s.tasks[x].username)
  }

  ghost predicate NamesKept(s: State, s': State, step: Step) {
    && (forall x | x in s'.tasks :: if x in s.tasks then s'.tasks[x].username == s.tasks[x].username
                                    else step.Register? && step.id == x && step.username == s'.tasks[x].username)
    && (forall x | x in s'.sessions && x in s'.tasks ::
          if x in s.sessions && x in s.tasks then s'.sessions[x].username == s.sessions[x].username
          else s'.sessions[x].username == s'.tasks[x].username)
  }

  lemma NamesSessionStep(s: State, step: Step)
    requires Enabled(s, step)
    requires step.Register? || step.Touch? || step.AdmitMessage? || step.AdmitClear? || step.Leave? || step.Sweep?
    ensures NamesKept(s, Apply(s, step), step)
  {
    if step.AdmitMessage? { MessageAdmittedCases(s, step.id, step.at); }
  }

  lemma NamesStep(s: State, step: Step)
    requires Enabled(s, step)
    ensures NamesKept(s, Apply(s, step), step)
  {
    if step.Register? || step.Touch? || step.AdmitMessage? || step.AdmitClear? || step.Leave? || step.Sweep? {
      NamesSessionStep(s, step);
    } else {
      assert Apply(s, step).sessions == s.sessions;
    }
  }

  lemma {:induction false} NamedAlways(steps: seq<Step>)
    requires After(steps).Some?
    ensures Named(After(steps).value, steps)
  {
    if steps != [] {
      var n := |steps| - 1;
      var s, s' := After(steps[..n]).value, After(steps).value;
      NamedAlways(steps[..n]);
      NamesStep(s, steps[n]);
      forall x | x in s'.tasks
        ensures exists i :: 0 <= i < |steps| && steps[i].Register? && steps[i].id == x && steps[i].username == s'.tasks[x].username
      {
        if x in s.tasks {
          var i :| 0 <= i < n && steps[..n][i].Register? && steps[..n][i].id == x && steps[..n][i].username == s.tasks[x].username;
          assert steps[i] == steps[..n][i];
        }
      }
    }
  }

  // ----- the end of a connection -----

  /** The connection is being served no more. */
  ghost predicate Over(pc: Pc) { pc.Leaving? || pc.Unlinking? || pc.Returning? || pc.Closed? }

  /** What ends a connection's service: a Welcome or a frame that cannot be sent, the end of its stream,
      a frame that may not come or bears another's identity or is too long, a message or clear refused. */
  ghost predicate Ends(s: State, step: Step, id: Uuid)
    requires id in s.tasks && Enabled(s, step)
  {
    match step
    case SendWelcome(x, ok) => x == id && !ok
    case Deliver(x, ok) => x == id && !ok
    case Hangup(x) => x == id
    case Touch(x, _) =>
      var t := s.tasks[id];
      x == id && (match t.pc.incoming
                  case Clear => false
                  case ClientMessage(ad, ciphertext) =>
                    ad.from != id || ad.username != t.username || |ciphertext| > MAX_CIPHERTEXT_LEN
                  case _ => true)
    case AdmitMessage(x, at) => x == id && !(NewCounter(s, id) && HasQuota(s.tasks[id], at))
    case AdmitClear(x, at) => x == id && !MayClear(s, id, at)
    case _ => false
  }

  ghost predicate Quits(s: State, step: Step, id: Uuid)
    requires id in s.tasks && Enabled(s, step)
  {
    !Over(s.tasks[id].pc) && id in Apply(s, step).tasks && Over(Apply(s, step).tasks[id].pc)
  }

  lemma MessageEnds(s: State, x: Uuid, at: nat, id: Uuid)
    requires Reachable(s) && id in s.tasks && Enabled(s, AdmitMessage(x, at))
    ensures Quits(s, AdmitMessage(x, at), id) <==> Ends(s, AdmitMessage(x, at), id)
  {
    MessageOutcome(s, x, at);
  }

  lemma ClearEnds(s: State, x: Uuid, at: nat, id: Uuid)
    requires Reachable(s) && id in s.tasks && Enabled(s, AdmitClear(x, at))
    ensures Quits(s, AdmitClear(x, at), id) <==> Ends(s, AdmitClear(x, at), id)
  {
    ClearOutcome(s, x, at);
  }

  lemma OtherEnds(s: State, step: Step, id: Uuid)
    requires id in s.tasks && Enabled(s, step) && !step.AdmitMessage? && !step.AdmitClear?
    ensures Quits(s, step, id) <==> Ends(s, step, id)
  {
  }

  lemma ServiceEndsExactly(s: State, step: Step, id: Uuid)
    requires Reachable(s) && id in s.tasks && Enabled(s, step)
    ensures Quits(s, step, id) <==> Ends(s, step, id)
  {
    match step
    case AdmitMessage(x, at) => MessageEnds(s, x, at, id);
    case AdmitClear(x, at) => ClearEnds(s, x, at, id);
    case _ => OtherEnds(s, step, id);
  }

  /** Nothing more comes of a task whose service is over. */
  ghost predicate Final(t: Task, t': Task) {
    Over(t'.pc) && t'.delivered == t.delivered && t'.issued == t.issued && t'.welcome == t.welcome
  }

  lemma OverStays(s: State, step: Step, id: Uuid)
    requires Enabled(s, step) && id in s.tasks && Over(s.tasks[id].pc)
    ensures id in Apply(s, step).tasks && Final(s.tasks[id], Apply(s, step).tasks[id])
  {
    if step.AdmitMessage? { MessageTouchesOne(s, step.id, step.at); }
  }

  /** Whatever the schedule, a connection whose service is over is served no more: its client gets no
      further frame, and nothing further is broadcast for it. */
  lemma {:induction false} OverForGood(steps: seq<Step>, n: nat, id: Uuid)
    requires n <= |steps| && After(steps).Some? && After(steps[..n]).Some?
    requires id in After(steps[..n]).value.tasks && Over(After(steps[..n]).value.tasks[id].pc)
    ensures id in After(steps).value.tasks
    ensures Final(After(steps[..n]).value.tasks[id], After(steps).value.tasks[id])
  {
    if n == |steps| {
      assert steps[..n] == steps;
    } else {
      var before := steps[..|steps| - 1];
      assert before[..n] == steps[..n];
      OverForGood(before, n, id);
      OverStays(After(before).value, steps[|before|], id);
    }
  }
}
