/** What holds of a room in every state that any schedule of any number of tasks can reach. */
module RoomTheorems {
  import opened Proto
  import opened Stores
  import opened Postcard
  import opened WelcomeBound
  import opened RoomMachine
  import opened RoomLogs
  import opened RoomInvariant
  import opened RoomSteps

  lemma PairFacts(s: State, a: Uuid, x: Uuid)
    requires Inv(s) && a in s.tasks && x in s.tasks
    ensures PairOk(a, s.tasks[a], x, s.tasks[x], s.conns) && JoinOk(a, s.tasks[a], s.tasks[x], s.recorded)
  {
    assert AllPairs(s.tasks, s.conns) && AllJoins(s.tasks, s.recorded);
  }

  // ----- delivery -----

  /** Per-sender FIFO without gaps. What came from `a` into `x`'s outbox is a contiguous, in-order,
      duplicate-free stretch of what `a` broadcast. It starts with the first broadcast after `x` was
      registered; as long as `x` is connected and `a` is not in the middle of a broadcast, it goes on
      to the last one. */
  lemma FifoWithoutGaps(s: State, a: Uuid, x: Uuid)
    requires Reachable(s) && a in s.tasks && x in s.tasks && !s.tasks[x].pc.Registering?
    ensures var ta, tx := s.tasks[a], s.tasks[x];
            && Base(a, tx) <= Reached(a, tx) <= Announced(ta)
            && From(tx.enqueued, a) == ta.issued[Base(a, tx)..Reached(a, tx)]
            && (x in s.conns && !ta.pc.Sending? ==> Reached(a, tx) == Announced(ta))
            && (x in s.conns && ta.pc.Sending? ==> Reached(a, tx) >= Announced(ta) - 1)
  {
    ReachableOk(s);
    PairFacts(s, a, x);
  }

  lemma IssuedIncreasing(s: State, a: Uuid, i: nat, j: nat)
    requires Inv(s) && a in s.tasks && i <= j <= |s.tasks[a].issued|
    ensures Increasing(s.tasks[a].issued[i..j])
  {
    TaskFacts(s, a);
    var issued := s.tasks[a].issued;
    assert forall k | 0 <= k < j - i :: issued[i..j][k] == issued[i + k];
  }

  lemma OutboxIncreasing(s: State, x: Uuid)
    requires Inv(s) && x in s.tasks
    ensures IncreasingPerSender(s.tasks[x].enqueued)
  {
    var fs := s.tasks[x].enqueued;
    forall a ensures Increasing(From(fs, a)) {
      if a !in s.tasks {
        assert SendersKnown(fs, s.tasks) by { assert AllKnown(s.tasks); }
        FromUnknown(fs, s.tasks, a);
      } else {
        PairFacts(s, a, x);
        TaskFacts(s, x);
        if !s.tasks[x].pc.Registering? {
          IssuedIncreasing(s, a, Base(a, s.tasks[x]), Reached(a, s.tasks[x]));
        }
      }
    }
    FromIncreasing(fs);
  }

  lemma RecordedIncreasing(s: State)
    requires Inv(s)
    ensures IncreasingPerSender(s.recorded)
  {
    forall a ensures Increasing(From(s.recorded, a)) {
      if a !in s.tasks {
        FromUnknown(s.recorded, s.tasks, a);
      } else {
        TaskFacts(s, a);
        IssuedIncreasing(s, a, 0, Settled(s.tasks[a]));
        assert s.tasks[a].issued[0..Settled(s.tasks[a])] == s.tasks[a].issued[..Settled(s.tasks[a])];
        DurableIncreasing(s.tasks[a].issued[..Settled(s.tasks[a])]);
      }
    }
    FromIncreasing(s.recorded);
  }

  /** Strictly increasing counters of each sender along a history. */
  ghost predicate HistoryIncreasing(history: seq<RoomMessage>) {
    forall i, j | 0 <= i < j < |history| && history[i].from == history[j].from ::
      history[i].ad.counter < history[j].ad.counter
  }

  lemma ReplayIncreasing(log: seq<ServerFrame>)
    requires IncreasingPerSender(log)
    ensures HistoryIncreasing(Replay(log))
  {
    HistoryEntries(log);
    var start := |log| - |Replay(log)|;
    forall i, j | 0 <= i < j < |Replay(log)| && Replay(log)[i].from == Replay(log)[j].from
      ensures Replay(log)[i].ad.counter < Replay(log)[j].ad.counter
    {
      assert log[start + i] == Message(Replay(log)[i]) && log[start + j] == Message(Replay(log)[j]);
    }
  }

  /** Although a message's counter is accepted, its history push and its sends happen in different
      lock sections, counters strictly increase per sender in the history and in every outbox. */
  lemma CountersIncreaseEverywhere(s: State)
    requires Reachable(s)
    ensures HistoryIncreasing(s.history)
    ensures forall x | x in s.tasks :: IncreasingPerSender(s.tasks[x].enqueued)
  {
    ReachableOk(s);
    RecordedIncreasing(s);
    ReplayIncreasing(s.recorded);
    forall x | x in s.tasks ensures IncreasingPerSender(s.tasks[x].enqueued) { OutboxIncreasing(s, x); }
  }

  /** Whatever is in the history or an outbox was issued by its sender. */
  lemma LoggedWasIssued(s: State, f: ServerFrame, a: Uuid)
    requires Inv(s) && a in s.tasks && SentBy(f, a) && f in s.recorded
    ensures f in s.tasks[a].issued
  {
    TaskFacts(s, a);
    FromMembers(s.recorded, a, f);
    DurableMembers(s.tasks[a].issued[..Settled(s.tasks[a])], f);
  }

  lemma EnqueuedWasIssued(s: State, f: ServerFrame, a: Uuid, x: Uuid)
    requires Inv(s) && a in s.tasks && x in s.tasks && SentBy(f, a) && f in s.tasks[x].enqueued
    ensures f in s.tasks[a].issued
  {
    TaskFacts(s, x);
    PairFacts(s, a, x);
    FromMembers(s.tasks[x].enqueued, a, f);
  }

  lemma IssuedBehindSession(s: State, m: RoomMessage, a: Uuid)
    requires Inv(s) && a in s.tasks && a in s.sessions && Message(m) in s.tasks[a].issued
    ensures m.ad.counter <= s.sessions[a].lastCounter
  {
    TaskFacts(s, a);
  }

  /** No counter in the history or an outbox is ahead of its sender's session. */
  lemma CountersBehindSession(s: State, m: RoomMessage, x: Uuid)
    requires Reachable(s) && m.from in s.sessions
    requires m in s.history || (x in s.tasks && Message(m) in s.tasks[x].enqueued)
    ensures m.ad.counter <= s.sessions[m.from].lastCounter
  {
    ReachableOk(s);
    assert m.from in s.tasks;
    if m in s.history {
      HistoryMember(s, m);
    } else {
      EnqueuedWasIssued(s, Message(m), m.from, x);
    }
    IssuedBehindSession(s, m, m.from);
  }

  // ----- joining -----

  /** Has this connection looked at the history yet? */
  predicate TookHistory(t: Task) { t.pc.Welcoming? || t.welcome.Some? }

  function HistoryTaken(t: Task): seq<RoomMessage>
    requires TookHistory(t)
  {
    if t.pc.Welcoming? then t.pc.history else t.welcome.value
  }

  /** The message had entered the history when `x` looked, and had been wiped or pushed out again. */
  ghost predicate GoneBefore(s: State, m: RoomMessage, t: Task) {
    t.historyAt <= |s.recorded| &&
    exists k :: 0 <= k < t.historyAt && s.recorded[k] == Message(m) && Displaced(s.recorded[..t.historyAt], k)
  }

  lemma JoinSawOrGone(s: State, a: Uuid, k: nat, x: Uuid)
    requires Inv(s) && a in s.tasks && x in s.tasks && TookHistory(s.tasks[x])
    requires k < Base(a, s.tasks[x]) && k < |s.tasks[a].issued|
    requires Durable(s.tasks[a].issued[k]) && s.tasks[a].issued[k].Message?
    ensures s.tasks[a].issued[k].msg in HistoryTaken(s.tasks[x]) || GoneBefore(s, s.tasks[a].issued[k].msg, s.tasks[x])
  {
    var tx, issued := s.tasks[x], s.tasks[a].issued;
    var f := issued[k];
    TaskFacts(s, x);
    PairFacts(s, a, x);
    var b := Base(a, tx);
    DurableMembers(issued[..b], f);
    assert issued[..b][k] == f;
    var early := s.recorded[..tx.registeredAt];
    FromMembers(early, a, f);
    var p :| 0 <= p < |early| && early[p] == f;
    var log := s.recorded[..tx.historyAt];
    assert log[p] == f && s.recorded[p] == f;
    InHistoryUnlessDisplaced(log, p);
  }

  /** The broadcast of the sender's latest frame has yet to try `x`. */
  ghost predicate StillToTry(ta: Task, k: nat, x: Uuid) {
    ta.pc.Sending? && k == |ta.issued| - 1 && x in ta.pc.todo
  }

  /** `x` has refused the sender's latest frame, and `Evict`, at the end of the broadcast, disconnects it. */
  ghost predicate Refused(ta: Task, k: nat, x: Uuid) {
    ta.pc.Sending? && k == |ta.issued| - 1 && x in ta.pc.dead
  }

  /** A message `x` has not been tried with, or has refused, is not in its outbox. */
  lemma UnsentIsAbsent(s: State, a: Uuid, k: nat, x: Uuid)
    requires Inv(s) && a in s.tasks && x in s.tasks && k < |s.tasks[a].issued| && s.tasks[a].issued[k].Message?
    requires StillToTry(s.tasks[a], k, x) || Refused(s.tasks[a], k, x)
    ensures s.tasks[a].issued[k] !in s.tasks[x].enqueued
  {
    var ta, tx := s.tasks[a], s.tasks[x];
    TaskFacts(s, a);
    PairFacts(s, a, x);
    FromMembers(tx.enqueued, a, ta.issued[k]);
    assert !tx.pc.Registering?;
    assert forall i | 0 <= i < |From(tx.enqueued, a)| :: From(tx.enqueued, a)[i] == ta.issued[Base(a, tx) + i];
  }

  /** A join misses nothing. Take any message `a` has begun to broadcast and any connected `x` that
      has taken its history snapshot. The message is in `x`'s outbox, or `x` has yet to be tried with
      it, or has refused it and is about to be disconnected, or it is in the history `x` was given, or
      it was ephemeral and broadcast before `x` was registered, or it had been wiped or pushed out of
      the history before `x` looked. */
  lemma JoinMissesNothing(s: State, a: Uuid, k: nat, x: Uuid)
    requires Reachable(s) && a in s.tasks && x in s.conns && x in s.tasks && TookHistory(s.tasks[x])
    requires k < Announced(s.tasks[a]) && s.tasks[a].issued[k].Message?
    ensures var ta, tx := s.tasks[a], s.tasks[x];
            var f := ta.issued[k];
            || f in tx.enqueued
            || StillToTry(ta, k, x)
            || Refused(ta, k, x)
            || f.msg in HistoryTaken(tx)
            || (f.msg.ad.ephemeral && k < Base(a, tx))
            || GoneBefore(s, f.msg, tx)
    ensures StillToTry(s.tasks[a], k, x) || Refused(s.tasks[a], k, x) ==> s.tasks[a].issued[k] !in s.tasks[x].enqueued
  {
    ReachableOk(s);
    var ta, tx := s.tasks[a], s.tasks[x];
    var f := ta.issued[k];
    PairFacts(s, a, x);
    if StillToTry(ta, k, x) || Refused(ta, k, x) {
      UnsentIsAbsent(s, a, k, x);
    } else if k < Base(a, tx) {
      if !f.msg.ad.ephemeral { JoinSawOrGone(s, a, k, x); }
    } else if k < Reached(a, tx) {
      assert ta.issued[Base(a, tx)..Reached(a, tx)][k - Base(a, tx)] == f;
      FromMembers(tx.enqueued, a, f);
    }
  }

  // ----- the history -----

  /** After any run the history is the last HISTORY_LEN messages pushed since the last clear. Each was
      accepted from its sender, is within the bounds and is not ephemeral; and the part of the log
      that stems from one sender is what that sender issued, less its ephemeral messages. */
  lemma HistoryRefinesLog(s: State)
    requires Reachable(s)
    ensures s.history == LastUpTo(SinceWipe(s.recorded), HISTORY_LEN)
    ensures forall m | m in s.history ::
              && WithinBounds(m) && !m.ad.ephemeral
              && m.from in s.tasks && Message(m) in s.tasks[m.from].issued
    ensures forall a | a in s.tasks ::
              From(s.recorded, a) == DurableOf(s.tasks[a].issued[..Settled(s.tasks[a])])
  {
    ReachableOk(s);
    ReplayIsLast(s.recorded);
    forall m | m in s.history
      ensures WithinBounds(m) && !m.ad.ephemeral && m.from in s.tasks && Message(m) in s.tasks[m.from].issued
    {
      HistoryMember(s, m);
    }
    forall a | a in s.tasks ensures From(s.recorded, a) == DurableOf(s.tasks[a].issued[..Settled(s.tasks[a])]) {
      TaskFacts(s, a);
    }
  }

  lemma HistoryMember(s: State, m: RoomMessage)
    requires Inv(s) && m in s.history
    ensures WithinBounds(m) && !m.ad.ephemeral && m.from in s.tasks && Message(m) in s.tasks[m.from].issued
  {
    RecordedMember(s, s.recorded, m);
  }

  lemma RecordedMember(s: State, log: seq<ServerFrame>, m: RoomMessage)
    requires Inv(s) && log <= s.recorded && m in Replay(log)
    ensures WithinBounds(m) && !m.ad.ephemeral && m.from in s.tasks && Message(m) in s.tasks[m.from].issued
  {
    HistoryEntries(log);
    var i :| 0 <= i < |Replay(log)| && Replay(log)[i] == m;
    var k := |log| - |Replay(log)| + i;
    assert log[k] == Message(m) && s.recorded[k] == log[k];
    assert KnownFrame(s.recorded[k], s.tasks);
    LoggedWasIssued(s, Message(m), m.from);
    FromMembers(s.recorded, m.from, Message(m));
    TaskFacts(s, m.from);
    DurableMembers(s.tasks[m.from].issued[..Settled(s.tasks[m.from])], Message(m));
  }

  /** No Welcome the server ever sends is too large for a frame, and neither is any broadcast; and each
      reads back as itself. */
  lemma EveryFrameFits(s: State, x: Uuid)
    requires Reachable(s) && x in s.tasks
    ensures TookHistory(s.tasks[x]) ==>
              Sendable(Welcome(x, HistoryTaken(s.tasks[x]))) && ServerFrameFits(Welcome(x, HistoryTaken(s.tasks[x])))
    ensures forall f | f in s.tasks[x].enqueued :: Sendable(f) && ServerFrameFits(f)
  {
    ReachableOk(s);
    TaskFacts(s, x);
    var t := s.tasks[x];
    if TookHistory(t) {
      var log := s.recorded[..t.historyAt];
      HistoryEntries(log);
      forall i | 0 <= i < |Replay(log)| ensures WithinBounds(Replay(log)[i]) && MessageFits(Replay(log)[i]) {
        RecordedMember(s, log, Replay(log)[i]);
        BoundedFits(Replay(log)[i]);
      }
      WelcomeFits(x, Replay(log));
    }
    forall f | f in t.enqueued ensures Sendable(f) && ServerFrameFits(f) {
      EnqueuedFits(s, f, x);
    }
  }

  lemma EnqueuedFits(s: State, f: ServerFrame, x: Uuid)
    requires Inv(s) && x in s.tasks && f in s.tasks[x].enqueued
    ensures Sendable(f) && ServerFrameFits(f)
  {
    assert SendersKnown(s.tasks[x].enqueued, s.tasks) by { assert AllKnown(s.tasks); }
    var i :| 0 <= i < |s.tasks[x].enqueued| && s.tasks[x].enqueued[i] == f;
    assert KnownFrame(s.tasks[x].enqueued[i], s.tasks);
    TaskFacts(s, if f.Message? then f.msg.from else f.author);
    BroadcastFits(f);
    if f.Message? { BoundedFits(f.msg); } else { AdmissibleFits(f.username); }
  }

  // ----- stores -----

  /** Whenever the sessions lock is free, every connection has a session: broadcasts, sweeps, clean
      departures and failed Welcomes all keep it so. */
  lemma ConnectionsHaveSessions(s: State)
    requires Reachable(s) && s.sessionsLock == Free
    ensures s.conns <= s.sessions.Keys
  {
    ReachableOk(s);
  }

  // ----- progress -----

  /** The next lock section, send or transfer of a task. A pumping task may always hang up. */
  ghost function NextStep(s: State, id: Uuid): Step
    requires id in s.tasks && !s.tasks[id].pc.Closed?
  {
    var pc := s.tasks[id].pc;
    match pc
    case Registering => Connect(id)
    case Registered => TakeHistory(id)
    case Welcoming(_) => SendWelcome(id, true)
    case Pumping => Hangup(id)
    case Handling(_) => Touch(id, s.now)
    case Admitting(_, _) => AdmitMessage(id, s.now)
    case AskingClear => AdmitClear(id, s.now)
    case Recording(_) => Record(id)
    case Announcing(_) => SnapshotConns(id)
    case Sending(_, todo, _) => if todo == {} then Evict(id) else var to :| to in todo; TrySend(id, to)
    case Leaving => Leave(id)
    case Unlinking => Unlink(id)
    case Returning => Return(id)
  }

  predicate NeedsSessions(pc: Pc) {
    pc.Handling? || pc.Admitting? || pc.AskingClear? || pc.Leaving?
  }

  lemma OwnStepEnabled(s: State, id: Uuid)
    requires id in s.tasks && !s.tasks[id].pc.Closed? && TargetsOk(s.tasks[id], s.tasks)
    requires NeedsSessions(s.tasks[id].pc) ==> s.sessionsLock == Free
    ensures Enabled(s, NextStep(s, id))
  {
    match s.tasks[id].pc
    case Sending(_, todo, _) =>
      if todo != {} {
        var to := NextStep(s, id).to;
        assert to in todo + s.tasks[id].pc.dead;
      }
    case _ =>
  }

  /** Nobody waits for good: a task that cannot step waits for the sessions lock, and then whoever
      holds the sessions lock can step. */
  lemma WaitersWaitForRunners(s: State, id: Uuid)
    requires Reachable(s) && id in s.tasks && !s.tasks[id].pc.Closed?
    ensures
      || Enabled(s, NextStep(s, id))
      || (s.sessionsLock.HeldBy? && s.sessionsLock.task in s.tasks && !s.tasks[s.sessionsLock.task].pc.Closed?
          && Enabled(s, NextStep(s, s.sessionsLock.task)))
      || (s.sessionsLock.HeldBySweeper? && Enabled(s, Sweep))
  {
    ReachableOk(s);
    if s.sessionsLock == Free || !NeedsSessions(s.tasks[id].pc) {
      TaskFacts(s, id);
      OwnStepEnabled(s, id);
    } else if s.sessionsLock.HeldBy? {
      assert HoldsSessions(s.tasks[s.sessionsLock.task].pc);
      TaskFacts(s, s.sessionsLock.task);
      OwnStepEnabled(s, s.sessionsLock.task);
    }
  }
}
