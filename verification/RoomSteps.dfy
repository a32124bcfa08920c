/** The steps that make a broadcast, and the steps of joining: each keeps the room's invariant. Then
    the whole: every schedule, of any number of tasks, stays within it. */
module RoomSteps {
  import opened Proto
  import opened Stores
  import opened RoomMachine
  import opened RoomLogs
  import opened RoomInvariant

  // ----- admitting a clear -----

  function WithClear(t: Task, f: ServerFrame, at: nat): Task {
    t.(pc := Recording(f), issued := t.issued + [f], clearLog := t.clearLog + [at])
  }

  lemma ClearIssuedOk(a: Uuid, t: Task, at: nat)
    requires t.pc.AskingClear? && IssuedOk(a, t)
    ensures IssuedOk(a, WithClear(t, Cleared(a, t.username), at))
  {
  }

  lemma ClearTimesOk(t: Task, ss: Session, f: ServerFrame, now: nat, at: nat)
    requires TimesOk(t, now) && SessionOk(t, ss, now) && now <= at && f.Cleared?
    requires ss.lastClear.Some? ==> at - ss.lastClear.value >= CLEAR_COOLDOWN
    ensures TimesOk(WithClear(t, f, at), at)
  {
    MessageCountAppend(t.issued, f);
  }

  lemma ClearSessionOk(t: Task, ss: Session, f: ServerFrame, now: nat, at: nat)
    requires SessionOk(t, ss, now) && now <= at && f.Cleared?
    ensures SessionOk(WithClear(t, f, at), ss.(lastClear := Some(at)), at)
  {
  }

  lemma ClearLogsOk(a: Uuid, t: Task, at: nat, recorded: seq<ServerFrame>)
    requires t.pc.AskingClear? && RecordOk(a, t, recorded)
    ensures var t' := WithClear(t, Cleared(a, t.username), at);
            RecordOk(a, t', recorded) && t.issued <= t'.issued && Announced(t') == Announced(t)
  {
    var t' := WithClear(t, Cleared(a, t.username), at);
    assert t'.issued[..|t.issued|] == t.issued && t.issued[..|t.issued|] == t.issued;
  }

  lemma ClearAcceptedKept(s: State, id: Uuid, at: nat)
    requires Inv(s) && id in s.tasks && id in s.sessions && s.tasks[id].pc.AskingClear? && s.now <= at
    requires ConsumeClear(s.sessions, id, at).1
    ensures var t := s.tasks[id];
            Inv(s.(now := at, sessions := s.sessions[id := s.sessions[id].(lastClear := Some(at))],
                   tasks := s.tasks[id := WithClear(t, Cleared(id, t.username), at)]))
  {
    var t := s.tasks[id];
    var t' := WithClear(t, Cleared(id, t.username), at);
    var ss := s.sessions[id].(lastClear := Some(at));
    var s' := s.(now := at, sessions := s.sessions[id := ss], tasks := s.tasks[id := t']);
    TaskFacts(s, id);
    ClearIssuedOk(id, t, at);
    ClearTimesOk(t, s.sessions[id], Cleared(id, t.username), s.now, at);
    ClearSessionOk(t, s.sessions[id], Cleared(id, t.username), s.now, at);
    ClearLogsOk(id, t, at, s.recorded);
    SessionAndTaskChanged(s.tasks, t', s.sessions, id, ss, s.now, at);
    RecordsChanged(s.tasks, id, t', s.recorded);
    UnannouncedPairs(s.tasks, id, t', s.conns);
    QuietKnown(s.recorded, s.tasks, s'.tasks);
    AdvanceKept(s, s', id);
  }

  lemma AdmitClearKept(s: State, id: Uuid, at: nat)
    requires Inv(s) && Enabled(s, AdmitClear(id, at))
    ensures Inv(ClearAdmitted(s, id, at))
  {
    if ConsumeClear(s.sessions, id, at).1 {
      ClearAcceptedKept(s, id, at);
    } else {
      MessageStaleKept(s, id, at);
    }
  }

  // ----- updating the history -----

  /** Recording `id`'s frame extends its part of the log and nobody else's. */
  lemma RecordedLogs(tasks: map<Uuid, Task>, id: Uuid, f: ServerFrame, recorded: seq<ServerFrame>)
    requires AllRecords(tasks, recorded) && id in tasks && IssuedOk(id, tasks[id])
    requires tasks[id].pc == Recording(f)
    ensures AllRecords(tasks[id := tasks[id].(pc := Announcing(f))], recorded + [f])
  {
    var t := tasks[id];
    var tasks' := tasks[id := t.(pc := Announcing(f))];
    var n := |t.issued| - 1;
    assert t.issued[..n] + [f] == t.issued && t.issued[..n + 1] == t.issued;
    forall a | a in tasks' ensures RecordOk(a, tasks'[a], recorded + [f]) {
      assert RecordOk(a, tasks[a], recorded);
      FromAppend(recorded, f, a);
      if a == id { DurableAppend(t.issued[..n], f); }
    }
  }

  lemma RecordedHistory(s: State, id: Uuid, t': Task, f: ServerFrame)
    requires HistoryOk(s) && id in s.tasks && IssuedOk(id, s.tasks[id]) && s.tasks[id].pc == Recording(f)
    requires t'.username == s.tasks[id].username
    ensures HistoryOk(s.(history := ApplyRecord(s.history, f), recorded := s.recorded + [f], tasks := s.tasks[id := t']))
  {
    assert KnownFrame(f, s.tasks);
    ReplayAppend(s.recorded, f);
    QuietKnown(s.recorded + [f], s.tasks, s.tasks[id := t']);
  }

  lemma RecordingDone(id: Uuid, t: Task, tasks: map<Uuid, Task>, now: nat)
    requires t.pc.Recording? && IssuedOk(id, t) && TargetsOk(t, tasks) && TimesOk(t, now) && CursorsOk(t)
    ensures var t' := t.(pc := Announcing(t.pc.decided));
            && IssuedOk(id, t') && TargetsOk(t', tasks) && TimesOk(t', now) && CursorsOk(t')
            && Advances(t, t') && Announced(t') == Announced(t)
  {
  }

  lemma RecordKept(s: State, id: Uuid, f: ServerFrame)
    requires Inv(s) && id in s.tasks && s.tasks[id].pc == Recording(f)
    ensures var t' := s.tasks[id].(pc := Announcing(f));
            Inv(s.(history := ApplyRecord(s.history, f), recorded := s.recorded + [f], tasks := s.tasks[id := t']))
  {
    var t := s.tasks[id];
    var t' := t.(pc := Announcing(f));
    var s' := s.(history := ApplyRecord(s.history, f), recorded := s.recorded + [f], tasks := s.tasks[id := t']);
    TaskFacts(s, id);
    RecordingDone(id, t, s.tasks, s.now);
    RecordedLogs(s.tasks, id, f, s.recorded);
    RecordedHistory(s, id, t', f);
    SessionsSameTasks(s.tasks, s'.tasks, s.sessions, s.now);
    UnannouncedPairs(s.tasks, id, t', s.conns);
    AdvanceKept(s, s', id);
  }

  // ----- broadcasting -----

  lemma SnapshotPairs(tasks: map<Uuid, Task>, id: Uuid, f: ServerFrame, conns: set<Uuid>)
    requires AllPairs(tasks, conns) && id in tasks && tasks[id].pc == Announcing(f) && tasks[id].issued != []
    ensures var t' := tasks[id].(pc := Sending(f, conns, {}));
            forall x {:trigger PairOk(id, t', x, tasks[x], conns)} | x in tasks :: PairOk(id, t', x, tasks[x], conns)
  {
    var t' := tasks[id].(pc := Sending(f, conns, {}));
    forall x | x in tasks ensures PairOk(id, t', x, tasks[x], conns) {
      assert PairOk(id, tasks[id], x, tasks[x], conns);
    }
  }

  lemma SettledRecords(tasks: map<Uuid, Task>, id: Uuid, t': Task, recorded: seq<ServerFrame>)
    requires AllRecords(tasks, recorded) && id in tasks
    requires t'.issued == tasks[id].issued && Settled(t') == Settled(tasks[id])
    ensures AllRecords(tasks[id := t'], recorded)
  {
    assert RecordOk(id, tasks[id], recorded);
    RecordsChanged(tasks, id, t', recorded);
  }

  lemma SnapshotKept(s: State, id: Uuid)
    requires Inv(s) && id in s.tasks && s.tasks[id].pc.Announcing?
    ensures var t := s.tasks[id];
            Inv(s.(tasks := s.tasks[id := t.(pc := Sending(t.pc.decided, s.conns, {}))]))
  {
    var t := s.tasks[id];
    var t' := t.(pc := Sending(t.pc.decided, s.conns, {}));
    var s' := s.(tasks := s.tasks[id := t']);
    TaskFacts(s, id);
    SnapshotPairs(s.tasks, id, t.pc.decided, s.conns);
    SettledRecords(s.tasks, id, t', s.recorded);
    SessionsSameTasks(s.tasks, s'.tasks, s.sessions, s.now);
    QuietKnown(s.recorded, s.tasks, s'.tasks);
    AdvanceKept(s, s', id);
  }

  lemma EvictPairs(tasks: map<Uuid, Task>, id: Uuid, conns: set<Uuid>)
    requires AllPairs(tasks, conns) && id in tasks && tasks[id].pc.Sending? && tasks[id].pc.todo == {}
    ensures var t' := tasks[id].(pc := Pumping);
            var conns' := conns - tasks[id].pc.dead;
            forall x {:trigger PairOk(id, t', x, tasks[x], conns')} | x in tasks :: PairOk(id, t', x, tasks[x], conns')
  {
    var t' := tasks[id].(pc := Pumping);
    var conns' := conns - tasks[id].pc.dead;
    forall x | x in tasks ensures PairOk(id, t', x, tasks[x], conns') {
      assert PairOk(id, tasks[id], x, tasks[x], conns);
    }
  }

  lemma EvictKept(s: State, id: Uuid)
    requires Inv(s) && id in s.tasks && s.tasks[id].pc.Sending? && s.tasks[id].pc.todo == {}
    ensures var t := s.tasks[id];
            Inv(s.(conns := s.conns - t.pc.dead, tasks := s.tasks[id := t.(pc := Pumping)]))
  {
    var t := s.tasks[id];
    var t' := t.(pc := Pumping);
    var s' := s.(conns := s.conns - t.pc.dead, tasks := s.tasks[id := t']);
    TaskFacts(s, id);
    EvictPairs(s.tasks, id, s.conns);
    SettledRecords(s.tasks, id, t', s.recorded);
    SessionsSameTasks(s.tasks, s'.tasks, s.sessions, s.now);
    QuietKnown(s.recorded, s.tasks, s'.tasks);
    AdvanceKept(s, s', id);
  }

  /** A task before and after a `try_send` of `f`: at most the progress of a broadcast and the outbox differ. */
  ghost predicate SendTouched(t: Task, t': Task, f: ServerFrame) {
    && t'.username == t.username && t'.issued == t.issued
    && t'.quotaLog == t.quotaLog && t'.clearLog == t.clearLog
    && t'.base == t.base && t'.registeredAt == t.registeredAt && t'.historyAt == t.historyAt
    && t'.taken == t.taken && t'.delivered == t.delivered && t'.welcome == t.welcome
    && (t'.enqueued == t.enqueued || t'.enqueued == t.enqueued + [f])
    && (t'.pc == t.pc || (t.pc.Sending? && t'.pc.Sending? && t'.pc.decided == t.pc.decided))
  }

  lemma SendTouches(tasks: map<Uuid, Task>, id: Uuid, to: Uuid, accepted: bool)
    requires id in tasks && to in tasks && tasks[id].pc.Sending?
    ensures var tasks' := AfterSend(tasks, id, to, accepted);
            && tasks'.Keys == tasks.Keys
            && forall a {:trigger tasks'[a]} | a in tasks' :: SendTouched(tasks[a], tasks'[a], tasks[id].pc.decided)
  {
  }

  /** A pair whose sender is not the one sending. */
  lemma SendOtherPair(a: Uuid, ta: Task, ta': Task, x: Uuid, tx: Task, tx': Task, f: ServerFrame, conns: set<Uuid>)
    requires PairOk(a, ta, x, tx, conns) && ta'.pc == ta.pc && ta'.issued == ta.issued
    requires SendTouched(tx, tx', f) && !SentBy(f, a)
    ensures PairOk(a, ta', x, tx', conns)
  {
    FromAppend(tx.enqueued, f, a);
  }

  /** The sending task and a receiver it is not trying right now. */
  lemma SendBystanderPair(id: Uuid, t: Task, t': Task, to: Uuid, x: Uuid, tx: Task, tx': Task, conns: set<Uuid>)
    requires PairOk(id, t, x, tx, conns) && x != to && t.pc.Sending? && t'.pc.Sending? && t'.issued == t.issued
    requires t'.pc.todo == t.pc.todo - {to} && (t'.pc.dead == t.pc.dead || t'.pc.dead == t.pc.dead + {to})
    requires tx'.base == tx.base && (tx'.pc.Registering? <==> tx.pc.Registering?) && tx'.enqueued == tx.enqueued
    ensures PairOk(id, t', x, tx', conns)
  {
  }

  /** The sending task and the receiver it tried. */
  lemma SendTargetPair(id: Uuid, t: Task, t': Task, to: Uuid, tx: Task, tx': Task, conns: set<Uuid>, accepted: bool)
    requires PairOk(id, t, to, tx, conns) && IssuedOk(id, t)
    requires t.pc.Sending? && to in t.pc.todo && t.pc.todo !! t.pc.dead && t'.issued == t.issued
    requires t'.pc == Sending(t.pc.decided, t.pc.todo - {to}, if accepted then t.pc.dead else t.pc.dead + {to})
    requires tx'.base == tx.base && (tx'.pc.Registering? <==> tx.pc.Registering?)
    requires tx'.enqueued == if accepted then tx.enqueued + [t.pc.decided] else tx.enqueued
    ensures PairOk(id, t', to, tx', conns)
  {
    if !tx.pc.Registering? && accepted {
      SendExtends(id, t, tx, tx'.enqueued);
      assert to !in t.pc.dead;
    }
  }

  /** The frame being sent is the next one the receiver is owed. */
  lemma SendExtends(id: Uuid, t: Task, tx: Task, enqueued: seq<ServerFrame>)
    requires t.pc.Sending? && t.issued != [] && t.pc.decided == t.issued[|t.issued| - 1] && SentBy(t.pc.decided, id)
    requires Reached(id, tx) == |t.issued| - 1
    requires From(tx.enqueued, id) == t.issued[Base(id, tx)..Reached(id, tx)]
    requires enqueued == tx.enqueued + [t.pc.decided]
    ensures From(enqueued, id) == t.issued[Base(id, tx)..|t.issued|]
  {
    FromAppend(tx.enqueued, t.pc.decided, id);
    var b, r := Base(id, tx), Reached(id, tx);
    assert t.issued[b..r] + [t.issued[r]] == t.issued[b..r + 1];
  }

  lemma SendPairs(tasks: map<Uuid, Task>, id: Uuid, to: Uuid, accepted: bool, conns: set<Uuid>)
    requires AllPairs(tasks, conns) && id in tasks && to in tasks && IssuedOk(id, tasks[id])
    requires tasks[id].pc.Sending? && to in tasks[id].pc.todo && tasks[id].pc.todo !! tasks[id].pc.dead
    ensures AllPairs(AfterSend(tasks, id, to, accepted), conns)
  {
    var tasks' := AfterSend(tasks, id, to, accepted);
    var f := tasks[id].pc.decided;
    SendTouches(tasks, id, to, accepted);
    forall a, x | a in tasks' && x in tasks' ensures PairOk(a, tasks'[a], x, tasks'[x], conns) {
      assert PairOk(a, tasks[a], x, tasks[x], conns);
      if a != id {
        SendOtherPair(a, tasks[a], tasks'[a], x, tasks[x], tasks'[x], f, conns);
      } else if x == to {
        SendTargetPair(id, tasks[id], tasks'[id], to, tasks[to], tasks'[to], conns, accepted);
      } else {
        SendBystanderPair(id, tasks[id], tasks'[id], to, x, tasks[x], tasks'[x], conns);
      }
    }
  }

  lemma SendJoins(tasks: map<Uuid, Task>, id: Uuid, to: Uuid, accepted: bool, recorded: seq<ServerFrame>)
    requires AllJoins(tasks, recorded) && id in tasks && to in tasks && tasks[id].pc.Sending?
    ensures AllJoins(AfterSend(tasks, id, to, accepted), recorded)
  {
    var tasks' := AfterSend(tasks, id, to, accepted);
    SendTouches(tasks, id, to, accepted);
    forall a, x | a in tasks' && x in tasks' ensures JoinOk(a, tasks'[a], tasks'[x], recorded) {
      assert JoinOk(a, tasks[a], tasks[x], recorded);
    }
  }

  lemma SendTasks(tasks: map<Uuid, Task>, id: Uuid, to: Uuid, accepted: bool, now: nat)
    requires AllTargets(tasks) && AllIssued(tasks) && AllTimes(tasks, now)
    requires id in tasks && to in tasks && tasks[id].pc.Sending? && to in tasks[id].pc.todo
    ensures AllTargets(AfterSend(tasks, id, to, accepted)) && AllIssued(AfterSend(tasks, id, to, accepted))
    ensures AllTimes(AfterSend(tasks, id, to, accepted), now)
  {
    var tasks' := AfterSend(tasks, id, to, accepted);
    SendTouches(tasks, id, to, accepted);
    forall a | a in tasks'
      ensures TargetsOk(tasks'[a], tasks') && IssuedOk(a, tasks'[a]) && TimesOk(tasks'[a], now)
    {
      assert TargetsOk(tasks[a], tasks) && IssuedOk(a, tasks[a]) && TimesOk(tasks[a], now);
    }
  }

  lemma SendCursors(tasks: map<Uuid, Task>, id: Uuid, to: Uuid, accepted: bool, recorded: seq<ServerFrame>)
    requires AllCursors(tasks) && AllWelcomes(tasks, recorded) && AllRecords(tasks, recorded)
    requires id in tasks && to in tasks && tasks[id].pc.Sending? && to in tasks[id].pc.todo && !tasks[to].pc.Registering?
    requires accepted ==> OutboxAccepts(tasks[to])
    ensures AllCursors(AfterSend(tasks, id, to, accepted)) && AllWelcomes(AfterSend(tasks, id, to, accepted), recorded)
    ensures AllRecords(AfterSend(tasks, id, to, accepted), recorded)
  {
    var tasks' := AfterSend(tasks, id, to, accepted);
    SendTouches(tasks, id, to, accepted);
    forall a | a in tasks' ensures CursorsOk(tasks'[a]) && WelcomeOk(tasks'[a], recorded) && RecordOk(a, tasks'[a], recorded) {
      assert CursorsOk(tasks[a]) && WelcomeOk(tasks[a], recorded) && RecordOk(a, tasks[a], recorded);
    }
  }

  lemma SendKnown(tasks: map<Uuid, Task>, id: Uuid, to: Uuid, accepted: bool)
    requires AllKnown(tasks) && id in tasks && to in tasks && tasks[id].pc.Sending? && IssuedOk(id, tasks[id])
    ensures AllKnown(AfterSend(tasks, id, to, accepted))
  {
    var tasks' := AfterSend(tasks, id, to, accepted);
    SendTouches(tasks, id, to, accepted);
    var f := tasks[id].pc.decided;
    assert KnownFrame(f, tasks);
    forall a | a in tasks' ensures SendersKnown(tasks'[a].enqueued, tasks') {
      assert SendersKnown(tasks[a].enqueued, tasks);
      QuietKnown(tasks'[a].enqueued, tasks, tasks');
    }
  }

  lemma SendRest(s: State, id: Uuid, to: Uuid, accepted: bool)
    requires LocksOk(s) && HistoryOk(s) && AllSessions(s.tasks, s.sessions, s.now)
    requires id in s.tasks && to in s.tasks && s.tasks[id].pc.Sending?
    ensures var s' := s.(tasks := AfterSend(s.tasks, id, to, accepted));
            LocksOk(s') && HistoryOk(s') && AllSessions(s'.tasks, s'.sessions, s'.now)
  {
    var s' := s.(tasks := AfterSend(s.tasks, id, to, accepted));
    SendTouches(s.tasks, id, to, accepted);
    QuietKnown(s.recorded, s.tasks, s'.tasks);
    SessionsSameTasks(s.tasks, s'.tasks, s.sessions, s.now);
    LocksSame(s, s');
  }

  lemma TrySendKept(s: State, id: Uuid, to: Uuid)
    requires Inv(s) && Enabled(s, TrySend(id, to))
    ensures Inv(SentOne(s, id, to))
  {
    var accepted := OutboxAccepts(s.tasks[to]);
    TaskFacts(s, id);
    SendPairs(s.tasks, id, to, accepted, s.conns);
    SendJoins(s.tasks, id, to, accepted, s.recorded);
    SendTasks(s.tasks, id, to, accepted, s.now);
    SendCursors(s.tasks, id, to, accepted, s.recorded);
    SendKnown(s.tasks, id, to, accepted);
    SendRest(s, id, to, accepted);
  }

  // ----- joining -----

  lemma {:induction false} FromUnknown(fs: seq<ServerFrame>, tasks: map<Uuid, Task>, a: Uuid)
    requires SendersKnown(fs, tasks) && a !in tasks
    ensures From(fs, a) == []
  {
    if fs != [] {
      assert KnownFrame(fs[|fs| - 1], tasks);
      var front := fs[..|fs| - 1];
      forall i | 0 <= i < |front| ensures KnownFrame(front[i], tasks) {
        assert KnownFrame(fs[i], tasks);
      }
      FromUnknown(front, tasks, a);
    }
  }

  lemma RegisterPairs(tasks: map<Uuid, Task>, id: Uuid, username: Bytes, conns: set<Uuid>)
    requires AllPairs(tasks, conns) && AllKnown(tasks) && AllTargets(tasks) && id !in tasks
    ensures AllPairs(tasks[id := NewTask(username)], conns)
  {
    var tasks' := tasks[id := NewTask(username)];
    forall a, x | a in tasks' && x in tasks' ensures PairOk(a, tasks'[a], x, tasks'[x], conns) {
      if x != id {
        if a == id {
          assert SendersKnown(tasks[x].enqueued, tasks) && TargetsOk(tasks[x], tasks);
          FromUnknown(tasks[x].enqueued, tasks, id);
        } else {
          assert PairOk(a, tasks[a], x, tasks[x], conns);
        }
      }
    }
  }

  lemma RegisterJoins(tasks: map<Uuid, Task>, id: Uuid, username: Bytes, recorded: seq<ServerFrame>)
    requires AllJoins(tasks, recorded) && AllTargets(tasks) && id !in tasks
    ensures AllJoins(tasks[id := NewTask(username)], recorded)
  {
    var tasks' := tasks[id := NewTask(username)];
    forall a, x | a in tasks' && x in tasks' ensures JoinOk(a, tasks'[a], tasks'[x], recorded) {
      if a != id && x != id {
        assert JoinOk(a, tasks[a], tasks[x], recorded);
      } else if x != id {
        assert TargetsOk(tasks[x], tasks);
        assert JoinOk(x, tasks[x], tasks[x], recorded);
      } else {
        assert tasks'[a].issued[..0] == [];
      }
    }
  }

  lemma RegisterTasks(tasks: map<Uuid, Task>, id: Uuid, username: Bytes, now: nat, at: nat)
    requires AllTargets(tasks) && AllIssued(tasks) && AllTimes(tasks, now) && now <= at
    requires id !in tasks && AdmissibleUsername(username)
    ensures var tasks' := tasks[id := NewTask(username)];
            AllTargets(tasks') && AllIssued(tasks') && AllTimes(tasks', at)
  {
    var tasks' := tasks[id := NewTask(username)];
    forall a | a in tasks'
      ensures TargetsOk(tasks'[a], tasks') && IssuedOk(a, tasks'[a]) && TimesOk(tasks'[a], at)
    {
      if a != id {
        assert TargetsOk(tasks[a], tasks) && IssuedOk(a, tasks[a]) && TimesOk(tasks[a], now);
      }
    }
  }

  lemma RegisterCursors(tasks: map<Uuid, Task>, id: Uuid, username: Bytes, recorded: seq<ServerFrame>)
    requires AllCursors(tasks) && AllWelcomes(tasks, recorded) && AllRecords(tasks, recorded) && AllKnown(tasks)
    requires SendersKnown(recorded, tasks) && id !in tasks
    ensures var tasks' := tasks[id := NewTask(username)];
            AllCursors(tasks') && AllWelcomes(tasks', recorded) && AllRecords(tasks', recorded) && AllKnown(tasks')
  {
    var tasks' := tasks[id := NewTask(username)];
    FromUnknown(recorded, tasks, id);
    forall a | a in tasks'
      ensures CursorsOk(tasks'[a]) && WelcomeOk(tasks'[a], recorded) && RecordOk(a, tasks'[a], recorded)
      ensures SendersKnown(tasks'[a].enqueued, tasks')
    {
      if a != id {
        assert CursorsOk(tasks[a]) && WelcomeOk(tasks[a], recorded) && RecordOk(a, tasks[a], recorded);
        assert SendersKnown(tasks[a].enqueued, tasks);
        QuietKnown(tasks[a].enqueued, tasks, tasks');
      }
    }
  }

  lemma RegisterSessions(tasks: map<Uuid, Task>, sessions: Sessions, id: Uuid, username: Bytes, now: nat, at: nat)
    requires AllSessions(tasks, sessions, now) && now <= at && id !in tasks && sessions.Keys <= tasks.Keys
    ensures AllSessions(tasks[id := NewTask(username)], InsertSession(sessions, id, username, at), at)
  {
    var tasks', sessions' := tasks[id := NewTask(username)], InsertSession(sessions, id, username, at);
    forall a | a in tasks' && a in sessions' ensures SessionOk(tasks'[a], sessions'[a], at) {
      if a != id { assert SessionOk(tasks[a], sessions[a], now); }
    }
  }

  lemma RegisterKept(s: State, id: Uuid, username: Bytes, at: nat)
    requires Inv(s) && Enabled(s, Register(id, username, at))
    ensures Inv(Apply(s, Register(id, username, at)))
  {
    LocksRegister(s, id, username, at);
    RegisterPairs(s.tasks, id, username, s.conns);
    RegisterJoins(s.tasks, id, username, s.recorded);
    RegisterTasks(s.tasks, id, username, s.now, at);
    RegisterCursors(s.tasks, id, username, s.recorded);
    RegisterSessions(s.tasks, s.sessions, id, username, s.now, at);
    QuietKnown(s.recorded, s.tasks, s.tasks[id := NewTask(username)]);
  }

  /** The task once its connection is inserted. */
  function Connected(tasks: map<Uuid, Task>, id: Uuid, at: nat): Task
    requires id in tasks
  {
    tasks[id].(pc := Registered, base := map a | a in tasks :: Announced(tasks[a]), registeredAt := at)
  }

  lemma ConnectPairs(tasks: map<Uuid, Task>, id: Uuid, conns: set<Uuid>, at: nat)
    requires AllPairs(tasks, conns) && AllTargets(tasks) && id in tasks
    requires tasks[id].pc.Registering? && tasks[id].enqueued == [] && tasks[id].issued == []
    ensures AllPairs(tasks[id := Connected(tasks, id, at)], conns + {id})
  {
    var tasks' := tasks[id := Connected(tasks, id, at)];
    forall a, x | a in tasks' && x in tasks' ensures PairOk(a, tasks'[a], x, tasks'[x], conns + {id}) {
      assert PairOk(a, tasks[a], x, tasks[x], conns) && TargetsOk(tasks[a], tasks);
    }
  }

  lemma ConnectJoins(tasks: map<Uuid, Task>, id: Uuid, recorded: seq<ServerFrame>)
    requires AllJoins(tasks, recorded) && AllRecords(tasks, recorded) && id in tasks
    requires tasks[id].pc.Registering? && tasks[id].issued == []
    ensures AllJoins(tasks[id := Connected(tasks, id, |recorded|)], recorded)
  {
    var tasks' := tasks[id := Connected(tasks, id, |recorded|)];
    forall a, x | a in tasks' && x in tasks' ensures JoinOk(a, tasks'[a], tasks'[x], recorded) {
      assert JoinOk(a, tasks[a], tasks[x], recorded);
      if x == id {
        assert RecordOk(a, tasks[a], recorded);
        var issued := tasks[a].issued;
        DurablePrefix(issued[..Settled(tasks[a])], Announced(tasks[a]));
        assert issued[..Settled(tasks[a])][..Announced(tasks[a])] == issued[..Announced(tasks[a])];
        assert recorded[..|recorded|] == recorded;
      }
    }
  }

  lemma ConnectTasks(tasks: map<Uuid, Task>, id: Uuid, now: nat, at: nat)
    requires AllTargets(tasks) && AllIssued(tasks) && AllTimes(tasks, now) && id in tasks && tasks[id].pc.Registering?
    ensures var tasks' := tasks[id := Connected(tasks, id, at)];
            AllTargets(tasks') && AllIssued(tasks') && AllTimes(tasks', now)
  {
    var tasks' := tasks[id := Connected(tasks, id, at)];
    forall a | a in tasks'
      ensures TargetsOk(tasks'[a], tasks') && IssuedOk(a, tasks'[a]) && TimesOk(tasks'[a], now)
    {
      assert TargetsOk(tasks[a], tasks) && IssuedOk(a, tasks[a]) && TimesOk(tasks[a], now);
    }
  }

  lemma ConnectCursors(tasks: map<Uuid, Task>, id: Uuid, recorded: seq<ServerFrame>)
    requires AllCursors(tasks) && AllWelcomes(tasks, recorded) && AllRecords(tasks, recorded) && AllKnown(tasks)
    requires id in tasks && tasks[id].pc.Registering?
    ensures var tasks' := tasks[id := Connected(tasks, id, |recorded|)];
            AllCursors(tasks') && AllWelcomes(tasks', recorded) && AllRecords(tasks', recorded) && AllKnown(tasks')
  {
    var tasks' := tasks[id := Connected(tasks, id, |recorded|)];
    forall a | a in tasks'
      ensures CursorsOk(tasks'[a]) && WelcomeOk(tasks'[a], recorded) && RecordOk(a, tasks'[a], recorded)
      ensures SendersKnown(tasks'[a].enqueued, tasks')
    {
      assert CursorsOk(tasks[a]) && WelcomeOk(tasks[a], recorded) && RecordOk(a, tasks[a], recorded);
      assert SendersKnown(tasks[a].enqueued, tasks);
      QuietKnown(tasks[a].enqueued, tasks, tasks');
    }
  }

  lemma ConnectKept(s: State, id: Uuid)
    requires Inv(s) && Enabled(s, Connect(id))
    ensures Inv(Apply(s, Connect(id)))
  {
    TaskFacts(s, id);
    LocksConnect(s, id);
    ConnectPairs(s.tasks, id, s.conns, |s.recorded|);
    ConnectJoins(s.tasks, id, s.recorded);
    ConnectTasks(s.tasks, id, s.now, |s.recorded|);
    ConnectCursors(s.tasks, id, s.recorded);
    var tasks' := s.tasks[id := Connected(s.tasks, id, |s.recorded|)];
    SessionsSameTasks(s.tasks, tasks', s.sessions, s.now);
    QuietKnown(s.recorded, s.tasks, tasks');
  }

  // ----- every schedule -----

  lemma StepKept(s: State, step: Step)
    requires Inv(s) && Enabled(s, step)
    ensures Inv(Apply(s, step))
  {
    match step
    case Register(id, username, at) => RegisterKept(s, id, username, at);
    case Connect(id) => ConnectKept(s, id);
    case TakeHistory(id) => TakeHistoryKept(s, id);
    case SendWelcome(id, ok) => SendWelcomeKept(s, id, ok);
    case Deliver(id, _) => TakingKept(s, id, Apply(s, step).tasks[id]);
    case Hangup(id) => MoveKept(s, id, Leaving);
    case Receive(id, frame) => MoveKept(s, id, Handling(frame));
    case Touch(id, at) => TouchKept(s, id, at);
    case AdmitMessage(id, at) => AdmitMessageKept(s, id, at);
    case AdmitClear(id, at) => AdmitClearKept(s, id, at);
    case Record(id) => RecordKept(s, id, s.tasks[id].pc.decided);
    case SnapshotConns(id) => SnapshotKept(s, id);
    case TrySend(id, to) => TrySendKept(s, id, to);
    case Evict(id) => EvictKept(s, id);
    case Leave(id) => LeaveKept(s, id);
    case Unlink(id) => UnlinkKept(s, id);
    case Return(id) => MoveKept(s, id, Closed);
    case ListStale(_) => SweeperKept(s, step);
    case StartSweep => SweeperKept(s, step);
    case Sweep => SweeperKept(s, step);
  }

  lemma InitOk()
    ensures Inv(INIT)
  {
  }

  lemma {:induction false} ScheduleKept(steps: seq<Step>)
    requires After(steps).Some?
    ensures Inv(After(steps).value)
  {
    if steps == [] {
      InitOk();
    } else {
      ScheduleKept(steps[..|steps| - 1]);
      StepKept(After(steps[..|steps| - 1]).value, steps[|steps| - 1]);
    }
  }

  /** Whatever the schedule, and however many tasks come and go, the invariant holds. */
  lemma ReachableOk(s: State)
    requires Reachable(s)
    ensures Inv(s)
  {
    var steps :| After(steps) == Some(s);
    ScheduleKept(steps);
  }
}
