/** What every step of the room machine keeps. The invariant is a conjunction of small predicates on
    one task, or on a pair of tasks, and each has its own preservation lemma. */
module RoomInvariant {
  import opened Proto
  import opened Stores
  import opened SlidingWindow
  import opened RoomMachine
  import opened RoomLogs

  // ----- locks and membership -----

  predicate HoldsSessions(pc: Pc) { pc.Registering? || pc.Unlinking? }

  ghost predicate LocksOk(s: State) {
    && (forall x | x in s.tasks :: HoldsSessions(s.tasks[x].pc) <==> s.sessionsLock == HeldBy(x))
    && (s.sessionsLock.HeldBy? ==> s.sessionsLock.task in s.tasks)
    && (s.sessionsLock.HeldBySweeper? <==> s.sweeper.Sweeping?)
    && s.sessions.Keys <= s.tasks.Keys
    && (forall x | x in s.conns :: x in s.tasks && !s.tasks[x].pc.Registering?)
    && (forall x | x in s.conns :: x in s.sessions || s.tasks[x].pc.Unlinking?)
    && (forall x | x in s.tasks && s.tasks[x].pc.Registering? :: x in s.sessions)
  }

  /** The targets of a running broadcast are registered tasks, each either still to do or done. */
  ghost predicate TargetsOk(t: Task, tasks: map<Uuid, Task>) {
    && t.base.Keys <= tasks.Keys
    && (t.pc.Sending? ==>
          && t.pc.todo !! t.pc.dead
          && forall x | x in t.pc.todo + t.pc.dead :: x in tasks && !tasks[x].pc.Registering?)
  }

  // ----- one task -----

  /** A frame the task may have decided to broadcast. */
  predicate OwnFrame(f: ServerFrame, a: Uuid, username: Bytes) {
    match f
    case Message(m) => WithinBounds(m) && m.from == a && m.username == username && m.ad.counter > 0
    case Cleared(author, name) => author == a && name == username
    case _ => false
  }

  ghost predicate IssuedOk(a: Uuid, t: Task) {
    && AdmissibleUsername(t.username)
    && (forall i | 0 <= i < |t.issued| :: OwnFrame(t.issued[i], a, t.username))
    && Increasing(t.issued)
    && (t.pc.Recording? || t.pc.Announcing? || t.pc.Sending? ==>
          t.issued != [] && t.pc.decided == t.issued[|t.issued| - 1])
    && (t.pc.Recording? ==> Durable(t.pc.decided))
    && (t.pc.Admitting? ==>
          t.pc.ad.from == a && t.pc.ad.username == t.username && |t.pc.ciphertext| <= MAX_CIPHERTEXT_LEN)
  }

  ghost predicate ClearsSpaced(log: seq<nat>, now: nat) {
    && (forall i | 0 <= i < |log| :: log[i] <= now)
    && forall i | 0 < i < |log| :: log[i] - log[i - 1] >= CLEAR_COOLDOWN
  }

  ghost predicate TimesOk(t: Task, now: nat) {
    && SortedUpTo(t.quotaLog, now) && Spaced(t.quotaLog, MSG_RATE_WINDOW, MSG_RATE_MAX)
    && ClearsSpaced(t.clearLog, now)
    && |t.quotaLog| == MessageCount(t.issued)
    && |t.quotaLog| + |t.clearLog| == |t.issued|
  }

  /** The session remembers of the logs what its checks need. */
  ghost predicate SessionOk(t: Task, ss: Session, now: nat) {
    && (forall i | 0 <= i < |t.issued| && t.issued[i].Message? :: t.issued[i].msg.ad.counter <= ss.lastCounter)
    && Tracks(ss.messageWindow, t.quotaLog, now, MSG_RATE_WINDOW)
    && ss.lastClear == if t.clearLog == [] then None else Some(t.clearLog[|t.clearLog| - 1])
  }

  predicate Joining(pc: Pc) { pc.Registering? || pc.Registered? || pc.Welcoming? }

  predicate Active(pc: Pc) {
    || pc.Pumping? || pc.Handling? || pc.Admitting? || pc.AskingClear?
    || pc.Recording? || pc.Announcing? || pc.Sending?
  }

  ghost predicate CursorsOk(t: Task) {
    && t.delivered <= t.taken <= |t.enqueued| <= t.taken + OUTBOX_DEPTH
    && (Joining(t.pc) ==> t.taken == 0 && t.welcome == None && t.issued == [])
    && (t.pc.Registering? ==> t.enqueued == [])
    && (Active(t.pc) ==> t.delivered == t.taken && t.welcome.Some?)
    && (t.welcome == None ==> t.delivered == 0)
  }

  ghost predicate WelcomeOk(t: Task, recorded: seq<ServerFrame>) {
    && t.registeredAt <= |recorded|
    && (t.pc.Welcoming? || t.welcome.Some? ==> t.registeredAt <= t.historyAt <= |recorded|)
    && (t.pc.Welcoming? ==> t.pc.history == Replay(recorded[..t.historyAt]))
    && (t.welcome.Some? ==> t.welcome.value == Replay(recorded[..t.historyAt]))
  }

  // ----- pairs -----

  /** How much of `a`'s broadcasts came before `x` was registered. */
  function Base(a: Uuid, tx: Task): nat {
    if a in tx.base then tx.base[a] else 0
  }

  /** How much of `a`'s broadcasts `x`'s outbox has seen to, from the start of all. */
  ghost function Reached(a: Uuid, tx: Task): nat {
    Base(a, tx) + |From(tx.enqueued, a)|
  }

  /** What came from `a` into `x`'s outbox is a stretch of `a`'s broadcasts that starts where `x`
      registered; while `x` is connected nothing announced is missing from it. */
  ghost predicate PairOk(a: Uuid, ta: Task, x: Uuid, tx: Task, conns: set<Uuid>) {
    !tx.pc.Registering? ==>
      && Reached(a, tx) <= Announced(ta)
      && From(tx.enqueued, a) == ta.issued[Base(a, tx)..Reached(a, tx)]
      && (if ta.pc.Sending? then
            && (x in ta.pc.todo + ta.pc.dead ==> Reached(a, tx) == |ta.issued| - 1)
            && (x in conns && x !in ta.pc.todo && x !in ta.pc.dead ==> Reached(a, tx) == |ta.issued|)
          else
            x in conns ==> Reached(a, tx) == Announced(ta))
  }

  ghost predicate RecordOk(a: Uuid, ta: Task, recorded: seq<ServerFrame>) {
    From(recorded, a) == DurableOf(ta.issued[..Settled(ta)])
  }

  /** What `a` had announced when `x` registered had gone through the history by then. */
  ghost predicate JoinOk(a: Uuid, ta: Task, tx: Task, recorded: seq<ServerFrame>) {
    && tx.registeredAt <= |recorded|
    && Base(a, tx) <= Announced(ta)
    && DurableOf(ta.issued[..Base(a, tx)]) <= From(recorded[..tx.registeredAt], a)
  }

  predicate KnownFrame(f: ServerFrame, tasks: map<Uuid, Task>) {
    match f
    case Message(m) => m.from in tasks && OwnFrame(f, m.from, tasks[m.from].username)
    case Cleared(author, _) => author in tasks && OwnFrame(f, author, tasks[author].username)
    case _ => false
  }

  ghost predicate SendersKnown(fs: seq<ServerFrame>, tasks: map<Uuid, Task>) {
    forall i {:trigger KnownFrame(fs[i], tasks)} | 0 <= i < |fs| :: KnownFrame(fs[i], tasks)
  }

  // ----- all of it -----

  ghost predicate AllTargets(tasks: map<Uuid, Task>) {
    forall a {:trigger TargetsOk(tasks[a], tasks)} | a in tasks :: TargetsOk(tasks[a], tasks)
  }

  ghost predicate AllIssued(tasks: map<Uuid, Task>) {
    forall a {:trigger IssuedOk(a, tasks[a])} | a in tasks :: IssuedOk(a, tasks[a])
  }

  ghost predicate AllTimes(tasks: map<Uuid, Task>, now: nat) {
    forall a {:trigger TimesOk(tasks[a], now)} | a in tasks :: TimesOk(tasks[a], now)
  }

  ghost predicate AllSessions(tasks: map<Uuid, Task>, sessions: Sessions, now: nat) {
    forall a {:trigger SessionOk(tasks[a], sessions[a], now)} | a in tasks && a in sessions ::
      SessionOk(tasks[a], sessions[a], now)
  }

  ghost predicate AllCursors(tasks: map<Uuid, Task>) {
    forall a {:trigger CursorsOk(tasks[a])} | a in tasks :: CursorsOk(tasks[a])
  }

  ghost predicate AllWelcomes(tasks: map<Uuid, Task>, recorded: seq<ServerFrame>) {
    forall a {:trigger WelcomeOk(tasks[a], recorded)} | a in tasks :: WelcomeOk(tasks[a], recorded)
  }

  ghost predicate AllKnown(tasks: map<Uuid, Task>) {
    forall a {:trigger SendersKnown(tasks[a].enqueued, tasks)} | a in tasks :: SendersKnown(tasks[a].enqueued, tasks)
  }

  ghost predicate AllRecords(tasks: map<Uuid, Task>, recorded: seq<ServerFrame>) {
    forall a {:trigger RecordOk(a, tasks[a], recorded)} | a in tasks :: RecordOk(a, tasks[a], recorded)
  }

  ghost predicate AllPairs(tasks: map<Uuid, Task>, conns: set<Uuid>) {
    forall a, x {:trigger PairOk(a, tasks[a], x, tasks[x], conns)} | a in tasks && x in tasks ::
      PairOk(a, tasks[a], x, tasks[x], conns)
  }

  ghost predicate AllJoins(tasks: map<Uuid, Task>, recorded: seq<ServerFrame>) {
    forall a, x {:trigger JoinOk(a, tasks[a], tasks[x], recorded)} | a in tasks && x in tasks ::
      JoinOk(a, tasks[a], tasks[x], recorded)
  }

  ghost predicate HistoryOk(s: State) {
    s.history == Replay(s.recorded) && SendersKnown(s.recorded, s.tasks)
  }

  ghost predicate Inv(s: State) {
    && LocksOk(s)
    && HistoryOk(s)
    && AllTargets(s.tasks)
    && AllIssued(s.tasks)
    && AllTimes(s.tasks, s.now)
    && AllSessions(s.tasks, s.sessions, s.now)
    && AllCursors(s.tasks)
    && AllWelcomes(s.tasks, s.recorded)
    && AllKnown(s.tasks)
    && AllRecords(s.tasks, s.recorded)
    && AllPairs(s.tasks, s.conns)
    && AllJoins(s.tasks, s.recorded)
  }

  // ----- steps that leave every log alone -----

  /** Not holding the sessions lock for a registration and not in the middle of a broadcast. */
  predicate Plain(pc: Pc) {
    !(pc.Registering? || pc.Recording? || pc.Announcing? || pc.Sending?)
  }

  /** The task moves between plain places and keeps its logs. */
  ghost predicate QuietTask(a: Uuid, t: Task, t': Task, recorded: seq<ServerFrame>) {
    && Plain(t.pc) && Plain(t'.pc)
    && t'.username == t.username && t'.issued == t.issued && t'.enqueued == t.enqueued
    && t'.quotaLog == t.quotaLog && t'.clearLog == t.clearLog
    && t'.base == t.base && t'.registeredAt == t.registeredAt
    && IssuedOk(a, t') && CursorsOk(t') && WelcomeOk(t', recorded)
  }

  ghost predicate QuietChange(tasks: map<Uuid, Task>, tasks': map<Uuid, Task>, recorded: seq<ServerFrame>) {
    && tasks'.Keys == tasks.Keys
    && forall x {:trigger tasks'[x]} | x in tasks' :: tasks'[x] == tasks[x] || QuietTask(x, tasks[x], tasks'[x], recorded)
  }

  ghost predicate QuietStep(s: State, s': State) {
    && QuietChange(s.tasks, s'.tasks, s.recorded)
    && s'.recorded == s.recorded && s'.history == s.history
    && s'.conns <= s.conns && s.now <= s'.now
    && LocksOk(s')
    && AllSessions(s'.tasks, s'.sessions, s'.now)
  }

  lemma QuietKnown(fs: seq<ServerFrame>, tasks: map<Uuid, Task>, tasks': map<Uuid, Task>)
    requires SendersKnown(fs, tasks)
    requires forall a | a in tasks :: a in tasks' && tasks'[a].username == tasks[a].username
    ensures SendersKnown(fs, tasks')
  {
    forall i | 0 <= i < |fs| ensures KnownFrame(fs[i], tasks') {
      assert KnownFrame(fs[i], tasks);
    }
  }

  lemma QuietPairs(tasks: map<Uuid, Task>, tasks': map<Uuid, Task>, conns: set<Uuid>, conns': set<Uuid>, recorded: seq<ServerFrame>)
    requires AllPairs(tasks, conns) && QuietChange(tasks, tasks', recorded) && conns' <= conns
    ensures AllPairs(tasks', conns')
  {
    forall a, x | a in tasks' && x in tasks' ensures PairOk(a, tasks'[a], x, tasks'[x], conns') {
      assert PairOk(a, tasks[a], x, tasks[x], conns);
    }
  }

  lemma QuietJoins(tasks: map<Uuid, Task>, tasks': map<Uuid, Task>, recorded: seq<ServerFrame>)
    requires AllJoins(tasks, recorded) && QuietChange(tasks, tasks', recorded)
    ensures AllJoins(tasks', recorded)
  {
    forall a, x | a in tasks' && x in tasks' ensures JoinOk(a, tasks'[a], tasks'[x], recorded) {
      assert JoinOk(a, tasks[a], tasks[x], recorded);
    }
  }

  lemma QuietTasks(s: State, s': State)
    requires AllTargets(s.tasks) && AllIssued(s.tasks) && AllTimes(s.tasks, s.now)
    requires QuietChange(s.tasks, s'.tasks, s.recorded) && s.now <= s'.now
    ensures AllTargets(s'.tasks) && AllIssued(s'.tasks) && AllTimes(s'.tasks, s'.now)
  {
    forall a | a in s'.tasks
      ensures TargetsOk(s'.tasks[a], s'.tasks) && IssuedOk(a, s'.tasks[a]) && TimesOk(s'.tasks[a], s'.now)
    {
      assert TargetsOk(s.tasks[a], s.tasks) && IssuedOk(a, s.tasks[a]) && TimesOk(s.tasks[a], s.now);
    }
  }

  lemma QuietCursors(tasks: map<Uuid, Task>, tasks': map<Uuid, Task>, recorded: seq<ServerFrame>)
    requires AllCursors(tasks) && AllWelcomes(tasks, recorded) && AllRecords(tasks, recorded)
    requires QuietChange(tasks, tasks', recorded)
    ensures AllCursors(tasks') && AllWelcomes(tasks', recorded) && AllRecords(tasks', recorded)
  {
    forall a | a in tasks'
      ensures CursorsOk(tasks'[a]) && WelcomeOk(tasks'[a], recorded) && RecordOk(a, tasks'[a], recorded)
    {
      assert CursorsOk(tasks[a]) && WelcomeOk(tasks[a], recorded) && RecordOk(a, tasks[a], recorded);
    }
  }

  lemma QuietKept(s: State, s': State)
    requires Inv(s) && QuietStep(s, s')
    ensures Inv(s')
  {
    QuietPairs(s.tasks, s'.tasks, s.conns, s'.conns, s.recorded);
    QuietJoins(s.tasks, s'.tasks, s.recorded);
    QuietTasks(s, s');
    QuietCursors(s.tasks, s'.tasks, s.recorded);
    QuietKnown(s.recorded, s.tasks, s'.tasks);
    forall a | a in s'.tasks ensures SendersKnown(s'.tasks[a].enqueued, s'.tasks) {
      assert SendersKnown(s.tasks[a].enqueued, s.tasks);
      QuietKnown(s.tasks[a].enqueued, s.tasks, s'.tasks);
    }
  }

  // ----- the locks, step by step -----

  /** No task gains or gives up the sessions lock, or stops registering or unlinking. */
  ghost predicate SameHolding(tasks: map<Uuid, Task>, tasks': map<Uuid, Task>) {
    && tasks'.Keys == tasks.Keys
    && forall x {:trigger tasks'[x]} | x in tasks' ::
         (tasks'[x].pc.Registering? <==> tasks[x].pc.Registering?) && (tasks'[x].pc.Unlinking? <==> tasks[x].pc.Unlinking?)
  }

  lemma LocksSame(s: State, s': State)
    requires LocksOk(s) && SameHolding(s.tasks, s'.tasks)
    requires s'.sessionsLock == s.sessionsLock && (s'.sweeper.Sweeping? <==> s.sweeper.Sweeping?)
    requires s'.conns <= s.conns && s'.sessions.Keys == s.sessions.Keys
    ensures LocksOk(s')
  {
  }

  lemma LocksRegister(s: State, id: Uuid, username: Bytes, at: nat)
    requires LocksOk(s) && Enabled(s, Register(id, username, at))
    ensures LocksOk(Apply(s, Register(id, username, at)))
  {
  }

  lemma LocksConnect(s: State, id: Uuid)
    requires LocksOk(s) && Enabled(s, Connect(id))
    ensures LocksOk(Apply(s, Connect(id)))
  {
  }

  lemma LocksLeave(s: State, id: Uuid)
    requires LocksOk(s) && Enabled(s, Leave(id))
    ensures LocksOk(Apply(s, Leave(id)))
  {
  }

  lemma LocksUnlink(s: State, id: Uuid)
    requires LocksOk(s) && Enabled(s, Unlink(id))
    ensures LocksOk(Apply(s, Unlink(id)))
  {
  }

  lemma LocksSweep(s: State)
    requires LocksOk(s)
    ensures Enabled(s, StartSweep) ==> LocksOk(Apply(s, StartSweep))
    ensures Enabled(s, Sweep) ==> LocksOk(Apply(s, Sweep))
  {
  }

  // ----- quiet steps -----

  lemma SessionsLater(tasks: map<Uuid, Task>, sessions: Sessions, sessions': Sessions, now: nat, now': nat)
    requires AllSessions(tasks, sessions, now) && now <= now'
    requires forall a {:trigger sessions'[a]} | a in sessions' ::
               a in sessions && sessions'[a].(lastActive := sessions[a].lastActive) == sessions[a]
    ensures AllSessions(tasks, sessions', now')
  {
    forall a | a in tasks && a in sessions' ensures SessionOk(tasks[a], sessions'[a], now') {
      assert SessionOk(tasks[a], sessions[a], now);
    }
  }

  lemma SessionsSameTasks(tasks: map<Uuid, Task>, tasks': map<Uuid, Task>, sessions: Sessions, now: nat)
    requires AllSessions(tasks, sessions, now)
    requires tasks'.Keys == tasks.Keys
    requires forall a {:trigger tasks'[a]} | a in tasks' ::
               tasks'[a].issued == tasks[a].issued && tasks'[a].quotaLog == tasks[a].quotaLog && tasks'[a].clearLog == tasks[a].clearLog
    ensures AllSessions(tasks', sessions, now)
  {
    forall a | a in tasks' && a in sessions ensures SessionOk(tasks'[a], sessions[a], now) {
      assert SessionOk(tasks[a], sessions[a], now);
    }
  }

  lemma TaskFacts(s: State, id: Uuid)
    requires Inv(s) && id in s.tasks
    ensures IssuedOk(id, s.tasks[id]) && CursorsOk(s.tasks[id]) && WelcomeOk(s.tasks[id], s.recorded)
    ensures TimesOk(s.tasks[id], s.now) && (id in s.sessions ==> SessionOk(s.tasks[id], s.sessions[id], s.now))
    ensures TargetsOk(s.tasks[id], s.tasks) && RecordOk(id, s.tasks[id], s.recorded)
  {
    assert AllTargets(s.tasks) && AllRecords(s.tasks, s.recorded);
  }

  lemma LocalUpdateKept(s: State, id: Uuid, t': Task)
    requires Inv(s) && id in s.tasks && QuietTask(id, s.tasks[id], t', s.recorded)
    requires !s.tasks[id].pc.Unlinking? && !t'.pc.Unlinking?
    ensures Inv(s.(tasks := s.tasks[id := t']))
  {
    var s' := s.(tasks := s.tasks[id := t']);
    LocksSame(s, s');
    SessionsSameTasks(s.tasks, s'.tasks, s.sessions, s.now);
    QuietKept(s, s');
  }

  lemma TakeHistoryKept(s: State, id: Uuid)
    requires Inv(s) && id in s.tasks && s.tasks[id].pc.Registered?
    ensures var t := s.tasks[id];
            Inv(s.(tasks := s.tasks[id := t.(pc := Welcoming(s.history), historyAt := |s.recorded|)]))
  {
    var t := s.tasks[id];
    TaskFacts(s, id);
    assert s.recorded[..|s.recorded|] == s.recorded;
    LocalUpdateKept(s, id, t.(pc := Welcoming(s.history), historyAt := |s.recorded|));
  }

  lemma SendWelcomeKept(s: State, id: Uuid, ok: bool)
    requires Inv(s) && id in s.tasks && s.tasks[id].pc.Welcoming?
    ensures var t := s.tasks[id];
            Inv(s.(tasks := s.tasks[id := if ok then t.(pc := Pumping, welcome := Some(t.pc.history)) else t.(pc := Returning)]))
  {
    var t := s.tasks[id];
    TaskFacts(s, id);
    LocalUpdateKept(s, id, if ok then t.(pc := Pumping, welcome := Some(t.pc.history)) else t.(pc := Returning));
  }

  lemma TakingIsQuiet(id: Uuid, t: Task, recorded: seq<ServerFrame>)
    requires t.pc.Pumping? && t.taken < |t.enqueued| && IssuedOk(id, t) && CursorsOk(t) && WelcomeOk(t, recorded)
    ensures QuietTask(id, t, t.(taken := t.taken + 1, delivered := t.taken + 1), recorded)
    ensures QuietTask(id, t, t.(taken := t.taken + 1, pc := Leaving), recorded)
  {
  }

  lemma TakingKept(s: State, id: Uuid, t': Task)
    requires Inv(s) && id in s.tasks && s.tasks[id].pc.Pumping? && s.tasks[id].taken < |s.tasks[id].enqueued|
    requires var t := s.tasks[id];
             || t' == t.(taken := t.taken + 1, delivered := t.taken + 1)
             || t' == t.(taken := t.taken + 1, pc := Leaving)
    ensures Inv(s.(tasks := s.tasks[id := t']))
  {
    TaskFacts(s, id);
    TakingIsQuiet(id, s.tasks[id], s.recorded);
    LocalUpdateKept(s, id, t');
  }

  /** Hanging up, receiving a frame and returning change nothing but where the task stands. */
  predicate PlainMove(pc: Pc, pc': Pc) {
    || (pc.Pumping? && (pc'.Leaving? || pc'.Handling?))
    || (pc.Returning? && pc'.Closed?)
  }

  lemma MoveKept(s: State, id: Uuid, pc': Pc)
    requires Inv(s) && id in s.tasks && PlainMove(s.tasks[id].pc, pc')
    ensures Inv(s.(tasks := s.tasks[id := s.tasks[id].(pc := pc')]))
  {
    TaskFacts(s, id);
    LocalUpdateKept(s, id, s.tasks[id].(pc := pc'));
  }

  /** The same with the clock and the sessions moving on. */
  lemma SessionUpdateKept(s: State, id: Uuid, t': Task, sessions: Sessions, at: nat)
    requires Inv(s) && id in s.tasks && QuietTask(id, s.tasks[id], t', s.recorded)
    requires !s.tasks[id].pc.Unlinking? && !t'.pc.Unlinking?
    requires sessions.Keys == s.sessions.Keys && s.now <= at && AllSessions(s.tasks, sessions, at)
    ensures Inv(s.(now := at, sessions := sessions, tasks := s.tasks[id := t']))
  {
    var s' := s.(now := at, sessions := sessions, tasks := s.tasks[id := t']);
    LocksSame(s, s');
    SessionsSameTasks(s.tasks, s'.tasks, sessions, at);
    QuietKept(s, s');
  }

  lemma TouchKept(s: State, id: Uuid, at: nat)
    requires Inv(s) && id in s.tasks && s.tasks[id].pc.Handling? && s.now <= at
    ensures var t := s.tasks[id];
            Inv(s.(now := at, sessions := TouchSession(s.sessions, id, at),
                   tasks := s.tasks[id := t.(pc := Vet(t.pc.incoming, id, t.username))]))
  {
    var t := s.tasks[id];
    TaskFacts(s, id);
    var sessions := TouchSession(s.sessions, id, at);
    SessionsLater(s.tasks, s.sessions, sessions, s.now, at);
    SessionUpdateKept(s, id, t.(pc := Vet(t.pc.incoming, id, t.username)), sessions, at);
  }

  /** The same with the sessions lock taken or given back on the way out. */
  lemma LeavingUpdateKept(s: State, s': State, id: Uuid)
    requires Inv(s) && id in s.tasks && id in s'.tasks && LocksOk(s')
    requires s'.tasks == s.tasks[id := s'.tasks[id]] && QuietTask(id, s.tasks[id], s'.tasks[id], s.recorded)
    requires s'.sessions == s.sessions - {id} || s'.sessions == s.sessions
    requires s'.conns <= s.conns
    requires s' == s.(sessionsLock := s'.sessionsLock, sessions := s'.sessions, conns := s'.conns, tasks := s'.tasks)
    ensures Inv(s')
  {
    SessionsLater(s.tasks, s.sessions, s'.sessions, s.now, s.now);
    SessionsSameTasks(s.tasks, s'.tasks, s'.sessions, s.now);
    QuietKept(s, s');
  }

  lemma LeaveKept(s: State, id: Uuid)
    requires Inv(s) && Enabled(s, Leave(id))
    ensures Inv(Apply(s, Leave(id)))
  {
    TaskFacts(s, id);
    LocksLeave(s, id);
    LeavingUpdateKept(s, Apply(s, Leave(id)), id);
  }

  lemma UnlinkKept(s: State, id: Uuid)
    requires Inv(s) && Enabled(s, Unlink(id))
    ensures Inv(Apply(s, Unlink(id)))
  {
    TaskFacts(s, id);
    LocksUnlink(s, id);
    LeavingUpdateKept(s, Apply(s, Unlink(id)), id);
  }

  lemma SweeperKept(s: State, step: Step)
    requires Inv(s) && Enabled(s, step)
    requires step.ListStale? || step.StartSweep? || step.Sweep?
    ensures Inv(Apply(s, step))
  {
    var s' := Apply(s, step);
    SessionsLater(s.tasks, s.sessions, s'.sessions, s.now, s'.now);
    if step.ListStale? { LocksSame(s, s'); } else { LocksSweep(s); }
    QuietKept(s, s');
  }

  // ----- steps of a broadcast -----

  /** The task's logs grow; what concerns it as a receiver stays. */
  ghost predicate Advances(t: Task, t': Task) {
    && !t.pc.Registering? && !t'.pc.Registering? && !t.pc.Unlinking? && !t'.pc.Unlinking?
    && t'.username == t.username && t.issued <= t'.issued && Announced(t) <= Announced(t')
    && t'.enqueued == t.enqueued && t'.base == t.base
    && t'.registeredAt == t.registeredAt && t'.historyAt == t.historyAt && t'.welcome == t.welcome
    && !t.pc.Welcoming? && !t'.pc.Welcoming?
  }

  ghost predicate AdvanceStep(s: State, s': State, id: Uuid) {
    && id in s.tasks && id in s'.tasks
    && s'.tasks == s.tasks[id := s'.tasks[id]]
    && Advances(s.tasks[id], s'.tasks[id])
    && s'.sessionsLock == s.sessionsLock && s'.sweeper == s.sweeper
    && s'.sessions.Keys == s.sessions.Keys
    && s'.conns <= s.conns && s.now <= s'.now && s.recorded <= s'.recorded
  }

  lemma AdvancePairs(tasks: map<Uuid, Task>, id: Uuid, t': Task, conns: set<Uuid>, conns': set<Uuid>)
    requires AllPairs(tasks, conns) && id in tasks && Advances(tasks[id], t') && conns' <= conns
    requires forall x {:trigger PairOk(id, t', x, tasks[x], conns')} | x in tasks :: PairOk(id, t', x, tasks[x], conns')
    ensures AllPairs(tasks[id := t'], conns')
  {
    var tasks' := tasks[id := t'];
    forall a, x | a in tasks' && x in tasks' ensures PairOk(a, tasks'[a], x, tasks'[x], conns') {
      if a == id {
        assert PairOk(id, t', x, tasks[x], conns');
      } else {
        assert PairOk(a, tasks[a], x, tasks[x], conns);
      }
    }
  }

  lemma AdvanceJoins(tasks: map<Uuid, Task>, id: Uuid, t': Task, recorded: seq<ServerFrame>, recorded': seq<ServerFrame>)
    requires AllJoins(tasks, recorded) && id in tasks && Advances(tasks[id], t') && recorded <= recorded'
    ensures AllJoins(tasks[id := t'], recorded')
  {
    var tasks' := tasks[id := t'];
    forall a, x | a in tasks' && x in tasks' ensures JoinOk(a, tasks'[a], tasks'[x], recorded') {
      assert JoinOk(a, tasks[a], tasks[x], recorded);
      assert recorded'[..tasks[x].registeredAt] == recorded[..tasks[x].registeredAt];
      assert tasks'[a].issued[..Base(a, tasks[x])] == tasks[a].issued[..Base(a, tasks[x])];
    }
  }

  lemma AdvanceWelcomes(tasks: map<Uuid, Task>, id: Uuid, t': Task, recorded: seq<ServerFrame>, recorded': seq<ServerFrame>)
    requires AllWelcomes(tasks, recorded) && id in tasks && Advances(tasks[id], t') && recorded <= recorded'
    ensures AllWelcomes(tasks[id := t'], recorded')
  {
    var tasks' := tasks[id := t'];
    forall a | a in tasks' ensures WelcomeOk(tasks'[a], recorded') {
      assert WelcomeOk(tasks[a], recorded);
      if tasks[a].pc.Welcoming? || tasks[a].welcome.Some? {
        assert recorded'[..tasks[a].historyAt] == recorded[..tasks[a].historyAt];
      }
    }
  }

  lemma AdvanceTasks(tasks: map<Uuid, Task>, id: Uuid, t': Task, now: nat, now': nat)
    requires AllTargets(tasks) && AllIssued(tasks) && AllTimes(tasks, now) && AllCursors(tasks) && AllKnown(tasks)
    requires id in tasks && Advances(tasks[id], t') && now <= now'
    requires TargetsOk(t', tasks) && IssuedOk(id, t') && TimesOk(t', now') && CursorsOk(t')
    ensures AllTargets(tasks[id := t']) && AllIssued(tasks[id := t']) && AllTimes(tasks[id := t'], now')
    ensures AllCursors(tasks[id := t'])
  {
    var tasks' := tasks[id := t'];
    forall a | a in tasks'
      ensures TargetsOk(tasks'[a], tasks') && IssuedOk(a, tasks'[a]) && TimesOk(tasks'[a], now') && CursorsOk(tasks'[a])
    {
      if a != id {
        assert TargetsOk(tasks[a], tasks) && IssuedOk(a, tasks[a]) && TimesOk(tasks[a], now) && CursorsOk(tasks[a]);
      }
    }
  }

  lemma AdvanceKnown(tasks: map<Uuid, Task>, id: Uuid, t': Task)
    requires AllKnown(tasks) && id in tasks && Advances(tasks[id], t')
    ensures AllKnown(tasks[id := t'])
  {
    var tasks' := tasks[id := t'];
    forall a | a in tasks' ensures SendersKnown(tasks'[a].enqueued, tasks') {
      assert SendersKnown(tasks[a].enqueued, tasks);
      QuietKnown(tasks[a].enqueued, tasks, tasks');
    }
  }

  lemma AdvanceKept(s: State, s': State, id: Uuid)
    requires Inv(s) && AdvanceStep(s, s', id)
    requires HistoryOk(s') && AllSessions(s'.tasks, s'.sessions, s'.now) && AllRecords(s'.tasks, s'.recorded)
    requires TargetsOk(s'.tasks[id], s.tasks) && IssuedOk(id, s'.tasks[id])
    requires TimesOk(s'.tasks[id], s'.now) && CursorsOk(s'.tasks[id])
    requires forall x {:trigger PairOk(id, s'.tasks[id], x, s.tasks[x], s'.conns)} | x in s.tasks ::
               PairOk(id, s'.tasks[id], x, s.tasks[x], s'.conns)
    ensures Inv(s')
  {
    var t' := s'.tasks[id];
    AdvancePairs(s.tasks, id, t', s.conns, s'.conns);
    AdvanceJoins(s.tasks, id, t', s.recorded, s'.recorded);
    AdvanceWelcomes(s.tasks, id, t', s.recorded, s'.recorded);
    AdvanceTasks(s.tasks, id, t', s.now, s'.now);
    AdvanceKnown(s.tasks, id, t');
    LocksSame(s, s');
  }

  /** The sessions after an admission: only `id`'s changes. */
  lemma SessionChanged(tasks: map<Uuid, Task>, sessions: Sessions, id: Uuid, ss: Session, now: nat, at: nat)
    requires AllSessions(tasks, sessions, now) && now <= at && id in tasks && id in sessions
    requires SessionOk(tasks[id], ss, at)
    ensures AllSessions(tasks, sessions[id := ss], at)
  {
    var sessions' := sessions[id := ss];
    forall a | a in tasks && a in sessions' ensures SessionOk(tasks[a], sessions'[a], at) {
      if a != id { assert SessionOk(tasks[a], sessions[a], now); }
    }
  }

  lemma SessionAndTaskChanged(tasks: map<Uuid, Task>, t': Task, sessions: Sessions, id: Uuid, ss: Session, now: nat, at: nat)
    requires AllSessions(tasks, sessions, now) && now <= at && id in tasks && id in sessions
    requires SessionOk(t', ss, at)
    ensures AllSessions(tasks[id := t'], sessions[id := ss], at)
  {
    var sessions', tasks' := sessions[id := ss], tasks[id := t'];
    forall a | a in tasks' && a in sessions' ensures SessionOk(tasks'[a], sessions'[a], at) {
      if a != id { assert SessionOk(tasks[a], sessions[a], now); }
    }
  }

  lemma RecordsChanged(tasks: map<Uuid, Task>, id: Uuid, t': Task, recorded: seq<ServerFrame>)
    requires AllRecords(tasks, recorded) && id in tasks && RecordOk(id, t', recorded)
    ensures AllRecords(tasks[id := t'], recorded)
  {
    var tasks' := tasks[id := t'];
    forall a | a in tasks' ensures RecordOk(a, tasks'[a], recorded) {
      if a != id { assert RecordOk(a, tasks[a], recorded); }
    }
  }

  // ----- admitting a message -----

  /** The session after the quota was charged, message accepted or not. */
  function Charged(ss: Session, counter: u64, at: nat): Session {
    ss.(lastCounter := counter, messageWindow := Admit(ss.messageWindow, at, MSG_RATE_WINDOW, MSG_RATE_MAX).0)
  }

  lemma RefusedSessionOk(t: Task, ss: Session, counter: u64, now: nat, at: nat)
    requires SessionOk(t, ss, now) && now <= at && counter > ss.lastCounter
    requires !Admit(ss.messageWindow, at, MSG_RATE_WINDOW, MSG_RATE_MAX).1
    ensures SessionOk(t, Charged(ss, counter, at), at)
  {
    AdmitRefines(ss.messageWindow, t.quotaLog, now, at, MSG_RATE_WINDOW, MSG_RATE_MAX);
  }

  /** The task once its message was admitted. */
  function WithMessage(t: Task, m: RoomMessage, at: nat): Task {
    t.(pc := if m.ad.ephemeral then Announcing(Message(m)) else Recording(Message(m)),
       issued := t.issued + [Message(m)], quotaLog := t.quotaLog + [at])
  }

  lemma AcceptedIssuedOk(a: Uuid, t: Task, lastCounter: u64, at: nat)
    requires t.pc.Admitting? && IssuedOk(a, t) && t.pc.ad.counter > lastCounter
    requires forall i | 0 <= i < |t.issued| && t.issued[i].Message? :: t.issued[i].msg.ad.counter <= lastCounter
    ensures IssuedOk(a, WithMessage(t, RoomMessage(a, t.username, t.pc.ad, t.pc.ciphertext), at))
  {
  }

  lemma AcceptedTimesOk(t: Task, ss: Session, m: RoomMessage, now: nat, at: nat)
    requires TimesOk(t, now) && SessionOk(t, ss, now) && now <= at
    requires Admit(ss.messageWindow, at, MSG_RATE_WINDOW, MSG_RATE_MAX).1
    ensures TimesOk(WithMessage(t, m, at), at)
  {
    AdmitKeepsSpaced(ss.messageWindow, t.quotaLog, now, at, MSG_RATE_WINDOW, MSG_RATE_MAX);
    MessageCountAppend(t.issued, Message(m));
  }

  lemma AcceptedSessionOk(t: Task, ss: Session, m: RoomMessage, now: nat, at: nat)
    requires SessionOk(t, ss, now) && now <= at && m.ad.counter > ss.lastCounter
    requires Admit(ss.messageWindow, at, MSG_RATE_WINDOW, MSG_RATE_MAX).1
    ensures SessionOk(WithMessage(t, m, at), Charged(ss, m.ad.counter, at), at)
  {
    WindowGrows(ss.messageWindow, t.quotaLog, now, at);
    AcceptedCounters(t.issued, m, ss.lastCounter);
  }

  lemma WindowGrows(q: seq<nat>, log: seq<nat>, now: nat, at: nat)
    requires Tracks(q, log, now, MSG_RATE_WINDOW) && now <= at && Admit(q, at, MSG_RATE_WINDOW, MSG_RATE_MAX).1
    ensures Tracks(Admit(q, at, MSG_RATE_WINDOW, MSG_RATE_MAX).0, log + [at], at, MSG_RATE_WINDOW)
  {
    AdmitRefines(q, log, now, at, MSG_RATE_WINDOW, MSG_RATE_MAX);
  }

  lemma AcceptedCounters(issued: seq<ServerFrame>, m: RoomMessage, lastCounter: u64)
    requires forall i | 0 <= i < |issued| && issued[i].Message? :: issued[i].msg.ad.counter <= lastCounter
    requires m.ad.counter > lastCounter
    ensures var longer := issued + [Message(m)];
            forall i | 0 <= i < |longer| && longer[i].Message? :: longer[i].msg.ad.counter <= m.ad.counter
  {
  }

  lemma AcceptedLogsOk(a: Uuid, t: Task, m: RoomMessage, at: nat, recorded: seq<ServerFrame>)
    requires t.pc.Admitting? && RecordOk(a, t, recorded)
    ensures RecordOk(a, WithMessage(t, m, at), recorded)
    ensures t.issued <= WithMessage(t, m, at).issued && Announced(WithMessage(t, m, at)) == Announced(t)
  {
    var t' := WithMessage(t, m, at);
    DurableAppend(t.issued, Message(m));
    assert t'.issued[..|t.issued|] == t.issued && t.issued[..|t.issued|] == t.issued;
    assert t'.issued[..|t'.issued|] == t'.issued;
  }

  /** A longer log announced no further changes nothing for its receivers. */
  lemma UnannouncedPairs(tasks: map<Uuid, Task>, id: Uuid, t': Task, conns: set<Uuid>)
    requires AllPairs(tasks, conns) && id in tasks && Advances(tasks[id], t') && Announced(t') == Announced(tasks[id])
    requires !tasks[id].pc.Sending? && !t'.pc.Sending?
    ensures forall x {:trigger PairOk(id, t', x, tasks[x], conns)} | x in tasks :: PairOk(id, t', x, tasks[x], conns)
  {
    forall x | x in tasks ensures PairOk(id, t', x, tasks[x], conns) {
      assert PairOk(id, tasks[id], x, tasks[x], conns);
      if !tasks[x].pc.Registering? {
        assert t'.issued[Base(id, tasks[x])..Reached(id, tasks[x])]
            == tasks[id].issued[Base(id, tasks[x])..Reached(id, tasks[x])];
      }
    }
  }

  lemma MessageAcceptedKept(s: State, id: Uuid, ss: Session, at: nat)
    requires Inv(s) && id in s.tasks && id in s.sessions && s.tasks[id].pc.Admitting? && s.now <= at
    requires s.tasks[id].pc.ad.counter > s.sessions[id].lastCounter
    requires Admit(s.sessions[id].messageWindow, at, MSG_RATE_WINDOW, MSG_RATE_MAX).1
    requires ss == Charged(s.sessions[id], s.tasks[id].pc.ad.counter, at)
    ensures var t := s.tasks[id];
            var t' := WithMessage(t, RoomMessage(id, t.username, t.pc.ad, t.pc.ciphertext), at);
            Inv(s.(now := at, sessions := s.sessions[id := ss], tasks := s.tasks[id := t']))
  {
    var t := s.tasks[id];
    var m := RoomMessage(id, t.username, t.pc.ad, t.pc.ciphertext);
    var t' := WithMessage(t, m, at);
    var s' := s.(now := at, sessions := s.sessions[id := ss], tasks := s.tasks[id := t']);
    TaskFacts(s, id);
    AcceptedIssuedOk(id, t, s.sessions[id].lastCounter, at);
    AcceptedTimesOk(t, s.sessions[id], m, s.now, at);
    AcceptedSessionOk(t, s.sessions[id], m, s.now, at);
    AcceptedLogsOk(id, t, m, at, s.recorded);
    SessionAndTaskChanged(s.tasks, t', s.sessions, id, ss, s.now, at);
    RecordsChanged(s.tasks, id, t', s.recorded);
    UnannouncedPairs(s.tasks, id, t', s.conns);
    QuietKnown(s.recorded, s.tasks, s'.tasks);
    AdvanceKept(s, s', id);
  }

  lemma MessageRefusedKept(s: State, id: Uuid, at: nat)
    requires Inv(s) && id in s.tasks && id in s.sessions && s.tasks[id].pc.Admitting? && s.now <= at
    requires s.tasks[id].pc.ad.counter > s.sessions[id].lastCounter
    requires !Admit(s.sessions[id].messageWindow, at, MSG_RATE_WINDOW, MSG_RATE_MAX).1
    ensures Inv(s.(now := at, sessions := s.sessions[id := Charged(s.sessions[id], s.tasks[id].pc.ad.counter, at)],
                   tasks := s.tasks[id := s.tasks[id].(pc := Leaving)]))
  {
    var t := s.tasks[id];
    TaskFacts(s, id);
    var ss := Charged(s.sessions[id], t.pc.ad.counter, at);
    RefusedSessionOk(t, s.sessions[id], t.pc.ad.counter, s.now, at);
    SessionChanged(s.tasks, s.sessions, id, ss, s.now, at);
    SessionUpdateKept(s, id, t.(pc := Leaving), s.sessions[id := ss], at);
  }

  lemma MessageAdmittedCases(s: State, id: Uuid, at: nat)
    requires Enabled(s, AdmitMessage(id, at))
    ensures var t := s.tasks[id];
            var ad := t.pc.ad;
            MessageAdmitted(s, id, at) ==
              if id !in s.sessions || ad.counter <= s.sessions[id].lastCounter then
                s.(now := at, sessions := s.sessions, tasks := s.tasks[id := t.(pc := Leaving)])
              else
                var charged := s.sessions[id := Charged(s.sessions[id], ad.counter, at)];
                if Admit(s.sessions[id].messageWindow, at, MSG_RATE_WINDOW, MSG_RATE_MAX).1 then
                  s.(now := at, sessions := charged,
                     tasks := s.tasks[id := WithMessage(t, RoomMessage(id, t.username, ad, t.pc.ciphertext), at)])
                else
                  s.(now := at, sessions := charged, tasks := s.tasks[id := t.(pc := Leaving)])
  {
  }

  lemma MessageStaleKept(s: State, id: Uuid, at: nat)
    requires Inv(s) && id in s.tasks && (s.tasks[id].pc.Admitting? || s.tasks[id].pc.AskingClear?) && s.now <= at
    ensures Inv(s.(now := at, sessions := s.sessions, tasks := s.tasks[id := s.tasks[id].(pc := Leaving)]))
  {
    TaskFacts(s, id);
    SessionsLater(s.tasks, s.sessions, s.sessions, s.now, at);
    SessionUpdateKept(s, id, s.tasks[id].(pc := Leaving), s.sessions, at);
  }

  lemma AdmitMessageKept(s: State, id: Uuid, at: nat)
    requires Inv(s) && Enabled(s, AdmitMessage(id, at))
    ensures Inv(MessageAdmitted(s, id, at))
  {
    MessageAdmittedCases(s, id, at);
    var counter := s.tasks[id].pc.ad.counter;
    if id !in s.sessions || counter <= s.sessions[id].lastCounter {
      MessageStaleKept(s, id, at);
    } else if !Admit(s.sessions[id].messageWindow, at, MSG_RATE_WINDOW, MSG_RATE_MAX).1 {
      MessageRefusedKept(s, id, at);
    } else {
      MessageAcceptedKept(s, id, Charged(s.sessions[id], counter, at), at);
    }
  }
}
