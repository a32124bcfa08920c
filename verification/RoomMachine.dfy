/** One chat room as a concurrent machine. Every connection is a task; tasks and the sweeper share
    the three stores through short lock sections. One lock section, one `try_send` or one transfer to
    the client is one atomic step, and any enabled step of any task may come next.

    The messages and connections locks are only ever held inside one step. The sessions lock is also
    held across two steps, where the code takes the connections lock while still holding it. */
module RoomMachine {
  import opened Proto
  import opened Stores

  /** Where a task stands: between which lock sections. */
  datatype Pc =
    | Registering                                   // session inserted, sessions lock held
    | Registered                                    // session and connection inserted
    | Welcoming(history: seq<RoomMessage>)          // history snapshot taken
    | Pumping                                       // waiting for the outbox or the client
    | Handling(incoming: ClientFrame)               // client frame decoded
    | Admitting(ad: MessageAd, ciphertext: Bytes)   // message passed the identity and size checks
    | AskingClear
    | Recording(decided: ServerFrame)               // admitted, history not yet updated
    | Announcing(decided: ServerFrame)              // history done, connections not yet snapshotted
    | Sending(decided: ServerFrame, todo: set<Uuid>, dead: set<Uuid>)
    | Leaving                                       // pump returned
    | Unlinking                                     // session removed, sessions lock held
    | Returning                                     // receiving end about to be dropped
    | Closed

  /** A connection's task. The last seven fields are logs: nothing the code does depends on them. */
  datatype Task = Task(
    username: Bytes,
    pc: Pc,
    enqueued: seq<ServerFrame>,             // every frame ever put into this task's outbox
    taken: nat,                             // how many of them the task has taken out
    delivered: nat,                         // how many of those it has sent to its client
    welcome: Option<seq<RoomMessage>>,      // the history it sent in its Welcome
    issued: seq<ServerFrame>,               // frames this task decided to broadcast, in order
    quotaLog: seq<nat>,                     // when its messages were admitted
    clearLog: seq<nat>,                     // when its clears were admitted
    base: map<Uuid, nat>,                   // at registration: how much each task had announced
    registeredAt: nat,                      // at registration: length of the history log
    historyAt: nat)                         // at its history snapshot: length of the history log

  datatype Holder = Free | HeldBy(task: Uuid) | HeldBySweeper

  /** The sweeper's list of stale sessions, and when it was made. */
  datatype Sweeper = Idle | Listed(stale: set<Uuid>, listedAt: nat) | Sweeping(stale: set<Uuid>, listedAt: nat)

  datatype State = State(
    now: nat,
    sessions: Sessions,
    sessionsLock: Holder,
    history: seq<RoomMessage>,
    conns: set<Uuid>,                       // keys of the connection map; the outboxes are in the tasks
    tasks: map<Uuid, Task>,
    sweeper: Sweeper,
    recorded: seq<ServerFrame>)             // log of the pushes and wipes of the history

  const INIT: State := State(0, map[], Free, [], {}, map[], Idle, [])

  datatype Step =
    | Register(id: Uuid, username: Bytes, at: nat)
    | Connect(id: Uuid)
    | TakeHistory(id: Uuid)
    | SendWelcome(id: Uuid, ok: bool)
    | Deliver(id: Uuid, ok: bool)
    | Hangup(id: Uuid)
    | Receive(id: Uuid, frame: ClientFrame)
    | Touch(id: Uuid, at: nat)
    | AdmitMessage(id: Uuid, at: nat)
    | AdmitClear(id: Uuid, at: nat)
    | Record(id: Uuid)
    | SnapshotConns(id: Uuid)
    | TrySend(id: Uuid, to: Uuid)
    | Evict(id: Uuid)
    | Leave(id: Uuid)
    | Unlink(id: Uuid)
    | Return(id: Uuid)
    | ListStale(at: nat)
    | StartSweep
    | Sweep

  function NewTask(username: Bytes): Task {
    Task(username, Registering, [], 0, 0, None, [], [], [], map[], 0, 0)
  }


  /** The outbox of a task takes another frame: the task still holds the receiving end and fewer
      than OUTBOX_DEPTH frames wait. */
  predicate OutboxAccepts(t: Task) {
    !t.pc.Closed? && |t.enqueued| < t.taken + OUTBOX_DEPTH
  }

  predicate Enabled(s: State, step: Step) {
    match step
    case Register(id, username, at) =>
      s.sessionsLock == Free && id !in s.tasks && AdmissibleUsername(username) && s.now <= at
    case Connect(id) => id in s.tasks && s.tasks[id].pc.Registering?
    case TakeHistory(id) => id in s.tasks && s.tasks[id].pc.Registered?
    case SendWelcome(id, _) => id in s.tasks && s.tasks[id].pc.Welcoming?
    case Deliver(id, _) => id in s.tasks && s.tasks[id].pc.Pumping? && s.tasks[id].taken < |s.tasks[id].enqueued|
    case Hangup(id) => id in s.tasks && s.tasks[id].pc.Pumping?
    case Receive(id, _) => id in s.tasks && s.tasks[id].pc.Pumping?
    case Touch(id, at) => s.sessionsLock == Free && id in s.tasks && s.tasks[id].pc.Handling? && s.now <= at
    case AdmitMessage(id, at) => s.sessionsLock == Free && id in s.tasks && s.tasks[id].pc.Admitting? && s.now <= at
    case AdmitClear(id, at) => s.sessionsLock == Free && id in s.tasks && s.tasks[id].pc.AskingClear? && s.now <= at
    case Record(id) => id in s.tasks && s.tasks[id].pc.Recording?
    case SnapshotConns(id) => id in s.tasks && s.tasks[id].pc.Announcing?
    case TrySend(id, to) =>
      id in s.tasks && s.tasks[id].pc.Sending? && to in s.tasks[id].pc.todo && to in s.tasks
    case Evict(id) => id in s.tasks && s.tasks[id].pc.Sending? && s.tasks[id].pc.todo == {}
    case Leave(id) => s.sessionsLock == Free && id in s.tasks && s.tasks[id].pc.Leaving?
    case Unlink(id) => id in s.tasks && s.tasks[id].pc.Unlinking?
    case Return(id) => id in s.tasks && s.tasks[id].pc.Returning?
    case ListStale(at) => s.sessionsLock == Free && s.sweeper.Idle? && s.now <= at
    case StartSweep => s.sessionsLock == Free && s.sweeper.Listed?
    case Sweep => s.sweeper.Sweeping?
  }

  /** What a connection does with a client frame once its session has been touched. */
  function Vet(frame: ClientFrame, id: Uuid, username: Bytes): Pc {
    match frame
    case RoomSelect(_) => Leaving
    case ClientHello(_) => Leaving
    case ClientMessage(ad, ciphertext) =>
      if ad.from != id then Leaving
      else if ad.username != username then Leaving
      else if |ciphertext| > MAX_CIPHERTEXT_LEN then Leaving
      else Admitting(ad, ciphertext)
    case Clear => AskingClear
  }

  function ApplyRecord(history: seq<RoomMessage>, frame: ServerFrame): seq<RoomMessage> {
    if frame.Message? then PushHistory(history, frame.msg) else []
  }

  /** How many of the frames a task decided on have had their connections snapshot taken. */
  function Announced(t: Task): nat {
    if (t.pc.Recording? || t.pc.Announcing?) && t.issued != [] then |t.issued| - 1 else |t.issued|
  }

  /** How many of them are past their history update. */
  function Settled(t: Task): nat {
    if t.pc.Recording? && t.issued != [] then |t.issued| - 1 else |t.issued|
  }

  function MessageAdmitted(s: State, id: Uuid, at: nat): State
    requires Enabled(s, AdmitMessage(id, at))
  {
    var t := s.tasks[id];
    var (advanced, newer) := AdvanceCounter(s.sessions, id, t.pc.ad.counter);
    if !newer then s.(now := at, tasks := s.tasks[id := t.(pc := Leaving)])
    else
      var (charged, ok) := ConsumeQuota(advanced, id, at);
      if !ok then s.(now := at, sessions := charged, tasks := s.tasks[id := t.(pc := Leaving)])
      else
        var f := Message(RoomMessage(id, t.username, t.pc.ad, t.pc.ciphertext));
        var pc := if t.pc.ad.ephemeral then Announcing(f) else Recording(f);
        s.(now := at, sessions := charged,
           tasks := s.tasks[id := t.(pc := pc, issued := t.issued + [f], quotaLog := t.quotaLog + [at])])
  }

  function ClearAdmitted(s: State, id: Uuid, at: nat): State
    requires Enabled(s, AdmitClear(id, at))
  {
    var t := s.tasks[id];
    var (cleared, ok) := ConsumeClear(s.sessions, id, at);
    if !ok then s.(now := at, tasks := s.tasks[id := t.(pc := Leaving)])
    else
      var f := Cleared(id, t.username);
      s.(now := at, sessions := cleared,
         tasks := s.tasks[id := t.(pc := Recording(f), issued := t.issued + [f], clearLog := t.clearLog + [at])])
  }

  /** The tasks after one `try_send` of a broadcast: sender and receiver may be the same task. */
  function AfterSend(tasks: map<Uuid, Task>, id: Uuid, to: Uuid, accepted: bool): map<Uuid, Task>
    requires id in tasks && to in tasks && tasks[id].pc.Sending?
  {
    var pc := tasks[id].pc;
    var tasks1 :=
      if accepted then tasks[to := tasks[to].(enqueued := tasks[to].enqueued + [pc.decided])] else tasks;
    var dead := if accepted then pc.dead else pc.dead + {to};
    tasks1[id := tasks1[id].(pc := Sending(pc.decided, pc.todo - {to}, dead))]
  }

  function SentOne(s: State, id: Uuid, to: Uuid): State
    requires Enabled(s, TrySend(id, to))
  {
    s.(tasks := AfterSend(s.tasks, id, to, OutboxAccepts(s.tasks[to])))
  }

  function Apply(s: State, step: Step): State
    requires Enabled(s, step)
  {
    match step
    case Register(id, username, at) =>
      s.(now := at, sessionsLock := HeldBy(id), sessions := InsertSession(s.sessions, id, username, at),
         tasks := s.tasks[id := NewTask(username)])
    case Connect(id) =>
      var base := map a | a in s.tasks :: Announced(s.tasks[a]);
      s.(sessionsLock := Free, conns := s.conns + {id},
         tasks := s.tasks[id := s.tasks[id].(pc := Registered, base := base, registeredAt := |s.recorded|)])
    case TakeHistory(id) =>
      s.(tasks := s.tasks[id := s.tasks[id].(pc := Welcoming(s.history), historyAt := |s.recorded|)])
    case SendWelcome(id, ok) =>
      var t := s.tasks[id];
      s.(tasks := s.tasks[id := if ok then t.(pc := Pumping, welcome := Some(t.pc.history)) else t.(pc := Returning)])
    case Deliver(id, ok) =>
      var t := s.tasks[id];
      s.(tasks := s.tasks[id := if ok then t.(taken := t.taken + 1, delivered := t.taken + 1)
                                else t.(taken := t.taken + 1, pc := Leaving)])
    case Hangup(id) => s.(tasks := s.tasks[id := s.tasks[id].(pc := Leaving)])
    case Receive(id, frame) => s.(tasks := s.tasks[id := s.tasks[id].(pc := Handling(frame))])
    case Touch(id, at) =>
      var t := s.tasks[id];
      s.(now := at, sessions := TouchSession(s.sessions, id, at),
         tasks := s.tasks[id := t.(pc := Vet(t.pc.incoming, id, t.username))])
    case AdmitMessage(id, at) => MessageAdmitted(s, id, at)
    case AdmitClear(id, at) => ClearAdmitted(s, id, at)
    case Record(id) =>
      var f := s.tasks[id].pc.decided;
      s.(history := ApplyRecord(s.history, f), recorded := s.recorded + [f],
         tasks := s.tasks[id := s.tasks[id].(pc := Announcing(f))])
    case SnapshotConns(id) =>
      s.(tasks := s.tasks[id := s.tasks[id].(pc := Sending(s.tasks[id].pc.decided, s.conns, {}))])
    case TrySend(id, to) => SentOne(s, id, to)
    case Evict(id) =>
      s.(conns := s.conns - s.tasks[id].pc.dead, tasks := s.tasks[id := s.tasks[id].(pc := Pumping)])
    case Leave(id) =>
      s.(sessionsLock := HeldBy(id), sessions := s.sessions - {id},
         tasks := s.tasks[id := s.tasks[id].(pc := Unlinking)])
    case Unlink(id) =>
      s.(sessionsLock := Free, conns := s.conns - {id}, tasks := s.tasks[id := s.tasks[id].(pc := Returning)])
    case Return(id) => s.(tasks := s.tasks[id := s.tasks[id].(pc := Closed)])
    case ListStale(at) =>
      var stale := StaleIds(s.sessions, at);
      s.(now := at, sweeper := if stale == {} then Idle else Listed(stale, at))
    case StartSweep => s.(sessionsLock := HeldBySweeper, sweeper := Sweeping(s.sweeper.stale, s.sweeper.listedAt))
    case Sweep =>
      s.(sessionsLock := Free, sessions := s.sessions - s.sweeper.stale, conns := s.conns - s.sweeper.stale,
         sweeper := Idle)
  }

  /** The state after a schedule, if every step of it was enabled. */
  function After(steps: seq<Step>): Option<State> {
    if steps == [] then Some(INIT)
    else
      var before := After(steps[..|steps| - 1]);
      var step := steps[|steps| - 1];
      if before.Some? && Enabled(before.value, step) then Some(Apply(before.value, step)) else None
  }

  ghost predicate Reachable(s: State) {
    exists steps :: After(steps) == Some(s)
  }
}
