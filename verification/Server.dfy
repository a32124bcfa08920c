/** A room's operations as one task runs them from start to end, over the three stores. Run with nothing
    in between, each is a schedule of the room machine; the machine adds every other interleaving. */
module Server {
  import opened Proto
  import opened Stores
  import opened SlidingWindow
  import opened RoomMachine
  import opened RoomInvariant
  import opened RoomSteps

  // ----- what the operations compute -----

  /** An outbox as its sending side sees it. */
  datatype Box = Box(queue: seq<ServerFrame>, closed: bool)

  datatype RoomView = RoomView(sessions: Sessions, history: seq<RoomMessage>, boxes: map<Uuid, Box>)

  /** A broadcast: every outbox that takes the frame has it, the others are disconnected. */
  function Spread(boxes: map<Uuid, Box>, f: ServerFrame): map<Uuid, Box> {
    map id | id in boxes && Accepts(boxes[id].queue, boxes[id].closed) :: boxes[id].(queue := boxes[id].queue + [f])
  }

  function Joined(v: RoomView, id: Uuid, username: Bytes, now: nat): RoomView {
    v.(sessions := InsertSession(v.sessions, id, username, now), boxes := v.boxes[id := Box([], false)])
  }

  function Left(v: RoomView, id: Uuid): RoomView {
    v.(sessions := v.sessions - {id}, boxes := v.boxes - {id})
  }

  /** The connection is over: if its outbox is still in the map, it is closed. */
  function Finished(v: RoomView, id: Uuid): RoomView {
    v.(boxes := if id in v.boxes then v.boxes[id := v.boxes[id].(closed := true)] else v.boxes)
  }

  function Swept(v: RoomView, now: nat): RoomView {
    v.(sessions := v.sessions - StaleIds(v.sessions, now), boxes := v.boxes - StaleIds(v.sessions, now))
  }

  function MessageHandled(v: RoomView, id: Uuid, username: Bytes, ad: MessageAd, ciphertext: Bytes, at: nat): (RoomView, bool) {
    var (advanced, newer) := AdvanceCounter(v.sessions, id, ad.counter);
    if !newer then (v.(sessions := advanced), false)
    else
      var (charged, ok) := ConsumeQuota(advanced, id, at);
      if !ok then (v.(sessions := charged), false)
      else
        var m := RoomMessage(id, username, ad, ciphertext);
        var history := if ad.ephemeral then v.history else PushHistory(v.history, m);
        (RoomView(charged, history, Spread(v.boxes, Message(m))), true)
  }

  function ClearHandled(v: RoomView, id: Uuid, username: Bytes, at: nat): (RoomView, bool) {
    var (cleared, ok) := ConsumeClear(v.sessions, id, at);
    if !ok then (v.(sessions := cleared), false)
    else (RoomView(cleared, [], Spread(v.boxes, Cleared(id, username))), true)
  }

  /** A client frame: the room afterwards, and whether the connection goes on. */
  function Handled(v: RoomView, id: Uuid, username: Bytes, frame: ClientFrame, touchedAt: nat, at: nat): (RoomView, bool) {
    Vetted(v.(sessions := TouchSession(v.sessions, id, touchedAt)), id, username, frame, at)
  }

  function Vetted(v: RoomView, id: Uuid, username: Bytes, frame: ClientFrame, at: nat): (RoomView, bool) {
    match Vet(frame, id, username)
    case Admitting(ad, ciphertext) => MessageHandled(v, id, username, ad, ciphertext, at)
    case AskingClear => ClearHandled(v, id, username, at)
    case _ => (v, false)
  }

  // ----- what a frame comes to, field by field -----

  /** The frame bears the session's identity and fits. */
  ghost predicate WellAddressed(id: Uuid, username: Bytes, frame: ClientFrame) {
    frame.ClientMessage? && frame.ad.from == id && frame.ad.username == username && |frame.ciphertext| <= MAX_CIPHERTEXT_LEN
  }

  /** When the connection goes on after a frame: it is a message under the session's own identity that
      fits, with a counter above the session's and fewer than the maximum in the window; or it is a clear
      and the session's last one, if any, is at least the cooldown ago. */
  ghost predicate GoesOn(v: RoomView, id: Uuid, username: Bytes, frame: ClientFrame, at: nat) {
    && id in v.sessions
    && match frame
       case ClientMessage(ad, _) =>
         && WellAddressed(id, username, frame) && ad.counter > v.sessions[id].lastCounter
         && Count(v.sessions[id].messageWindow, at - MSG_RATE_WINDOW, at) < MSG_RATE_MAX
       case Clear =>
         v.sessions[id].lastClear.Some? ==> at - v.sessions[id].lastClear.value >= CLEAR_COOLDOWN
       case _ => false
  }

  /** Every outbox that is open and has room has the frame last; the others are out of the map. */
  ghost predicate ReachesAll(boxes: map<Uuid, Box>, boxes': map<Uuid, Box>, f: ServerFrame) {
    && (forall x :: x in boxes' <==> x in boxes && !boxes[x].closed && |boxes[x].queue| < OUTBOX_DEPTH)
    && (forall x | x in boxes' :: boxes'[x] == Box(boxes[x].queue + [f], false))
  }

  /** No session but `id`'s is touched, and of that one its name is not. */
  ghost predicate OnlySession(before: Sessions, sessions: Sessions, id: Uuid, touchedAt: nat) {
    && sessions.Keys == before.Keys
    && (forall x | x in before && x != id :: sessions[x] == before[x])
    && (id in before ==> sessions[id].username == before[id].username && sessions[id].lastActive == touchedAt)
  }

  /** A client frame, in full. The connection goes on exactly when `GoesOn` says. Then a message is in
      the outboxes, and last in the history unless it is ephemeral; a clear has wiped the history and is
      in the outboxes. When it does not go on, history and outboxes are as they were. */
  lemma FrameOutcome(v: RoomView, id: Uuid, username: Bytes, frame: ClientFrame, touchedAt: nat, at: nat)
    requires id in v.sessions ==> SortedUpTo(v.sessions[id].messageWindow, at)
    ensures var (v', ok) := Handled(v, id, username, frame, touchedAt, at);
            && (ok <==> GoesOn(v, id, username, frame, at))
            && OnlySession(v.sessions, v'.sessions, id, touchedAt)
            && (!ok ==> v'.history == v.history && v'.boxes == v.boxes)
            && (ok && frame.ClientMessage? ==>
                  var m := RoomMessage(id, username, frame.ad, frame.ciphertext);
                  && ReachesAll(v.boxes, v'.boxes, Message(m))
                  && v'.history == (if frame.ad.ephemeral then v.history
                                    else (if |v.history| == HISTORY_LEN then v.history[1..] else v.history) + [m])
                  && v'.sessions[id].lastCounter == frame.ad.counter && v'.sessions[id].lastClear == v.sessions[id].lastClear)
            && (ok && frame == Clear ==>
                  && ReachesAll(v.boxes, v'.boxes, Cleared(id, username)) && v'.history == []
                  && v'.sessions[id] == v.sessions[id].(lastActive := touchedAt, lastClear := Some(at)))
  {
    if id in v.sessions {
      var window := v.sessions[id].messageWindow;
      PrunedCount(window, window, at, at, MSG_RATE_WINDOW);
    }
  }

  /** What a refused frame may change of its session: the time of its last frame; and a message with a
      new counter has that noted, and its stale time stamps dropped. */
  lemma RefusalKeeps(v: RoomView, id: Uuid, username: Bytes, frame: ClientFrame, touchedAt: nat, at: nat)
    requires id in v.sessions && !Handled(v, id, username, frame, touchedAt, at).1
    ensures var ss, ss' := v.sessions[id], Handled(v, id, username, frame, touchedAt, at).0.sessions[id];
            || ss' == ss.(lastActive := touchedAt)
            || (WellAddressed(id, username, frame) && frame.ad.counter > ss.lastCounter
                && ss' == ss.(lastActive := touchedAt, lastCounter := frame.ad.counter, messageWindow := ss'.messageWindow)
                && ss'.messageWindow == Prune(ss.messageWindow, at, MSG_RATE_WINDOW))
  {
  }

  // ----- the room -----

  class RoomState {
    const messages: MessageStore
    const sessions: UserSessionStore
    const connections: ConnectionManager

    /** No two connections share an outbox. */
    ghost predicate Valid()
      reads connections
    {
      forall id, other | id in connections.senders && other in connections.senders && id != other ::
        connections.senders[id] != connections.senders[other]
    }

    ghost function Boxes(): map<Uuid, Box>
      reads connections, connections.senders.Values
    {
      map id | id in connections.senders :: Box(connections.senders[id].queue, connections.senders[id].closed)
    }

    ghost function View(): RoomView
      reads messages, sessions, connections, connections.senders.Values
    {
      RoomView(sessions.sessions, messages.history, Boxes())
    }

    constructor ()
      ensures Valid() && View() == RoomView(map[], [], map[])
      ensures fresh(messages) && fresh(sessions) && fresh(connections)
    {
      messages := new MessageStore();
      sessions := new UserSessionStore();
      connections := new ConnectionManager();
    }

    /** Registers a connection and returns its outbox and the history for its Welcome. */
    method Join(id: Uuid, username: Bytes, now: nat) returns (outbox: Outbox, history: seq<RoomMessage>)
      requires Valid()
      modifies sessions, connections
      ensures Valid() && View() == Joined(old(View()), id, username, now)
      ensures fresh(outbox) && id in connections.senders && connections.senders[id] == outbox
      ensures history == View().history
    {
      ghost var boxes := Boxes();
      outbox := new Outbox();
      sessions.Insert(id, username, now);
      connections.Insert(id, outbox);
      assert Boxes() == boxes[id := Box([], false)];
      history := messages.Snapshot();
    }

    method Leave(id: Uuid)
      requires Valid()
      modifies sessions, connections
      ensures Valid() && View() == Left(old(View()), id)
    {
      ghost var boxes := Boxes();
      sessions.Remove(id);
      connections.Remove(id);
      assert Boxes() == boxes - {id};
    }

    /** The end of `handle_connection` drops the receiving end, whether the connection was removed
        from the map before or, after a failed Welcome, was not. */
    method Finish(id: Uuid, outbox: Outbox)
      requires Valid()
      requires forall other | other in connections.senders :: connections.senders[other] == outbox <==> other == id
      modifies outbox`closed
      ensures Valid() && View() == Finished(old(View()), id)
    {
      outbox.Close();
      assert connections.senders == old(connections.senders);
    }

    method Sweep(now: nat)
      requires Valid()
      modifies sessions, connections
      ensures Valid() && View() == Swept(old(View()), now)
    {
      var stale := sessions.Stale(now);
      if stale == [] {
        return;
      }
      Evict(stale);
      assert Ids(stale) == StaleIds(old(sessions.sessions), now);
    }

    method Evict(stale: seq<Uuid>)
      modifies sessions, connections
      ensures sessions.sessions == old(sessions.sessions) - Ids(stale)
      ensures connections.senders == old(connections.senders) - Ids(stale)
    {
      for i := 0 to |stale|
        invariant sessions.sessions == old(sessions.sessions) - Ids(stale[..i])
        invariant connections.senders == old(connections.senders) - Ids(stale[..i])
      {
        sessions.Remove(stale[i]);
        connections.Remove(stale[i]);
        assert Ids(stale[..i + 1]) == Ids(stale[..i]) + {stale[i]};
      }
      assert stale[..|stale|] == stale;
    }

    /** Offers the frame to each outbox and returns the ids of those that refused it. */
    method SendToAll(targets: seq<(Uuid, Outbox)>, f: ServerFrame) returns (dead: seq<Uuid>)
      requires forall i, j | 0 <= i < j < |targets| :: targets[i].1 != targets[j].1 && targets[i].0 != targets[j].0
      requires forall i {:trigger targets[i]} | 0 <= i < |targets| :: targets[i].1 in connections.senders.Values
      modifies connections.senders.Values`queue
      ensures forall i {:trigger targets[i]} | 0 <= i < |targets| ::
                var q := old(targets[i].1.queue);
                targets[i].1.queue == if Accepts(q, targets[i].1.closed) then q + [f] else q
      ensures forall i {:trigger targets[i]} | 0 <= i < |targets| ::
                targets[i].0 in dead <==> !Accepts(old(targets[i].1.queue), targets[i].1.closed)
    {
      dead := [];
      for n := 0 to |targets|
        invariant forall i {:trigger targets[i]} | 0 <= i < |targets| ::
                    var q := old(targets[i].1.queue);
                    targets[i].1.queue == if i < n && Accepts(q, targets[i].1.closed) then q + [f] else q
        invariant forall i {:trigger targets[i]} | 0 <= i < |targets| ::
                    targets[i].0 in dead <==> i < n && !Accepts(old(targets[i].1.queue), targets[i].1.closed)
      {
        var (id, tx) := targets[n];
        var r := tx.TrySend(f);
        if !r.Sent? {
          dead := dead + [id];
        }
      }
    }

    method Disconnect(dead: seq<Uuid>)
      modifies connections
      ensures connections.senders == old(connections.senders) - Ids(dead)
    {
      for i := 0 to |dead|
        invariant connections.senders == old(connections.senders) - Ids(dead[..i])
      {
        connections.Remove(dead[i]);
        assert Ids(dead[..i + 1]) == Ids(dead[..i]) + {dead[i]};
      }
      assert dead[..|dead|] == dead;
    }

    /** Tries every connection once and returns those that refused. */
    method Offer(f: ServerFrame) returns (dead: seq<Uuid>)
      requires Valid()
      modifies connections.senders.Values`queue
      ensures forall id {:trigger connections.senders[id]} | id in connections.senders ::
                var q := old(connections.senders[id].queue);
                && (id in dead <==> !Accepts(q, connections.senders[id].closed))
                && connections.senders[id].queue == if id in dead then q else q + [f]
    {
      var targets := connections.Snapshot();
      forall i, j | 0 <= i < j < |targets| ensures targets[i].1 != targets[j].1 {
        var one, two := targets[i], targets[j];
        assert one.0 != two.0;
        assert connections.senders[one.0] == one.1 && connections.senders[two.0] == two.1;
      }
      dead := SendToAll(targets, f);
      forall id {:trigger connections.senders[id]} | id in connections.senders
        ensures var q := old(connections.senders[id].queue);
                && (id in dead <==> !Accepts(q, connections.senders[id].closed))
                && connections.senders[id].queue == if id in dead then q else q + [f]
      {
        var i :| 0 <= i < |targets| && targets[i].0 == id;
      }
    }

    method Broadcast(f: ServerFrame)
      requires Valid()
      modifies connections, connections.senders.Values`queue
      ensures Valid() && Boxes() == Spread(old(Boxes()), f)
      ensures forall id | id in connections.senders ::
                id in old(connections.senders) && connections.senders[id] == old(connections.senders)[id]
    {
      ghost var boxes := Boxes();
      var dead := Offer(f);
      Disconnect(dead);
      SpreadIs(boxes, Boxes(), Ids(dead), f);
    }

    method HandleMessage(id: Uuid, username: Bytes, ad: MessageAd, ciphertext: Bytes, at: nat) returns (ok: bool)
      requires Valid()
      modifies sessions, messages, connections, connections.senders.Values`queue
      ensures Valid() && (View(), ok) == MessageHandled(old(View()), id, username, ad, ciphertext, at)
    {
      ok := sessions.TryAdvanceCounter(id, ad.counter);
      if !ok {
        return;
      }
      ok := sessions.TryConsumeMessageQuota(id, at);
      if !ok {
        return;
      }
      var m := RoomMessage(id, username, ad, ciphertext);
      if !ad.ephemeral {
        messages.Push(m);
      }
      assert Boxes() == old(Boxes());
      Broadcast(Message(m));
    }

    method HandleClear(id: Uuid, username: Bytes, at: nat) returns (ok: bool)
      requires Valid()
      modifies sessions, messages, connections, connections.senders.Values`queue
      ensures Valid() && (View(), ok) == ClearHandled(old(View()), id, username, at)
    {
      ok := sessions.TryConsumeClear(id, at);
      if !ok {
        return;
      }
      messages.Clear();
      Broadcast(Cleared(id, username));
    }

    /** Returns false where the connection ends with a protocol error. */
    method HandleClientFrame(id: Uuid, username: Bytes, frame: ClientFrame, touchedAt: nat, at: nat) returns (ok: bool)
      requires Valid()
      modifies sessions, messages, connections, connections.senders.Values`queue
      ensures Valid() && (View(), ok) == Handled(old(View()), id, username, frame, touchedAt, at)
    {
      sessions.Touch(id, touchedAt);
      match frame
      case RoomSelect(_) => return false;
      case ClientHello(_) => return false;
      case ClientMessage(ad, ciphertext) =>
        if ad.from != id || ad.username != username || |ciphertext| > MAX_CIPHERTEXT_LEN {
          return false;
        }
        ok := HandleMessage(id, username, ad, ciphertext, at);
      case Clear =>
        ok := HandleClear(id, username, at);
    }
  }

  lemma SpreadIs(boxes: map<Uuid, Box>, after: map<Uuid, Box>, dead: set<Uuid>, f: ServerFrame)
    requires after.Keys == boxes.Keys - dead
    requires forall id | id in boxes :: id in dead <==> !Accepts(boxes[id].queue, boxes[id].closed)
    requires forall id | id in after :: after[id] == boxes[id].(queue := boxes[id].queue + [f])
    ensures after == Spread(boxes, f)
  {
  }

  function Ids(ids: seq<Uuid>): set<Uuid> {
    set id | id in ids
  }

  // ----- each operation is a schedule of the machine -----

  /** The room's stores in a state of the machine: an outbox holds what its task has not yet taken. */
  function ViewOf(s: State): RoomView {
    RoomView(s.sessions, s.history, BoxesOf(s))
  }

  function BoxesOf(s: State): map<Uuid, Box> {
    map x | x in s.conns && x in s.tasks :: BoxOf(s.tasks[x])
  }

  function BoxOf(t: Task): Box {
    Box(if t.taken <= |t.enqueued| then t.enqueued[t.taken..] else [], t.pc.Closed?)
  }

  lemma BoxTakes(t: Task, f: ServerFrame)
    requires t.taken <= |t.enqueued|
    ensures OutboxAccepts(t) <==> Accepts(BoxOf(t).queue, BoxOf(t).closed)
    ensures BoxOf(t.(enqueued := t.enqueued + [f])) == BoxOf(t).(queue := BoxOf(t).queue + [f])
  {
  }

  /** Connections belong to tasks, and no task has taken more frames than it was given. */
  ghost predicate InOrder(s: State) {
    && s.conns <= s.tasks.Keys
    && forall x | x in s.tasks :: s.tasks[x].taken <= |s.tasks[x].enqueued|
  }

  lemma ReachableInOrder(s: State)
    requires Reachable(s)
    ensures InOrder(s)
    ensures forall x | x in s.sessions :: SortedUpTo(s.sessions[x].messageWindow, s.now)
  {
    ReachableOk(s);
    forall x | x in s.sessions ensures SortedUpTo(s.sessions[x].messageWindow, s.now) { TaskFacts(s, x); }
    forall x | x in s.tasks ensures s.tasks[x].taken <= |s.tasks[x].enqueued| {
      TaskFacts(s, x);
    }
  }

  /** The state after the steps, if each was enabled. */
  function Run(s: State, steps: seq<Step>): Option<State>
    decreases |steps|
  {
    if steps == [] then Some(s)
    else if Enabled(s, steps[0]) then Run(Apply(s, steps[0]), steps[1..])
    else None
  }

  ghost predicate Leads(s: State, s': State) {
    exists steps :: Run(s, steps) == Some(s')
  }

  lemma RunMore(s: State, steps: seq<Step>, more: seq<Step>)
    requires Run(s, steps).Some?
    ensures Run(s, steps + more) == Run(Run(s, steps).value, more)
    decreases |steps|
  {
    if steps == [] {
      assert steps + more == more;
    } else {
      assert (steps + more)[1..] == steps[1..] + more;
      RunMore(Apply(s, steps[0]), steps[1..], more);
    }
  }

  lemma LeadsOn(s: State, step: Step, s': State)
    requires Enabled(s, step) && Leads(Apply(s, step), s')
    ensures Leads(s, s')
  {
    var steps :| Run(Apply(s, step), steps) == Some(s');
    assert ([step] + steps)[1..] == steps;
    assert Run(s, [step] + steps) == Some(s');
  }

  lemma LeadsNowhere(s: State)
    ensures Leads(s, s)
  {
    assert Run(s, []) == Some(s);
  }

  lemma LeadsReachable(s: State, s': State)
    requires Reachable(s) && Leads(s, s')
    ensures Reachable(s')
  {
    var before :| After(before) == Some(s);
    var steps :| Run(s, steps) == Some(s');
    AfterRun(before, steps);
  }

  lemma {:induction false} AfterRun(before: seq<Step>, steps: seq<Step>)
    requires After(before).Some? && Run(After(before).value, steps).Some?
    ensures After(before + steps) == Run(After(before).value, steps)
    decreases |steps|
  {
    if steps == [] {
      assert before + steps == before;
    } else {
      var longer := before + [steps[0]];
      assert longer[..|longer| - 1] == before;
      assert longer + steps[1..] == before + steps;
      AfterRun(longer, steps[1..]);
    }
  }

  /** The room once `id` has tried every target it has left and dropped those that refused. */
  function Broadcasted(s: State, id: Uuid): State
    requires id in s.tasks && s.tasks[id].pc.Sending? && s.tasks[id].pc.todo <= s.tasks.Keys
  {
    var pc := s.tasks[id].pc;
    var refused := set x | x in pc.todo && !OutboxAccepts(s.tasks[x]);
    s.(conns := s.conns - pc.dead - refused,
       tasks := map x | x in s.tasks ::
         var t := if x in pc.todo - refused then s.tasks[x].(enqueued := s.tasks[x].enqueued + [pc.decided]) else s.tasks[x];
         if x == id then t.(pc := Pumping) else t)
  }

  lemma {:induction false} SendingLeads(s: State, id: Uuid)
    requires id in s.tasks && s.tasks[id].pc.Sending? && s.tasks[id].pc.todo <= s.tasks.Keys
    ensures Leads(s, Broadcasted(s, id))
    decreases |s.tasks[id].pc.todo|
  {
    var todo := s.tasks[id].pc.todo;
    if todo == {} {
      var s' := Apply(s, Evict(id));
      assert s'.tasks == Broadcasted(s, id).tasks;
      assert s'.conns == Broadcasted(s, id).conns;
      LeadsNowhere(s');
      LeadsOn(s, Evict(id), s');
    } else {
      var to :| to in todo;
      var s' := SentOne(s, id, to);
      SendingLeads(s', id);
      OneLess(s, id, to);
      LeadsOn(s, TrySend(id, to), Broadcasted(s, id));
    }
  }

  lemma OneLess(s: State, id: Uuid, to: Uuid)
    requires id in s.tasks && s.tasks[id].pc.Sending? && s.tasks[id].pc.todo <= s.tasks.Keys
    requires to in s.tasks[id].pc.todo
    ensures Broadcasted(SentOne(s, id, to), id) == Broadcasted(s, id)
  {
    var s1 := SentOne(s, id, to);
    assert Broadcasted(s1, id).conns == Broadcasted(s, id).conns;
    assert Broadcasted(s1, id).tasks == Broadcasted(s, id).tasks;
  }

  lemma LeadsThrough(s: State, mid: State, s': State)
    requires Leads(s, mid) && Leads(mid, s')
    ensures Leads(s, s')
  {
    var steps :| Run(s, steps) == Some(mid);
    var more :| Run(mid, more) == Some(s');
    RunMore(s, steps, more);
  }

  lemma OneStep(s: State, step: Step)
    requires Enabled(s, step)
    ensures Leads(s, Apply(s, step))
  {
    LeadsNowhere(Apply(s, step));
    LeadsOn(s, step, Apply(s, step));
  }

  /** A broadcast nobody interrupts. */
  lemma BroadcastIsSchedule(s: State, id: Uuid) returns (s': State)
    requires InOrder(s) && id in s.tasks && s.tasks[id].pc.Announcing?
    ensures Leads(s, s') && id in s'.tasks && s'.tasks[id].pc == Pumping
    ensures ViewOf(s') == ViewOf(s).(boxes := Spread(ViewOf(s).boxes, s.tasks[id].pc.decided))
  {
    var mid := Apply(s, SnapshotConns(id));
    OneStep(s, SnapshotConns(id));
    s' := Broadcasted(mid, id);
    SendingLeads(mid, id);
    LeadsThrough(s, mid, s');
    BroadcastView(s, id, s');
  }

  lemma BroadcastView(s: State, id: Uuid, s': State)
    requires InOrder(s) && id in s.tasks && s.tasks[id].pc.Announcing?
    requires s' == Broadcasted(Apply(s, SnapshotConns(id)), id)
    ensures BoxesOf(s') == Spread(BoxesOf(s), s.tasks[id].pc.decided)
  {
    var f := s.tasks[id].pc.decided;
    forall x | x in s.conns
      ensures x in s'.conns <==> OutboxAccepts(s.tasks[x])
      ensures OutboxAccepts(s.tasks[x]) <==> Accepts(BoxOf(s.tasks[x]).queue, BoxOf(s.tasks[x]).closed)
      ensures x in s'.conns ==> BoxOf(s'.tasks[x]) == BoxOf(s.tasks[x]).(queue := BoxOf(s.tasks[x]).queue + [f])
    {
      BoxTakes(s.tasks[x], f);
    }
    SpreadIs(BoxesOf(s), BoxesOf(s'), s.conns - s'.conns, f);
  }

  /** A step of `id` that leaves every outbox as it was. */
  lemma SameBoxes(s: State, s': State, id: Uuid)
    requires id in s.tasks && id in s'.tasks && s'.tasks == s.tasks[id := s'.tasks[id]]
    requires s'.conns == s.conns && BoxOf(s'.tasks[id]) == BoxOf(s.tasks[id])
    ensures BoxesOf(s') == BoxesOf(s)
  {
  }

  lemma MessageIsSchedule(s: State, id: Uuid, at: nat) returns (s': State)
    requires InOrder(s) && Enabled(s, AdmitMessage(id, at))
    ensures Leads(s, s') && id in s'.tasks
    ensures var t := s.tasks[id];
            var (v, ok) := MessageHandled(ViewOf(s), id, t.username, t.pc.ad, t.pc.ciphertext, at);
            ViewOf(s') == v && s'.tasks[id].pc == if ok then Pumping else Leaving
  {
    s' := MessageAdmitted(s, id, at);
    OneStep(s, AdmitMessage(id, at));
    SameBoxes(s, s', id);
    var decided := s';
    if decided.tasks[id].pc.Recording? {
      s' := Apply(decided, Record(id));
      OneStep(decided, Record(id));
      LeadsThrough(s, decided, s');
      SameBoxes(decided, s', id);
    }
    if s'.tasks[id].pc.Announcing? {
      var recorded := s';
      s' := BroadcastIsSchedule(recorded, id);
      LeadsThrough(s, recorded, s');
    }
  }

  lemma ClearIsSchedule(s: State, id: Uuid, at: nat) returns (s': State)
    requires InOrder(s) && Enabled(s, AdmitClear(id, at))
    ensures Leads(s, s') && id in s'.tasks
    ensures var (v, ok) := ClearHandled(ViewOf(s), id, s.tasks[id].username, at);
            ViewOf(s') == v && s'.tasks[id].pc == if ok then Pumping else Leaving
  {
    s' := ClearAdmitted(s, id, at);
    OneStep(s, AdmitClear(id, at));
    SameBoxes(s, s', id);
    var decided := s';
    if decided.tasks[id].pc.Recording? {
      var recorded := Apply(decided, Record(id));
      OneStep(decided, Record(id));
      LeadsThrough(s, decided, recorded);
      SameBoxes(decided, recorded, id);
      s' := BroadcastIsSchedule(recorded, id);
      LeadsThrough(s, recorded, s');
    }
  }

  lemma TouchedView(s: State, id: Uuid, at: nat)
    requires InOrder(s) && Enabled(s, Touch(id, at))
    ensures var s' := Apply(s, Touch(id, at));
            && InOrder(s') && id in s'.tasks && s'.now == at && s'.sessionsLock == Free
            && s'.tasks[id].pc == Vet(s.tasks[id].pc.incoming, id, s.tasks[id].username)
            && s'.tasks[id].username == s.tasks[id].username
            && ViewOf(s') == ViewOf(s).(sessions := TouchSession(s.sessions, id, at))
  {
    SameBoxes(s, Apply(s, Touch(id, at)), id);
  }

  lemma VettingIsSchedule(s: State, id: Uuid, frame: ClientFrame, at: nat) returns (s': State)
    requires InOrder(s) && s.sessionsLock == Free && s.now <= at
    requires id in s.tasks && s.tasks[id].pc == Vet(frame, id, s.tasks[id].username)
    ensures Leads(s, s') && id in s'.tasks
    ensures var (v, ok) := Vetted(ViewOf(s), id, s.tasks[id].username, frame, at);
            ViewOf(s') == v && s'.tasks[id].pc == if ok then Pumping else Leaving
  {
    match Vet(frame, id, s.tasks[id].username) {
      case Admitting(_, _) => s' := MessageIsSchedule(s, id, at);
      case AskingClear => s' := ClearIsSchedule(s, id, at);
      case _ =>
        s' := s;
        LeadsNowhere(s);
    }
  }

  /** Handling a client frame in one go is a schedule of the machine with the same outcome. */
  lemma HandlingIsSchedule(s: State, id: Uuid, touchedAt: nat, at: nat) returns (s': State)
    requires InOrder(s) && Enabled(s, Touch(id, touchedAt)) && touchedAt <= at
    ensures Leads(s, s') && id in s'.tasks
    ensures var t := s.tasks[id];
            var (v, ok) := Handled(ViewOf(s), id, t.username, t.pc.incoming, touchedAt, at);
            ViewOf(s') == v && s'.tasks[id].pc == if ok then Pumping else Leaving
  {
    var touched := Apply(s, Touch(id, touchedAt));
    OneStep(s, Touch(id, touchedAt));
    TouchedView(s, id, touchedAt);
    s' := VettingIsSchedule(touched, id, s.tasks[id].pc.incoming, at);
    LeadsThrough(s, touched, s');
  }

  lemma JoinIsSchedule(s: State, id: Uuid, username: Bytes, now: nat) returns (s': State)
    requires Enabled(s, Register(id, username, now))
    ensures Leads(s, s') && ViewOf(s') == Joined(ViewOf(s), id, username, now)
    ensures id in s'.tasks && s'.tasks[id].pc == Welcoming(s.history)
  {
    OneStep(s, Register(id, username, now));
    var registered := Registering(s, id, username, now);
    s' := Connecting(registered, id);
    LeadsThrough(s, registered, s');
  }

  lemma Registering(s: State, id: Uuid, username: Bytes, now: nat) returns (s': State)
    requires Enabled(s, Register(id, username, now))
    ensures s' == Apply(s, Register(id, username, now)) && Enabled(s', Connect(id)) && s'.tasks[id].enqueued == []
    ensures s'.sessions == InsertSession(s.sessions, id, username, now) && s'.history == s.history
    ensures BoxesOf(s')[id := Box([], false)] == BoxesOf(s)[id := Box([], false)]
  {
    s' := Apply(s, Register(id, username, now));
    assert s'.tasks == s.tasks[id := NewTask(username)];
  }

  lemma Connecting(s: State, id: Uuid) returns (s': State)
    requires Enabled(s, Connect(id)) && s.tasks[id].enqueued == []
    ensures Leads(s, s') && s'.sessions == s.sessions && s'.history == s.history
    ensures BoxesOf(s') == BoxesOf(s)[id := Box([], false)]
    ensures id in s'.tasks && s'.tasks[id].pc == Welcoming(s.history)
  {
    OneStep(s, Connect(id));
    var connected := Apply(s, Connect(id));
    assert BoxesOf(connected) == BoxesOf(s)[id := Box([], false)];
    s' := Apply(connected, TakeHistory(id));
    LeadsOn(s, Connect(id), s') by { OneStep(connected, TakeHistory(id)); }
    SameBoxes(connected, s', id);
  }

  lemma LeavesForGood(s: State, id: Uuid) returns (s': State)
    requires Enabled(s, Step.Leave(id))
    ensures Leads(s, s') && ViewOf(s') == Left(ViewOf(s), id) && id in s'.tasks && s'.tasks[id].pc == Closed
  {
    var gone := LeaveIsSchedule(s, id);
    s' := Apply(gone, Return(id));
    LeadsThrough(s, gone, s') by { OneStep(gone, Return(id)); }
    assert s'.conns == gone.conns && id !in gone.conns && s'.tasks == gone.tasks[id := s'.tasks[id]];
    assert BoxesOf(s') == BoxesOf(gone);
  }

  /** A connection that hangs up cleans up: out of both stores, its outbox closed. */
  lemma HangupIsSchedule(s: State, id: Uuid) returns (s': State)
    requires Enabled(s, Hangup(id)) && s.sessionsLock == Free
    ensures Leads(s, s') && ViewOf(s') == Left(ViewOf(s), id) && id in s'.tasks && s'.tasks[id].pc == Closed
  {
    var leaving := Apply(s, Hangup(id));
    OneStep(s, Hangup(id));
    SameBoxes(s, leaving, id);
    s' := LeavesForGood(leaving, id);
    LeadsThrough(s, leaving, s');
  }

  lemma LeaveIsSchedule(s: State, id: Uuid) returns (s': State)
    requires Enabled(s, Step.Leave(id))
    ensures Leads(s, s') && ViewOf(s') == Left(ViewOf(s), id)
    ensures id in s'.tasks && s'.tasks[id].pc == Returning && id !in s'.conns
  {
    var one := Apply(s, Step.Leave(id));
    s' := Apply(one, Unlink(id));
    OneStep(s, Step.Leave(id));
    OneStep(one, Unlink(id));
    LeadsThrough(s, one, s');
    assert BoxesOf(s') == BoxesOf(s) - {id};
  }

  lemma SweepIsSchedule(s: State, now: nat) returns (s': State)
    requires Enabled(s, ListStale(now))
    ensures Leads(s, s') && s'.sweeper == Idle && ViewOf(s') == Swept(ViewOf(s), now)
  {
    OneStep(s, ListStale(now));
    s' := Apply(s, ListStale(now));
    if s'.sweeper.Listed? {
      var listed := s';
      s' := SweepingOn(listed);
      LeadsThrough(s, listed, s');
    }
    assert BoxesOf(s') == BoxesOf(s) - StaleIds(s.sessions, now);
  }

  lemma SweepingOn(s: State) returns (s': State)
    requires Enabled(s, StartSweep)
    ensures Leads(s, s') && s'.sweeper == Idle && s'.history == s.history
    ensures s'.sessions == s.sessions - s.sweeper.stale && BoxesOf(s') == BoxesOf(s) - s.sweeper.stale
  {
    var sweeping := Apply(s, StartSweep);
    s' := Apply(sweeping, Sweep);
    OneStep(sweeping, Sweep);
    LeadsOn(s, StartSweep, s');
  }

  lemma FinishIsSchedule(s: State, id: Uuid) returns (s': State)
    requires Enabled(s, Return(id))
    ensures Leads(s, s') && ViewOf(s') == Finished(ViewOf(s), id)
  {
    s' := Apply(s, Return(id));
    OneStep(s, Return(id));
    assert BoxesOf(s') == Finished(ViewOf(s), id).boxes;
  }
}
