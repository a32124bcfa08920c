/** The three stores of a room: the replay history, the sessions and the connections. Each operation
    is a function on the store's contents, which the room's step machine uses, and a method of the
    store proved to compute it. */
module Stores {
  import opened Proto
  import opened SlidingWindow

  const SECOND: nat := 1_000_000_000
  const SESSION_TIMEOUT: nat := 3600 * SECOND
  const MSG_RATE_MAX: nat := 30
  const MSG_RATE_WINDOW: nat := 10 * SECOND
  const CLEAR_COOLDOWN: nat := 30 * SECOND
  const OUTBOX_DEPTH: nat := 64

  // ----- history -----

  function PushHistory(history: seq<RoomMessage>, m: RoomMessage): seq<RoomMessage> {
    (if |history| == HISTORY_LEN then history[1..] else history) + [m]
  }

  class MessageStore {
    var history: seq<RoomMessage>

    constructor ()
      ensures history == []
    {
      history := [];
    }

    method Push(msg: RoomMessage)
      modifies this
      ensures history == PushHistory(old(history), msg)
    {
      if |history| == HISTORY_LEN {
        history := history[1..];
      }
      history := history + [msg];
    }

    method Snapshot() returns (r: seq<RoomMessage>)
      ensures r == history
    {
      r := history;
    }

    method Clear()
      modifies this
      ensures history == []
    {
      history := [];
    }
  }

  // ----- sessions -----

  datatype Session = Session(
    username: Bytes,
    lastActive: nat,
    lastCounter: u64,
    messageWindow: seq<nat>,
    lastClear: Option<nat>)

  type Sessions = map<Uuid, Session>

  function InsertSession(ss: Sessions, id: Uuid, username: Bytes, now: nat): Sessions {
    ss[id := Session(username, now, 0, [], None)]
  }

  function TouchSession(ss: Sessions, id: Uuid, now: nat): Sessions {
    if id in ss then ss[id := ss[id].(lastActive := now)] else ss
  }

  /** Replay protection: only a strictly larger counter is accepted, and then remembered. */
  function AdvanceCounter(ss: Sessions, id: Uuid, counter: u64): (Sessions, bool) {
    if id in ss && counter > ss[id].lastCounter
    then (ss[id := ss[id].(lastCounter := counter)], true)
    else (ss, false)
  }

  function ConsumeQuota(ss: Sessions, id: Uuid, now: nat): (Sessions, bool) {
    if id !in ss then (ss, false)
    else
      var (q, ok) := Admit(ss[id].messageWindow, now, MSG_RATE_WINDOW, MSG_RATE_MAX);
      (ss[id := ss[id].(messageWindow := q)], ok)
  }

  function ConsumeClear(ss: Sessions, id: Uuid, now: nat): (Sessions, bool) {
    if id !in ss then (ss, false)
    else if ss[id].lastClear.Some? && now - ss[id].lastClear.value < CLEAR_COOLDOWN then (ss, false)
    else (ss[id := ss[id].(lastClear := Some(now))], true)
  }

  function StaleIds(ss: Sessions, now: nat): set<Uuid> {
    set id | id in ss && now - ss[id].lastActive > SESSION_TIMEOUT
  }

  class UserSessionStore {
    var sessions: Sessions

    constructor ()
      ensures sessions == map[]
    {
      sessions := map[];
    }

    method Insert(id: Uuid, username: Bytes, now: nat)
      modifies this
      ensures sessions == InsertSession(old(sessions), id, username, now)
    {
      sessions := sessions[id := Session(username, now, 0, [], None)];
    }

    method Touch(id: Uuid, now: nat)
      modifies this
      ensures sessions == TouchSession(old(sessions), id, now)
    {
      if id in sessions {
        sessions := sessions[id := sessions[id].(lastActive := now)];
      }
    }

    method TryAdvanceCounter(id: Uuid, counter: u64) returns (ok: bool)
      modifies this
      ensures (sessions, ok) == AdvanceCounter(old(sessions), id, counter)
    {
      ok := false;
      if id in sessions && counter > sessions[id].lastCounter {
        sessions := sessions[id := sessions[id].(lastCounter := counter)];
        ok := true;
      }
    }

    method TryConsumeMessageQuota(id: Uuid, now: nat) returns (ok: bool)
      modifies this
      ensures (sessions, ok) == ConsumeQuota(old(sessions), id, now)
    {
      if id !in sessions {
        return false;
      }
      var window := PopExpired(sessions[id].messageWindow, now, MSG_RATE_WINDOW);
      ok := |window| < MSG_RATE_MAX;
      if ok {
        window := window + [now];
      }
      sessions := sessions[id := sessions[id].(messageWindow := window)];
    }

    method TryConsumeClear(id: Uuid, now: nat) returns (ok: bool)
      modifies this
      ensures (sessions, ok) == ConsumeClear(old(sessions), id, now)
    {
      if id !in sessions {
        return false;
      }
      var prev := sessions[id].lastClear;
      if prev.Some? && now - prev.value < CLEAR_COOLDOWN {
        return false;
      }
      sessions := sessions[id := sessions[id].(lastClear := Some(now))];
      ok := true;
    }

    method Remove(id: Uuid)
      modifies this
      ensures sessions == old(sessions) - {id}
    {
      sessions := sessions - {id};
    }

    /** The ids of sessions idle for longer than the timeout, each once. */
    method Stale(now: nat) returns (ids: seq<Uuid>)
      ensures forall id :: id in ids <==> id in StaleIds(sessions, now)
      ensures forall i, j | 0 <= i < j < |ids| :: ids[i] != ids[j]
    {
      ids := [];
      var todo := sessions.Keys;
      while todo != {}
        invariant todo <= sessions.Keys
        invariant forall id :: id in ids <==> id in StaleIds(sessions, now) && id !in todo
        invariant forall i, j | 0 <= i < j < |ids| :: ids[i] != ids[j]
        decreases |todo|
      {
        var id :| id in todo;
        if now - sessions[id].lastActive > SESSION_TIMEOUT {
          ids := ids + [id];
        }
        todo := todo - {id};
      }
    }
  }

  // ----- connections -----

  datatype SendResult = Sent | Full | ChannelClosed

  /** A bounded outbox: broadcasters hold its sending end, the connection's task its receiving end. */
  class Outbox {
    var queue: seq<ServerFrame>
    var closed: bool

    constructor ()
      ensures queue == [] && !closed
    {
      queue := [];
      closed := false;
    }

    /** Never waits: a full or closed outbox refuses the frame. */
    method TrySend(f: ServerFrame) returns (r: SendResult)
      modifies this`queue
      ensures r.Sent? <==> Accepts(old(queue), closed)
      ensures r == ChannelClosed <==> closed
      ensures queue == if r.Sent? then old(queue) + [f] else old(queue)
    {
      if closed {
        r := ChannelClosed;
      } else if |queue| >= OUTBOX_DEPTH {
        r := Full;
      } else {
        queue := queue + [f];
        r := Sent;
      }
    }

    /** The receiving end is dropped: nothing is taken any more. */
    method Close()
      modifies this`closed
      ensures closed
    {
      closed := true;
    }

    method Receive() returns (f: Option<ServerFrame>)
      modifies this`queue
      ensures f == if old(queue) == [] then None else Some(old(queue)[0])
      ensures queue == if old(queue) == [] then [] else old(queue)[1..]
    {
      f := None;
      if queue != [] {
        f := Some(queue[0]);
        queue := queue[1..];
      }
    }
  }

  predicate Accepts(queue: seq<ServerFrame>, closed: bool) {
    !closed && |queue| < OUTBOX_DEPTH
  }

  class ConnectionManager {
    var senders: map<Uuid, Outbox>

    constructor ()
      ensures senders == map[]
    {
      senders := map[];
    }

    method Insert(id: Uuid, tx: Outbox)
      modifies this
      ensures senders == old(senders)[id := tx]
    {
      senders := senders[id := tx];
    }

    method Remove(id: Uuid)
      modifies this
      ensures senders == old(senders) - {id}
    {
      senders := senders - {id};
    }

    /** Every connection once, in no particular order. */
    method Snapshot() returns (r: seq<(Uuid, Outbox)>)
      ensures forall i {:trigger r[i]} | 0 <= i < |r| :: r[i].0 in senders && senders[r[i].0] == r[i].1
      ensures forall id | id in senders :: exists i :: 0 <= i < |r| && r[i].0 == id
      ensures forall i, j | 0 <= i < j < |r| :: r[i].0 != r[j].0
    {
      r := [];
      var todo := senders.Keys;
      while todo != {}
        invariant todo <= senders.Keys
        invariant forall i {:trigger r[i]} | 0 <= i < |r| ::
                    r[i].0 !in todo && r[i].0 in senders && senders[r[i].0] == r[i].1
        invariant forall id | id in senders && id !in todo :: exists i :: 0 <= i < |r| && r[i].0 == id
        invariant forall i, j | 0 <= i < j < |r| :: r[i].0 != r[j].0
        decreases |todo|
      {
        var id :| id in todo;
        ghost var before := r;
        r := r + [(id, senders[id])];
        todo := todo - {id};
        forall other | other in senders && other !in todo ensures exists i :: 0 <= i < |r| && r[i].0 == other {
          if other == id {
            assert r[|r| - 1].0 == id;
          } else {
            var i :| 0 <= i < |before| && before[i].0 == other;
            assert r[i].0 == other;
          }
        }
      }
    }
  }
}
