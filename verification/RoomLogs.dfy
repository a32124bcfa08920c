/** The logs of a room, and what is read off them: one sender's frames, the frames that reach the
    history, and the history itself as the end of its log. */
module RoomLogs {
  import opened Proto
  import opened RoomMachine

  predicate SentBy(f: ServerFrame, a: Uuid) {
    match f
    case Message(m) => m.from == a
    case Cleared(author, _) => author == a
    case _ => false
  }

  /** The frames of one sender, in order. */
  ghost function From(fs: seq<ServerFrame>, a: Uuid): seq<ServerFrame> {
    if fs == [] then []
    else From(fs[..|fs| - 1], a) + if SentBy(fs[|fs| - 1], a) then [fs[|fs| - 1]] else []
  }

  /** Does the frame go through the history? Ephemeral messages do not. */
  predicate Durable(f: ServerFrame) {
    match f
    case Message(m) => !m.ad.ephemeral
    case Cleared(_, _) => true
    case _ => false
  }

  ghost function DurableOf(fs: seq<ServerFrame>): seq<ServerFrame> {
    if fs == [] then []
    else DurableOf(fs[..|fs| - 1]) + if Durable(fs[|fs| - 1]) then [fs[|fs| - 1]] else []
  }

  /** Counters strictly increase along the messages. */
  ghost predicate Increasing(fs: seq<ServerFrame>) {
    forall i, j | 0 <= i < j < |fs| && fs[i].Message? && fs[j].Message? :: fs[i].msg.ad.counter < fs[j].msg.ad.counter
  }

  /** Counters strictly increase along the messages of each sender. */
  ghost predicate IncreasingPerSender(fs: seq<ServerFrame>) {
    forall i, j | 0 <= i < j < |fs| && fs[i].Message? && fs[j].Message? && fs[i].msg.from == fs[j].msg.from ::
      fs[i].msg.ad.counter < fs[j].msg.ad.counter
  }

  ghost function MessageCount(fs: seq<ServerFrame>): nat {
    if fs == [] then 0 else MessageCount(fs[..|fs| - 1]) + if fs[|fs| - 1].Message? then 1 else 0
  }

  // ----- appending -----

  lemma FromAppend(fs: seq<ServerFrame>, f: ServerFrame, a: Uuid)
    ensures From(fs + [f], a) == From(fs, a) + if SentBy(f, a) then [f] else []
  {
    assert (fs + [f])[..|fs|] == fs;
  }

  lemma DurableAppend(fs: seq<ServerFrame>, f: ServerFrame)
    ensures DurableOf(fs + [f]) == DurableOf(fs) + if Durable(f) then [f] else []
  {
    assert (fs + [f])[..|fs|] == fs;
  }

  lemma MessageCountAppend(fs: seq<ServerFrame>, f: ServerFrame)
    ensures MessageCount(fs + [f]) == MessageCount(fs) + if f.Message? then 1 else 0
  {
    assert (fs + [f])[..|fs|] == fs;
  }

  // ----- members and prefixes -----

  lemma {:induction false} FromMembers(fs: seq<ServerFrame>, a: Uuid, f: ServerFrame)
    ensures f in From(fs, a) <==> f in fs && SentBy(f, a)
  {
    if fs != [] {
      FromMembers(fs[..|fs| - 1], a, f);
      assert fs == fs[..|fs| - 1] + [fs[|fs| - 1]];
    }
  }

  lemma {:induction false} DurableMembers(fs: seq<ServerFrame>, f: ServerFrame)
    ensures f in DurableOf(fs) <==> f in fs && Durable(f)
  {
    if fs != [] {
      DurableMembers(fs[..|fs| - 1], f);
      assert fs == fs[..|fs| - 1] + [fs[|fs| - 1]];
    }
  }

  lemma {:induction false} FromPrefix(fs: seq<ServerFrame>, n: nat, a: Uuid)
    requires n <= |fs|
    ensures From(fs[..n], a) <= From(fs, a)
    decreases |fs|
  {
    if n == |fs| {
      assert fs[..n] == fs;
    } else {
      FromPrefix(fs[..|fs| - 1], n, a);
      assert fs[..|fs| - 1][..n] == fs[..n];
    }
  }

  lemma {:induction false} DurablePrefix(fs: seq<ServerFrame>, n: nat)
    requires n <= |fs|
    ensures DurableOf(fs[..n]) <= DurableOf(fs)
    decreases |fs|
  {
    if n == |fs| {
      assert fs[..n] == fs;
    } else {
      DurablePrefix(fs[..|fs| - 1], n);
      assert fs[..|fs| - 1][..n] == fs[..n];
    }
  }

  lemma IncreasingPrefix(fs: seq<ServerFrame>, gs: seq<ServerFrame>)
    requires fs <= gs && Increasing(gs)
    ensures Increasing(fs)
  {
    assert forall i | 0 <= i < |fs| :: fs[i] == gs[i];
  }

  lemma {:induction false} DurableIncreasing(fs: seq<ServerFrame>)
    requires Increasing(fs)
    ensures Increasing(DurableOf(fs))
  {
    if fs != [] {
      var n := |fs| - 1;
      DurableIncreasing(fs[..n]);
      forall f | f in DurableOf(fs[..n]) && f.Message? && fs[n].Message?
        ensures f.msg.ad.counter < fs[n].msg.ad.counter
      {
        DurableMembers(fs[..n], f);
      }
    }
  }

  /** If each sender's frames are increasing, the whole log is increasing per sender. */
  lemma {:induction false} FromIncreasing(fs: seq<ServerFrame>)
    requires forall a :: Increasing(From(fs, a))
    ensures IncreasingPerSender(fs)
  {
    if fs != [] {
      var n := |fs| - 1;
      forall a ensures Increasing(From(fs[..n], a)) {
        assert Increasing(From(fs, a));
        FromPrefix(fs, n, a);
        IncreasingPrefix(From(fs[..n], a), From(fs, a));
      }
      FromIncreasing(fs[..n]);
      if fs[n].Message? {
        var a := fs[n].msg.from;
        assert Increasing(From(fs, a));
        forall i | 0 <= i < n && fs[i].Message? && fs[i].msg.from == a
          ensures fs[i].msg.ad.counter < fs[n].msg.ad.counter
        {
          FromMembers(fs[..n], a, fs[i]);
          assert fs[i] == fs[..n][i];
          var k :| 0 <= k < |From(fs[..n], a)| && From(fs[..n], a)[k] == fs[i];
          assert From(fs, a) == From(fs[..n], a) + [fs[n]];
          assert From(fs, a)[k] == fs[i] && From(fs, a)[|From(fs[..n], a)|] == fs[n];
        }
      }
      assert forall i | 0 <= i < n :: fs[..n][i] == fs[i];
    }
  }

  // ----- the history as a function of its log -----

  /** What the store holds after a log of pushes and wipes. */
  ghost function Replay(log: seq<ServerFrame>): seq<RoomMessage> {
    if log == [] then [] else ApplyRecord(Replay(log[..|log| - 1]), log[|log| - 1])
  }

  /** The messages pushed since the last wipe. */
  ghost function SinceWipe(log: seq<ServerFrame>): seq<RoomMessage> {
    if log == [] || !log[|log| - 1].Message? then []
    else SinceWipe(log[..|log| - 1]) + [log[|log| - 1].msg]
  }

  ghost function LastUpTo(ms: seq<RoomMessage>, n: nat): seq<RoomMessage> {
    if |ms| <= n then ms else ms[|ms| - n..]
  }

  /** The ring holds the last HISTORY_LEN messages pushed since the last wipe. */
  lemma {:induction false} ReplayIsLast(log: seq<ServerFrame>)
    ensures Replay(log) == LastUpTo(SinceWipe(log), HISTORY_LEN)
  {
    if log != [] {
      ReplayIsLast(log[..|log| - 1]);
    }
  }

  lemma ReplayAppend(log: seq<ServerFrame>, f: ServerFrame)
    ensures Replay(log + [f]) == ApplyRecord(Replay(log), f)
  {
    assert (log + [f])[..|log|] == log;
  }

  /** Entry `i` of the messages since the last wipe is the log entry as many places from the end, and
      nothing from there on is a wipe. */
  lemma {:induction false} SinceWipeEntries(log: seq<ServerFrame>)
    ensures |SinceWipe(log)| <= |log|
    ensures forall i | 0 <= i < |SinceWipe(log)| ::
              log[|log| - |SinceWipe(log)| + i] == Message(SinceWipe(log)[i])
    ensures |SinceWipe(log)| < |log| ==> !log[|log| - |SinceWipe(log)| - 1].Message?
  {
    if log != [] && log[|log| - 1].Message? {
      SinceWipeEntries(log[..|log| - 1]);
    }
  }

  /** Something after entry `k` pushed it out: a wipe, or HISTORY_LEN further pushes. */
  ghost predicate Displaced(log: seq<ServerFrame>, k: nat)
    requires k < |log|
  {
    || (exists w | k < w < |log| :: !log[w].Message?)
    || |log| - k > HISTORY_LEN
  }

  /** A logged message is still in the history exactly when nothing pushed it out. */
  lemma InHistoryUnlessDisplaced(log: seq<ServerFrame>, k: nat)
    requires k < |log| && log[k].Message?
    ensures |log| - |Replay(log)| <= k <==> !Displaced(log, k)
    ensures !Displaced(log, k) ==> log[k].msg in Replay(log)
  {
    HistoryEntries(log);
    ReplayIsLast(log);
    SinceWipeEntries(log);
    var start := |log| - |SinceWipe(log)|;
    if start <= k {
      forall w | k < w < |log| ensures log[w].Message? {
        assert log[start + (w - start)] == Message(SinceWipe(log)[w - start]);
      }
    } else {
      var wipe := start - 1;
      assert !log[wipe].Message? && k <= wipe;
    }
    var from := |log| - |Replay(log)|;
    if from <= k { assert log[from + (k - from)] == Message(Replay(log)[k - from]); }
  }

  /** The history's entries are the messages of an end of its log. */
  lemma HistoryEntries(log: seq<ServerFrame>)
    ensures |Replay(log)| <= |log| && |Replay(log)| <= HISTORY_LEN
    ensures forall i | 0 <= i < |Replay(log)| :: log[|log| - |Replay(log)| + i] == Message(Replay(log)[i])
  {
    ReplayIsLast(log);
    SinceWipeEntries(log);
  }
}
