/** What stands on a client's screen, as a function of the history and the frames it was sent. */
module Screens {
  import opened Proto
  import opened Client

  /** The messages among frames. */
  ghost function MessagesIn(fs: seq<ServerFrame>): seq<RoomMessage> {
    if fs == [] then []
    else MessagesIn(fs[..|fs| - 1]) + if fs[|fs| - 1].Message? then [fs[|fs| - 1].msg] else []
  }

  /** The messages on screen after a Welcome with history `w` and then `fs`: the history and what the
      replay check lets through, wiped by every clear. What the client has seen is not wiped. */
  ghost function Screen(w: seq<RoomMessage>, fs: seq<ServerFrame>): seq<RoomMessage> {
    if fs == [] then w
    else
      var n := |fs| - 1;
      match fs[n]
      case Message(m) => Screen(w, fs[..n]) + if Shows(w + MessagesIn(fs[..n]), m) then [m] else []
      case Cleared(_, _) => []
      case _ => Screen(w, fs[..n])
  }

  /** No clear comes after frame `n`; after frame -1 stands the whole stream. */
  ghost predicate NoClearAfter(fs: seq<ServerFrame>, n: int) {
    forall p | 0 <= p < |fs| && n < p :: !fs[p].Cleared?
  }

  // ----- orderly streams -----

  /** Both copies of a message's sender agree, and counters increase along each sender's messages. */
  ghost predicate Orderly(ms: seq<RoomMessage>) {
    && (forall i | 0 <= i < |ms| :: ms[i].ad.from == ms[i].from && ms[i].ad.counter > 0)
    && forall i, j | 0 <= i < j < |ms| && ms[i].from == ms[j].from :: ms[i].ad.counter < ms[j].ad.counter
  }

  lemma {:induction false} MessagesInMembers(fs: seq<ServerFrame>, m: RoomMessage)
    ensures m in MessagesIn(fs) <==> Message(m) in fs
  {
    if fs != [] {
      MessagesInMembers(fs[..|fs| - 1], m);
      assert fs == fs[..|fs| - 1] + [fs[|fs| - 1]];
    }
  }

  /** Along an orderly stream only the history can stand in a message's way. */
  lemma OrderlyTop(w: seq<RoomMessage>, live: seq<RoomMessage>, m: RoomMessage)
    requires Orderly(live + [m])
    ensures Shows(w + live, m) <==> Shows(w, m)
  {
    var earlier := w + live;
    TopCounterBounds(earlier, m.ad.from);
    TopCounterBounds(w, m.ad.from);
    assert (live + [m])[|live|] == m;
    assert forall i | 0 <= i < |live| :: (live + [m])[i] == live[i];
    assert forall i | |w| <= i < |earlier| :: earlier[i] == live[i - |w|];
    assert forall i | 0 <= i < |w| :: earlier[i] == w[i];
  }

  /** Where the message stands in the stream, beyond the replay check and unwiped. */
  ghost predicate ShownFrom(w: seq<RoomMessage>, fs: seq<ServerFrame>, m: RoomMessage) {
    exists n :: 0 <= n < |fs| && fs[n] == Message(m) && Shows(w, m) && NoClearAfter(fs, n)
  }

  /** On screen exactly: from the history with no clear since the Welcome, or from the stream past the
      history's counters with no clear since. */
  lemma {:induction false} ScreenExactly(w: seq<RoomMessage>, fs: seq<ServerFrame>, m: RoomMessage)
    requires Orderly(MessagesIn(fs))
    ensures m in Screen(w, fs) <==> (m in w && NoClearAfter(fs, -1)) || ShownFrom(w, fs, m)
  {
    if fs != [] {
      var n := |fs| - 1;
      var before := fs[..n];
      assert forall i | 0 <= i < n :: before[i] == fs[i];
      assert Orderly(MessagesIn(before)) by {
        assert forall i | 0 <= i < |MessagesIn(before)| :: MessagesIn(fs)[i] == MessagesIn(before)[i];
      }
      ScreenExactly(w, before, m);
      if fs[n].Message? {
        OrderlyTop(w, MessagesIn(before), fs[n].msg);
        assert NoClearAfter(fs, n);
      }
      forall i | -1 <= i < n ensures NoClearAfter(fs, i) <==> NoClearAfter(before, i) && !fs[n].Cleared? {
        ClearStep(fs, i);
      }
      if ShownFrom(w, before, m) && !fs[n].Cleared? {
        var i :| 0 <= i < n && before[i] == Message(m) && Shows(w, m) && NoClearAfter(before, i);
        assert fs[i] == Message(m) && NoClearAfter(fs, i);
      }
    }
  }

  lemma ClearStep(fs: seq<ServerFrame>, i: int)
    requires fs != [] && i < |fs| - 1
    ensures NoClearAfter(fs, i) <==> NoClearAfter(fs[..|fs| - 1], i) && !fs[|fs| - 1].Cleared?
  {
    assert forall p | 0 <= p < |fs| - 1 :: fs[..|fs| - 1][p] == fs[p];
  }
}
