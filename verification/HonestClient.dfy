/** A client that sends what its keys produce, in the room: over any schedule, whatever other tasks do
    meanwhile, the replay check never refuses it. */
module HonestClient {
  import opened Proto
  import opened RoomMachine
  import opened RoomInvariant
  import opened RoomRules
  import opened ClientUi
  import opened Client

  /** The counters of the messages a step receives from `id`. */
  ghost function OfferedNow(step: Step, id: Uuid): seq<u64> {
    if step.Receive? && step.id == id && step.frame.ClientMessage? then [step.frame.ad.counter] else []
  }

  /** The counters of the messages received from `id` along a schedule, in order. */
  ghost function Offered(steps: seq<Step>, id: Uuid): seq<u64> {
    if steps == [] then [] else Offered(steps[..|steps| - 1], id) + OfferedNow(steps[|steps| - 1], id)
  }

  function Last(cs: seq<u64>): u64 { if cs == [] then 0 else cs[|cs| - 1] }

  /** A message that has been received and not yet admitted. */
  ghost predicate Carries(pc: Pc, counter: u64) {
    || (pc.Handling? && pc.incoming.ClientMessage? && pc.incoming.ad.counter == counter)
    || (pc.Admitting? && pc.ad.counter == counter)
  }

  /** What went through is not ahead of what was received, and a message on its way is the last one
      received and ahead of all that went through. */
  ghost predicate InStep(t: Task, offered: seq<u64>) {
    && Highest(t.issued) <= Last(offered)
    && forall counter | Carries(t.pc, counter) :: counter == Last(offered) && Highest(t.issued) < counter
  }

  ghost predicate ClientInStep(s: State, id: Uuid, offered: seq<u64>) {
    if id in s.tasks then InStep(s.tasks[id], offered) else offered == []
  }

  lemma ReceivedInStep(t: Task, offered: seq<u64>, frame: ClientFrame)
    requires InStep(t, offered) && frame.ClientMessage? && Ascending(offered + [frame.ad.counter])
    ensures InStep(t.(pc := Handling(frame)), offered + [frame.ad.counter])
  {
    AscendingAppend(offered, frame.ad.counter);
  }

  lemma VettedInStep(t: Task, id: Uuid, offered: seq<u64>)
    requires InStep(t, offered) && t.pc.Handling?
    ensures InStep(t.(pc := Vet(t.pc.incoming, id, t.username)), offered)
  {
    forall counter | Carries(Vet(t.pc.incoming, id, t.username), counter) ensures Carries(t.pc, counter) {}
  }

  predicate AboutFrames(step: Step) {
    step.Receive? || step.Touch? || step.AdmitMessage? || step.AdmitClear?
  }

  /** The other steps let nothing through and bring no frame. */
  lemma OthersKeep(s: State, step: Step, id: Uuid)
    requires Enabled(s, step) && !AboutFrames(step)
    ensures var s' := Apply(s, step);
            if id in s.tasks then
              && id in s'.tasks && s'.tasks[id].issued == s.tasks[id].issued
              && (s'.tasks[id].pc == s.tasks[id].pc || !(s'.tasks[id].pc.Handling? || s'.tasks[id].pc.Admitting?))
            else
              id in s'.tasks ==> s'.tasks[id].issued == [] && s'.tasks[id].pc == Registering
  {
  }

  lemma FramesInStep(s: State, step: Step, id: Uuid, offered: seq<u64>)
    requires ClientInStep(s, id, offered) && Enabled(s, step) && AboutFrames(step)
    requires Ascending(offered + OfferedNow(step, id))
    ensures ClientInStep(Apply(s, step), id, offered + OfferedNow(step, id))
  {
    if OfferedNow(step, id) != [] {
      ReceivedInStep(s.tasks[id], offered, step.frame);
    } else {
      assert offered + OfferedNow(step, id) == offered;
      match step
      case AdmitMessage(sender, at) => AdmittedInStep(s, sender, at, id, offered);
      case AdmitClear(sender, _) => HighestAppend(s.tasks[sender].issued, Cleared(sender, s.tasks[sender].username));
      case Touch(other, _) => if other == id { VettedInStep(s.tasks[id], id, offered); }
      case Receive(_, _) =>
    }
  }

  lemma StepsAlong(s: State, step: Step, id: Uuid, offered: seq<u64>)
    requires ClientInStep(s, id, offered) && Enabled(s, step) && Ascending(offered + OfferedNow(step, id))
    ensures ClientInStep(Apply(s, step), id, offered + OfferedNow(step, id))
  {
    if AboutFrames(step) {
      FramesInStep(s, step, id, offered);
    } else {
      assert offered + OfferedNow(step, id) == offered;
      OthersKeep(s, step, id);
    }
  }

  lemma AdmittedInStep(s: State, sender: Uuid, at: nat, id: Uuid, offered: seq<u64>)
    requires ClientInStep(s, id, offered) && Enabled(s, AdmitMessage(sender, at))
    ensures ClientInStep(MessageAdmitted(s, sender, at), id, offered)
  {
    MessageAdmittedCases(s, sender, at);
    var t := s.tasks[sender];
    if sender == id {
      assert Carries(t.pc, t.pc.ad.counter);
      HighestAppend(t.issued, Message(RoomMessage(id, t.username, t.pc.ad, t.pc.ciphertext)));
    }
  }

  lemma {:induction false} AlwaysInStep(steps: seq<Step>, id: Uuid)
    requires After(steps).Some? && Ascending(Offered(steps, id))
    ensures ClientInStep(After(steps).value, id, Offered(steps, id))
  {
    if steps != [] {
      var n := |steps| - 1;
      var before := Offered(steps[..n], id);
      assert Ascending(before) by { assert forall i | 0 <= i < |before| :: Offered(steps, id)[i] == before[i]; }
      AlwaysInStep(steps[..n], id);
      StepsAlong(After(steps[..n]).value, steps[n], id, before);
    }
  }

  /** If the messages a session has offered ascend, the next one is never refused as a replay: when it
      is up for admission and the session still exists, its counter is above the session's. */
  lemma AscendingNeverRefused(steps: seq<Step>, id: Uuid)
    requires After(steps).Some? && Ascending(Offered(steps, id))
    ensures var s := After(steps).value;
            id in s.tasks && id in s.sessions && s.tasks[id].pc.Admitting? ==>
              s.tasks[id].pc.ad.counter > s.sessions[id].lastCounter
  {
    var s := After(steps).value;
    AlwaysInStep(steps, id);
    RememberedAlways(steps);
    if id in s.tasks && id in s.sessions && s.tasks[id].pc.Admitting? {
      assert Carries(s.tasks[id].pc, s.tasks[id].pc.ad.counter);
      assert Remembers(s.tasks[id], s.sessions[id]);
    }
  }

  /** So is an honest client's message, over a link that delivers what the client sent, in order and up
      to some point, as long as the client's next counter is below the largest value; it is so for its
      first 2^64 - 3 events at least. */
  lemma HonestNeverRefused(steps: seq<Step>, id: Uuid, username: Bytes, open: Opener, history: seq<RoomMessage>, joined: nat, es: seq<Event>)
    requires After(steps).Some?
    requires var v := Seed(NewView(username, id), open, history, joined);
             Offered(steps, id) <= SentCounters(v, open, es) && Live(v, open, es).nextCounter < U64_MAX
    ensures var s := After(steps).value;
            id in s.tasks && id in s.sessions && s.tasks[id].pc.Admitting? ==>
              s.tasks[id].pc.ad.counter > s.sessions[id].lastCounter
  {
    var v := Seed(NewView(username, id), open, history, joined);
    SeedCounter(NewView(username, id), open, history, joined);
    SentAscending(v, open, es);
    var sent, offered := SentCounters(v, open, es), Offered(steps, id);
    assert Ascending(offered) by { assert forall i | 0 <= i < |offered| :: offered[i] == sent[i]; }
    AscendingNeverRefused(steps, id);
  }

  /** The largest value is 2^64 - 2 events away at least. */
  lemma SaturationIsFar(id: Uuid, username: Bytes, open: Opener, history: seq<RoomMessage>, joined: nat, es: seq<Event>)
    requires |es| < U64_MAX as int - 1
    ensures Live(Seed(NewView(username, id), open, history, joined), open, es).nextCounter < U64_MAX
  {
    SeedCounter(NewView(username, id), open, history, joined);
    SentAscending(Seed(NewView(username, id), open, history, joined), open, es);
  }
}
