/** What is typed as a secret stays out of the room's history: a law across a client's keys, the checks
    of the server and every schedule of the room. */
module Secrets {
  import opened Proto
  import opened Texts
  import opened ClientUi
  import opened Client
  import opened RoomMachine
  import opened RoomLogs
  import opened RoomInvariant
  import opened RoomSteps
  import opened RoomTheorems
  import opened HonestClient

  // ----- what is broadcast was received -----

  /** Some step of the schedule received the frame from `id`. */
  ghost predicate Received(steps: seq<Step>, id: Uuid, frame: ClientFrame) {
    Receive(id, frame) in steps
  }

  /** A frame the task has yet to deal with. */
  ghost predicate Holds(pc: Pc, frame: ClientFrame) {
    || (pc.Handling? && pc.incoming == frame)
    || (pc.Admitting? && frame == ClientMessage(pc.ad, pc.ciphertext))
    || (pc.AskingClear? && frame == ClientFrame.Clear)
  }

  /** Whatever the task broadcasts or is dealing with came in a frame it received. */
  ghost predicate Sourced(t: Task, id: Uuid, steps: seq<Step>) {
    && (forall frame | Holds(t.pc, frame) :: Received(steps, id, frame))
    && (forall m | Message(m) in t.issued :: Received(steps, id, ClientMessage(m.ad, m.ciphertext)))
    && (forall f | f in t.issued && f.Cleared? :: Received(steps, id, ClientFrame.Clear))
  }

  ghost predicate AllSourced(s: State, steps: seq<Step>) {
    forall id | id in s.tasks :: Sourced(s.tasks[id], id, steps)
  }

  lemma SourcedLater(t: Task, id: Uuid, steps: seq<Step>, step: Step)
    requires Sourced(t, id, steps)
    ensures Sourced(t, id, steps + [step])
  {
    forall frame | Received(steps, id, frame) ensures Received(steps + [step], id, frame) {}
  }

  lemma AdmittedSourced(s: State, sender: Uuid, at: nat, id: Uuid, steps: seq<Step>)
    requires AllSourced(s, steps) && Enabled(s, AdmitMessage(sender, at)) && id in s.tasks
    ensures Sourced(MessageAdmitted(s, sender, at).tasks[id], id, steps)
  {
    MessageAdmittedCases(s, sender, at);
    assert Sourced(s.tasks[id], id, steps);
    if id == sender {
      var t := s.tasks[id];
      assert Holds(t.pc, ClientMessage(t.pc.ad, t.pc.ciphertext));
    }
  }

  lemma ClearSourced(s: State, sender: Uuid, at: nat, id: Uuid, steps: seq<Step>)
    requires AllSourced(s, steps) && Enabled(s, AdmitClear(sender, at)) && id in s.tasks
    ensures Sourced(ClearAdmitted(s, sender, at).tasks[id], id, steps)
  {
    assert Sourced(s.tasks[id], id, steps);
    if id == sender { assert Holds(s.tasks[id].pc, ClientFrame.Clear); }
  }

  lemma VettedSourced(t: Task, id: Uuid, steps: seq<Step>)
    requires Sourced(t, id, steps) && t.pc.Handling?
    ensures Sourced(t.(pc := Vet(t.pc.incoming, id, t.username)), id, steps)
  {
    assert Holds(t.pc, t.pc.incoming);
    forall frame | Holds(Vet(t.pc.incoming, id, t.username), frame) ensures frame == t.pc.incoming {}
  }

  /** The steps that have nothing to do with incoming frames bring a task no frame. */
  lemma OthersBringNone(s: State, step: Step, id: Uuid)
    requires Enabled(s, step) && !AboutFrames(step) && id in s.tasks
    ensures id in Apply(s, step).tasks && Apply(s, step).tasks[id].issued == s.tasks[id].issued
    ensures var pc := Apply(s, step).tasks[id].pc;
            pc == s.tasks[id].pc || !(pc.Handling? || pc.Admitting? || pc.AskingClear?)
  {
  }

  lemma StepSourced(s: State, step: Step, id: Uuid, steps: seq<Step>)
    requires AllSourced(s, steps) && Enabled(s, step) && id in Apply(s, step).tasks
    ensures Sourced(Apply(s, step).tasks[id], id, steps + [step])
  {
    if id !in s.tasks {
      OthersKeep(s, step, id);
    } else if AboutFrames(step) {
      FrameStepSourced(s, step, id, steps);
    } else {
      OthersBringNone(s, step, id);
      SourcedLater(s.tasks[id], id, steps, step);
    }
  }

  lemma FrameStepSourced(s: State, step: Step, id: Uuid, steps: seq<Step>)
    requires AllSourced(s, steps) && Enabled(s, step) && AboutFrames(step) && id in s.tasks
    ensures Sourced(Apply(s, step).tasks[id], id, steps + [step])
  {
    match step
    case AdmitMessage(sender, at) =>
      AdmittedSourced(s, sender, at, id, steps);
      SourcedLater(Apply(s, step).tasks[id], id, steps, step);
    case AdmitClear(sender, at) =>
      ClearSourced(s, sender, at, id, steps);
      SourcedLater(Apply(s, step).tasks[id], id, steps, step);
    case Touch(other, _) =>
      if other == id { VettedSourced(s.tasks[id], id, steps); }
      SourcedLater(Apply(s, step).tasks[id], id, steps, step);
    case Receive(_, _) =>
      SourcedLater(s.tasks[id], id, steps, step);
  }

  /** Nothing is broadcast that was not received, frame for frame, from the one it is broadcast for. */
  lemma {:induction false} BroadcastsWereReceived(steps: seq<Step>)
    requires After(steps).Some?
    ensures AllSourced(After(steps).value, steps)
  {
    if steps != [] {
      var n := |steps| - 1;
      BroadcastsWereReceived(steps[..n]);
      assert steps == steps[..n] + [steps[n]];
      forall id | id in After(steps).value.tasks ensures Sourced(After(steps).value.tasks[id], id, steps) {
        StepSourced(After(steps[..n]).value, steps[n], id, steps[..n]);
      }
    }
  }

  // ----- what a client's keys send -----

  /** Pressing the key of event `n` sends the frame. */
  ghost predicate Sends(v: View, open: Opener, es: seq<Event>, n: nat, frame: ClientFrame)
    requires n < |es|
  {
    es[n].Pressed? && OnKey(Live(v, open, es[..n]), es[n].key, es[n].env).1 == Send(frame)
  }

  /** The line entered with event `n`. */
  ghost function LineAt(v: View, open: Opener, es: seq<Event>, n: nat): Text
    requires n < |es|
  {
    TrimEnd(Live(v, open, es[..n]).input)
  }

  /** Of a client, the schedule receives only what its keys sent. */
  ghost predicate FromKeys(steps: seq<Step>, id: Uuid, v: View, open: Opener, es: seq<Event>) {
    forall frame | Received(steps, id, frame) :: exists n :: 0 <= n < |es| && Sends(v, open, es, n, frame)
  }

  /** A message the keys sent is ephemeral exactly if the line asked for it. */
  lemma SentAsTyped(v: View, open: Opener, es: seq<Event>, n: nat, ad: MessageAd, ciphertext: Bytes)
    requires n < |es| && Sends(v, open, es, n, ClientMessage(ad, ciphertext))
    ensures es[n].key == Enter && (ad.ephemeral <==> SecretLine(LineAt(v, open, es, n)))
  {
    var before := Live(v, open, es[..n]);
    if es[n].key == Enter {
      LineEffect(before, es[n].env);
    } else {
      KeyEffect(before, es[n].key, es[n].env);
    }
  }

  /** The history holds the message, or held it when some connection took its Welcome from it. */
  ghost predicate Kept(s: State, m: RoomMessage) {
    m in s.history || exists x :: x in s.tasks && TookHistory(s.tasks[x]) && m in HistoryTaken(s.tasks[x])
  }

  lemma KeptIsDurable(s: State, m: RoomMessage)
    requires Reachable(s) && Kept(s, m)
    ensures !m.ad.ephemeral && m.from in s.tasks && Message(m) in s.tasks[m.from].issued
  {
    ReachableOk(s);
    if m in s.history {
      HistoryMember(s, m);
    } else {
      var x :| x in s.tasks && TookHistory(s.tasks[x]) && m in HistoryTaken(s.tasks[x]);
      TaskFacts(s, x);
      RecordedMember(s, s.recorded[..s.tasks[x].historyAt], m);
    }
  }

  /** Every message of a client's in the history or in anyone's Welcome was typed by it as an ordinary
      line, whatever the schedule. */
  lemma KeptWasTypedOpenly(steps: seq<Step>, id: Uuid, v: View, open: Opener, es: seq<Event>, m: RoomMessage) returns (n: nat)
    requires After(steps).Some? && FromKeys(steps, id, v, open, es) && m.from == id && Kept(After(steps).value, m)
    ensures n < |es| && Sends(v, open, es, n, ClientMessage(m.ad, m.ciphertext)) && !SecretLine(LineAt(v, open, es, n))
  {
    var s := After(steps).value;
    KeptIsDurable(s, m);
    BroadcastsWereReceived(steps);
    assert Sourced(s.tasks[id], id, steps);
    assert Received(steps, id, ClientMessage(m.ad, m.ciphertext));
    n :| 0 <= n < |es| && Sends(v, open, es, n, ClientMessage(m.ad, m.ciphertext));
    SentAsTyped(v, open, es, n, m.ad, m.ciphertext);
  }

  /** And what was typed as a secret is in no history and in nobody's Welcome: no message there has the
      metadata it was sent with. */
  lemma SecretIsNeverKept(steps: seq<Step>, v: View, open: Opener, es: seq<Event>, n: nat, ad: MessageAd, ciphertext: Bytes, m: RoomMessage)
    requires After(steps).Some? && n < |es| && Sends(v, open, es, n, ClientMessage(ad, ciphertext))
    requires SecretLine(LineAt(v, open, es, n)) && m.ad == ad
    ensures !Kept(After(steps).value, m)
  {
    SentAsTyped(v, open, es, n, ad, ciphertext);
    if Kept(After(steps).value, m) { KeptIsDurable(After(steps).value, m); }
  }
}
