/** Sessions that go: the sweeper's, and those a failed Welcome leaves behind. */
module RoomSweep {
  import opened Proto
  import opened Stores
  import opened RoomMachine
  import opened RoomInvariant
  import opened RoomSteps

  // ----- the sweeper -----

  /** The sweeper's list is from an earlier lock section. Each listed session was idle too long when
      the list was made, unless it has been active since. */
  ghost predicate ListedOk(s: State) {
    !s.sweeper.Idle? ==>
      && s.sweeper.listedAt <= s.now
      && forall id | id in s.sweeper.stale && id in s.sessions ::
           || s.sweeper.listedAt - s.sessions[id].lastActive > SESSION_TIMEOUT
           || s.sessions[id].lastActive >= s.sweeper.listedAt
  }

  lemma ListedKept(s: State, step: Step)
    requires ListedOk(s) && Enabled(s, step)
    ensures ListedOk(Apply(s, step))
  {
    match step
    case AdmitMessage(id, at) => MessageAdmittedCases(s, id, at);
    case _ =>
  }

  lemma {:induction false} ListedAlways(steps: seq<Step>)
    requires After(steps).Some?
    ensures ListedOk(After(steps).value)
  {
    if steps != [] {
      ListedAlways(steps[..|steps| - 1]);
      ListedKept(After(steps[..|steps| - 1]).value, steps[|steps| - 1]);
    }
  }

  /** Every session the sweeper removes that was not active since the listing is idle beyond the
      timeout; and when the sweep comes within the timeout of the listing, no other one is. */
  lemma SweptUnlessTouched(s: State, id: Uuid)
    requires Reachable(s) && Enabled(s, Sweep) && id in s.sweeper.stale && id in s.sessions
    ensures s.sessions[id].lastActive < s.sweeper.listedAt ==> s.now - s.sessions[id].lastActive > SESSION_TIMEOUT
    ensures s.now - s.sweeper.listedAt <= SESSION_TIMEOUT ==>
              (s.now - s.sessions[id].lastActive > SESSION_TIMEOUT <==> s.sessions[id].lastActive < s.sweeper.listedAt)
  {
    var steps :| After(steps) == Some(s);
    ListedAlways(steps);
  }

  // ----- who is stale -----

  ghost function HeardNow(step: Step, id: Uuid, before: nat): nat {
    match step
    case Register(other, _, at) => if other == id then at else before
    case Touch(other, at) => if other == id then at else before
    case _ => before
  }

  /** When the session was last heard from along a schedule: its registration or its last frame. */
  ghost function LastHeard(steps: seq<Step>, id: Uuid): nat {
    if steps == [] then 0 else HeardNow(steps[|steps| - 1], id, LastHeard(steps[..|steps| - 1], id))
  }

  lemma HeardStep(s: State, step: Step, id: Uuid, heard: nat)
    requires Enabled(s, step) && (id in s.sessions ==> s.sessions[id].lastActive == heard)
    ensures var s' := Apply(s, step);
            id in s'.sessions ==> s'.sessions[id].lastActive == HeardNow(step, id, heard)
  {
    if step.AdmitMessage? { MessageAdmittedCases(s, step.id, step.at); }
  }

  lemma {:induction false} HeardAlways(steps: seq<Step>, id: Uuid)
    requires After(steps).Some?
    ensures var s := After(steps).value;
            id in s.sessions ==> s.sessions[id].lastActive == LastHeard(steps, id)
  {
    if steps != [] {
      var n := |steps| - 1;
      HeardAlways(steps[..n], id);
      HeardStep(After(steps[..n]).value, steps[n], id, LastHeard(steps[..n], id));
    }
  }

  /** The sweeper lists exactly the sessions last heard from longer than the timeout ago, wherever in
      a schedule it looks. */
  lemma ListedExactly(steps: seq<Step>, at: nat)
    requires After(steps).Some? && Enabled(After(steps).value, ListStale(at))
    ensures var s := After(steps).value;
            var s' := Apply(s, ListStale(at));
            var stale := set id | id in s.sessions && at - LastHeard(steps, id) > SESSION_TIMEOUT;
            s'.sweeper == if stale == {} then Idle else Listed(stale, at)
  {
    var s := After(steps).value;
    forall id | id in s.sessions ensures s.sessions[id].lastActive == LastHeard(steps, id) { HeardAlways(steps, id); }
    assert StaleIds(s.sessions, at) == set id | id in s.sessions && at - LastHeard(steps, id) > SESSION_TIMEOUT;
  }

  // ----- leftovers of a failed Welcome -----

  /** What a step takes out of both stores on the sweeper's behalf. */
  ghost function SweptNow(s: State, step: Step): set<Uuid> {
    if step.Sweep? && s.sweeper.Sweeping? then s.sweeper.stale else {}
  }

  /** The connections a step drops because a broadcast could not reach them. */
  ghost function EvictedNow(s: State, step: Step): set<Uuid> {
    if step.Evict? && step.id in s.tasks && s.tasks[step.id].pc.Sending? then s.tasks[step.id].pc.dead else {}
  }

  /** Everything the sweeper has swept along a schedule. */
  ghost function SweptBy(steps: seq<Step>): set<Uuid>
    requires After(steps).Some?
  {
    if steps == [] then {}
    else
      var n := |steps| - 1;
      SweptBy(steps[..n]) + SweptNow(After(steps[..n]).value, steps[n])
  }

  /** Everything broadcasts have evicted along a schedule. */
  ghost function EvictedBy(steps: seq<Step>): set<Uuid>
    requires After(steps).Some?
  {
    if steps == [] then {}
    else
      var n := |steps| - 1;
      EvictedBy(steps[..n]) + EvictedNow(After(steps[..n]).value, steps[n])
  }

  /** A task that got its Welcome through removes its session on leaving, and then its connection. */
  predicate ConnLeft(t: Task) { (t.pc.Returning? || t.pc.Closed?) && t.welcome.Some? }

  predicate SessionLeft(t: Task) { t.pc.Unlinking? || ConnLeft(t) }

  /** Where a task stands in the stores: it is there until it leaves, is swept or is evicted. */
  predicate Entered(t: Task, inSessions: bool, inConns: bool, swept: bool, evicted: bool) {
    && (Joining(t.pc) ==> t.welcome == None)
    && (Active(t.pc) || t.pc.Leaving? || t.pc.Unlinking? ==> t.welcome.Some?)
    && (inSessions <==> !swept && !SessionLeft(t))
    && (inConns <==> !swept && !evicted && !ConnLeft(t) && !t.pc.Registering?)
    && (t.pc.Registering? ==> !swept && !evicted)
  }

  ghost predicate AllEntered(s: State, swept: set<Uuid>, evicted: set<Uuid>) {
    && swept <= s.tasks.Keys && evicted <= s.tasks.Keys
    && forall x {:trigger s.tasks[x]} | x in s.tasks ::
         Entered(s.tasks[x], x in s.sessions, x in s.conns, x in swept, x in evicted)
  }

  /** The sweeper only ever lists tasks that are past their registration. */
  ghost predicate ListsTasks(s: State) {
    !s.sweeper.Idle? ==> forall x | x in s.sweeper.stale :: x in s.tasks && !s.tasks[x].pc.Registering?
  }

  /** Nobody enters or leaves a store, and no task but an active one moves, to stay active or to leave. */
  ghost predicate Talk(s: State, s': State) {
    && s'.tasks.Keys == s.tasks.Keys && s'.sessions.Keys == s.sessions.Keys && s'.conns == s.conns
    && s'.sweeper == s.sweeper
    && forall x {:trigger s'.tasks[x]} | x in s'.tasks :: TalkTask(s.tasks[x], s'.tasks[x])
  }

  predicate TalkTask(t: Task, t': Task) {
    && t'.welcome == t.welcome
    && (t'.pc == t.pc || (Active(t.pc) && (Active(t'.pc) || t'.pc.Leaving?)))
  }

  predicate Speaking(step: Step) {
    || step.Record? || step.SnapshotConns? || step.TrySend? || step.Touch? || step.Receive? || step.Deliver? || step.Hangup?
  }

  predicate Admission(step: Step) { step.AdmitMessage? || step.AdmitClear? }

  predicate Shared(step: Step) {
    step.Register? || step.ListStale? || step.StartSweep? || step.Sweep? || step.Evict?
  }

  lemma SpeakingIsTalk(s: State, step: Step)
    requires Enabled(s, step) && Speaking(step)
    ensures Talk(s, Apply(s, step))
  {
  }

  lemma AdmissionIsTalk(s: State, step: Step)
    requires Enabled(s, step) && Admission(step)
    ensures Talk(s, Apply(s, step))
  {
    if step.AdmitMessage? { MessageAdmittedCases(s, step.id, step.at); }
  }

  lemma TalkEnters(s: State, s': State, swept: set<Uuid>, evicted: set<Uuid>)
    requires AllEntered(s, swept, evicted) && ListsTasks(s) && Talk(s, s')
    ensures AllEntered(s', swept, evicted) && ListsTasks(s')
  {
    forall x | x in s'.tasks ensures Entered(s'.tasks[x], x in s'.sessions, x in s'.conns, x in swept, x in evicted) {
      TalkEntered(s.tasks[x], s'.tasks[x], x in s.sessions, x in s.conns, x in swept, x in evicted);
    }
  }

  lemma TalkEntered(t: Task, t': Task, inSessions: bool, inConns: bool, swept: bool, evicted: bool)
    requires Entered(t, inSessions, inConns, swept, evicted) && TalkTask(t, t')
    ensures Entered(t', inSessions, inConns, swept, evicted) && (t'.pc.Registering? <==> t.pc.Registering?)
  {
  }

  lemma SharedEnters(s: State, step: Step, swept: set<Uuid>, evicted: set<Uuid>)
    requires AllEntered(s, swept, evicted) && ListsTasks(s) && Enabled(s, step) && Shared(step)
    requires LocksOk(s) && AllTargets(s.tasks)
    ensures AllEntered(Apply(s, step), swept + SweptNow(s, step), evicted + EvictedNow(s, step)) && ListsTasks(Apply(s, step))
  {
    var s' := Apply(s, step);
    var swept', evicted' := swept + SweptNow(s, step), evicted + EvictedNow(s, step);
    if step.Evict? { assert TargetsOk(s.tasks[step.id], s.tasks); }
    forall x | x in s'.tasks ensures Entered(s'.tasks[x], x in s'.sessions, x in s'.conns, x in swept', x in evicted') {
      if x in s.tasks { assert Entered(s.tasks[x], x in s.sessions, x in s.conns, x in swept, x in evicted); }
    }
  }

  lemma EnteredKept(s: State, step: Step, swept: set<Uuid>, evicted: set<Uuid>)
    requires AllEntered(s, swept, evicted) && ListsTasks(s) && Enabled(s, step)
    requires LocksOk(s) && AllTargets(s.tasks)
    ensures AllEntered(Apply(s, step), swept + SweptNow(s, step), evicted + EvictedNow(s, step)) && ListsTasks(Apply(s, step))
  {
    if Shared(step) {
      SharedEnters(s, step, swept, evicted);
    } else {
      assert swept + SweptNow(s, step) == swept && evicted + EvictedNow(s, step) == evicted;
      if Speaking(step) {
        SpeakingIsTalk(s, step);
        TalkEnters(s, Apply(s, step), swept, evicted);
      } else if Admission(step) {
        AdmissionIsTalk(s, step);
        TalkEnters(s, Apply(s, step), swept, evicted);
      } else if Coming(step) {
        ComingEnters(s, step, swept, evicted);
      } else {
        GoingEnters(s, step, swept, evicted);
      }
    }
  }

  predicate Coming(step: Step) { step.Connect? || step.TakeHistory? || step.SendWelcome? }

  predicate Going(step: Step) { step.Leave? || step.Unlink? || step.Return? }

  lemma ComingEnters(s: State, step: Step, swept: set<Uuid>, evicted: set<Uuid>)
    requires AllEntered(s, swept, evicted) && ListsTasks(s) && Enabled(s, step) && Coming(step)
    ensures AllEntered(Apply(s, step), swept, evicted) && ListsTasks(Apply(s, step))
  {
    var s' := Apply(s, step);
    forall x | x in s'.tasks ensures Entered(s'.tasks[x], x in s'.sessions, x in s'.conns, x in swept, x in evicted) {
      assert Entered(s.tasks[x], x in s.sessions, x in s.conns, x in swept, x in evicted);
    }
  }

  lemma GoingEnters(s: State, step: Step, swept: set<Uuid>, evicted: set<Uuid>)
    requires AllEntered(s, swept, evicted) && ListsTasks(s) && Enabled(s, step) && Going(step)
    ensures AllEntered(Apply(s, step), swept, evicted) && ListsTasks(Apply(s, step))
  {
    var s' := Apply(s, step);
    forall x | x in s'.tasks ensures Entered(s'.tasks[x], x in s'.sessions, x in s'.conns, x in swept, x in evicted) {
      assert Entered(s.tasks[x], x in s.sessions, x in s.conns, x in swept, x in evicted);
    }
  }

  lemma {:induction false} EnteredAlways(steps: seq<Step>)
    requires After(steps).Some?
    ensures AllEntered(After(steps).value, SweptBy(steps), EvictedBy(steps)) && ListsTasks(After(steps).value)
  {
    if steps != [] {
      var n := |steps| - 1;
      var s := After(steps[..n]).value;
      EnteredAlways(steps[..n]);
      ScheduleKept(steps[..n]);
      EnteredKept(s, steps[n], SweptBy(steps[..n]), EvictedBy(steps[..n]));
    }
  }

  /** What a task leaves behind when it is over. Its session stays exactly if its Welcome failed and
      the sweeper has not swept it; its connection stays exactly if moreover no broadcast has evicted
      it. */
  lemma LeftoversExactly(steps: seq<Step>, x: Uuid)
    requires After(steps).Some? && x in After(steps).value.tasks && After(steps).value.tasks[x].pc.Closed?
    ensures var s := After(steps).value;
            && (x in s.sessions <==> s.tasks[x].welcome == None && x !in SweptBy(steps))
            && (x in s.conns <==> s.tasks[x].welcome == None && x !in SweptBy(steps) && x !in EvictedBy(steps))
  {
    EnteredAlways(steps);
    assert Entered(After(steps).value.tasks[x], x in After(steps).value.sessions, x in After(steps).value.conns,
                   x in SweptBy(steps), x in EvictedBy(steps));
  }

  /** The same while the task is being served: it is in the stores until it is swept or evicted. */
  lemma ServedExactly(steps: seq<Step>, x: Uuid)
    requires After(steps).Some? && x in After(steps).value.tasks && Active(After(steps).value.tasks[x].pc)
    ensures var s := After(steps).value;
            && (x in s.sessions <==> x !in SweptBy(steps))
            && (x in s.conns <==> x !in SweptBy(steps) && x !in EvictedBy(steps))
  {
    EnteredAlways(steps);
    assert Entered(After(steps).value.tasks[x], x in After(steps).value.sessions, x in After(steps).value.conns,
                   x in SweptBy(steps), x in EvictedBy(steps));
  }
}
