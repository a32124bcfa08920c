/** The three locks of a room at the level of single acquisitions and releases. Every code path takes
    them in the order sessions, messages, connections; so whatever tasks run, none waits for good. */
module Locks {

  datatype Lock = Sessions | Messages | Connections

  function Rank(l: Lock): nat {
    match l
    case Sessions => 0
    case Messages => 1
    case Connections => 2
  }

  datatype Action = Acquire(lock: Lock) | Release(lock: Lock)

  // ----- the lock sections of the code -----

  /** Touching a session, admitting a message or a clear, and listing stale sessions take the sessions
      lock alone. Pushing to, clearing and copying the history take the messages lock alone. A
      broadcast's snapshot and its eviction take the connections lock alone. Inserting or removing a
      session with its connection, and sweeping, take the connections lock inside the sessions lock,
      and drop the guards in reverse order. */
  datatype Section = SessionOnly | HistoryOnly | ConnsOnly | SessionAndConn

  function Actions(section: Section): seq<Action> {
    match section
    case SessionOnly => [Acquire(Sessions), Release(Sessions)]
    case HistoryOnly => [Acquire(Messages), Release(Messages)]
    case ConnsOnly => [Acquire(Connections), Release(Connections)]
    case SessionAndConn => [Acquire(Sessions), Acquire(Connections), Release(Connections), Release(Sessions)]
  }

  /** Whatever a task does in its life is some sequence of sections. */
  function Script(sections: seq<Section>): seq<Action> {
    if sections == [] then [] else Actions(sections[0]) + Script(sections[1..])
  }

  // ----- the order -----

  /** With `held` in hand, the rest of the script never acquires a lock that does not rank above all
      it holds, releases only what it holds, and ends with nothing. */
  ghost predicate Ordered(held: set<Lock>, script: seq<Action>)
    decreases |script|
  {
    if script == [] then held == {}
    else match script[0]
      case Acquire(l) => (forall h | h in held :: Rank(h) < Rank(l)) && Ordered(held + {l}, script[1..])
      case Release(l) => l in held && Ordered(held - {l}, script[1..])
  }

  lemma AcquireOrdered(held: set<Lock>, l: Lock, rest: seq<Action>)
    requires (forall h | h in held :: Rank(h) < Rank(l)) && Ordered(held + {l}, rest)
    ensures Ordered(held, [Acquire(l)] + rest)
  {
    assert ([Acquire(l)] + rest)[1..] == rest;
  }

  lemma ReleaseOrdered(held: set<Lock>, l: Lock, rest: seq<Action>)
    requires l !in held && Ordered(held, rest)
    ensures Ordered(held + {l}, [Release(l)] + rest)
  {
    assert ([Release(l)] + rest)[1..] == rest;
    assert held + {l} - {l} == held;
  }

  /** Taking one lock around a stretch that respects the order with the lock in hand. */
  lemma SectionOrdered(section: Section, rest: seq<Action>)
    requires Ordered({}, rest)
    ensures Ordered({}, Actions(section) + rest)
  {
    var outer := Actions(section)[0].lock;
    var r1 := [Release(outer)] + rest;
    ReleaseOrdered({}, outer, rest);
    if section.SessionAndConn? {
      var r2 := [Release(Connections)] + r1;
      var none: set<Lock> := {};
      assert none + {outer} == {Sessions};
      ReleaseOrdered({Sessions}, Connections, r1);
      AcquireOrdered({Sessions}, Connections, r2);
      AcquireOrdered({}, Sessions, [Acquire(Connections)] + r2);
      assert Actions(section) + rest == [Acquire(Sessions)] + ([Acquire(Connections)] + r2);
    } else {
      AcquireOrdered({}, outer, r1);
      assert Actions(section) + rest == [Acquire(outer)] + r1;
    }
  }

  /** Every sequence of the code's lock sections respects the order. */
  lemma {:induction false} ScriptOrdered(sections: seq<Section>)
    ensures Ordered({}, Script(sections))
  {
    if sections != [] {
      ScriptOrdered(sections[1..]);
      SectionOrdered(sections[0], Script(sections[1..]));
    }
  }

  // ----- any number of tasks -----

  datatype Proc = Proc(held: set<Lock>, script: seq<Action>)

  type Procs = map<nat, Proc>

  /** A task may start at any time; a task whose next lock is free may take it; a task may release. */
  datatype Step = Spawn(id: nat, sections: seq<Section>) | Advance(id: nat)

  ghost predicate Taken(ps: Procs, l: Lock) {
    exists t :: t in ps && l in ps[t].held
  }

  ghost predicate Waits(ps: Procs, t: nat) {
    t in ps && ps[t].script != [] && ps[t].script[0].Acquire? && Taken(ps, ps[t].script[0].lock)
  }

  ghost predicate CanAdvance(ps: Procs, t: nat) {
    t in ps && ps[t].script != [] && !Waits(ps, t)
  }

  ghost predicate Enabled(ps: Procs, step: Step) {
    match step
    case Spawn(id, _) => id !in ps
    case Advance(id) => CanAdvance(ps, id)
  }

  ghost function Apply(ps: Procs, step: Step): Procs
    requires Enabled(ps, step)
  {
    match step
    case Spawn(id, sections) => ps[id := Proc({}, Script(sections))]
    case Advance(id) =>
      var p := ps[id];
      match p.script[0]
      case Acquire(l) => ps[id := Proc(p.held + {l}, p.script[1..])]
      case Release(l) => ps[id := Proc(p.held - {l}, p.script[1..])]
  }

  ghost predicate Run(states: seq<Procs>, steps: seq<Step>) {
    && |states| == |steps| + 1 && states[0] == map[]
    && forall i | 0 <= i < |steps| :: Enabled(states[i], steps[i]) && states[i + 1] == Apply(states[i], steps[i])
  }

  ghost predicate Reachable(ps: Procs) {
    exists states, steps :: Run(states, steps) && states[|steps|] == ps
  }

  /** Every task respects the order and no lock has two owners. */
  ghost predicate Inv(ps: Procs) {
    && (forall t | t in ps :: Ordered(ps[t].held, ps[t].script))
    && (forall t, u, l | t in ps && u in ps && l in ps[t].held && l in ps[u].held :: t == u)
  }

  lemma StepKept(ps: Procs, step: Step)
    requires Inv(ps) && Enabled(ps, step)
    ensures Inv(Apply(ps, step))
  {
    match step
    case Spawn(_, sections) => ScriptOrdered(sections);
    case Advance(id) =>
      assert Ordered(ps[id].held, ps[id].script);
  }

  lemma {:induction false} RunKept(states: seq<Procs>, steps: seq<Step>, i: nat)
    requires Run(states, steps) && i <= |steps|
    ensures Inv(states[i])
  {
    if i > 0 {
      RunKept(states, steps, i - 1);
      StepKept(states[i - 1], steps[i - 1]);
    }
  }

  lemma ReachableOk(ps: Procs)
    requires Reachable(ps)
    ensures Inv(ps)
  {
    var states, steps :| Run(states, steps) && states[|steps|] == ps;
    RunKept(states, steps, |steps|);
  }

  // ----- deadlock freedom -----

  /** `t` waits for a lock that `u` holds. */
  ghost predicate WaitsFor(ps: Procs, t: nat, u: nat) {
    t in ps && u in ps && ps[t].script != [] && ps[t].script[0].Acquire? && ps[t].script[0].lock in ps[u].held
  }

  ghost predicate WaitChain(ps: Procs, chain: seq<nat>) {
    forall i | 0 <= i < |chain| - 1 :: WaitsFor(ps, chain[i], chain[i + 1])
  }

  /** The rank of the lock a task is about to acquire. */
  ghost function Wanted(ps: Procs, t: nat): nat {
    if t in ps && ps[t].script != [] && ps[t].script[0].Acquire? then Rank(ps[t].script[0].lock) else 0
  }

  lemma {:induction false} ChainClimbs(ps: Procs, chain: seq<nat>, i: nat, j: nat)
    requires Inv(ps) && WaitChain(ps, chain) && i <= j < |chain| - 1
    ensures Wanted(ps, chain[i]) <= Wanted(ps, chain[j])
    decreases j
  {
    assert WaitsFor(ps, chain[j], chain[j + 1]);
    if i < j {
      ChainClimbs(ps, chain, i, j - 1);
      assert WaitsFor(ps, chain[j - 1], chain[j - 1 + 1]);
      assert Ordered(ps[chain[j]].held, ps[chain[j]].script);
    }
  }

  /** No reachable state has a cyclic wait, of any length. */
  lemma NoCyclicWait(ps: Procs, chain: seq<nat>)
    requires Reachable(ps) && |chain| >= 2 && WaitChain(ps, chain)
    ensures chain[0] != chain[|chain| - 1]
  {
    ReachableOk(ps);
    var n := |chain| - 1;
    ChainClimbs(ps, chain, 0, n - 1);
    assert WaitsFor(ps, chain[0], chain[0 + 1]);
    assert WaitsFor(ps, chain[n - 1], chain[n - 1 + 1]);
    assert Ordered(ps[chain[0]].held, ps[chain[0]].script);
  }

  /** Behind every waiting task there is a lock holder that can step. */
  lemma {:induction false} HolderRuns(ps: Procs, t: nat) returns (runner: nat)
    requires Inv(ps) && Waits(ps, t)
    ensures CanAdvance(ps, runner) && ps[runner].held != {}
    decreases 2 - Rank(ps[t].script[0].lock)
  {
    var l := ps[t].script[0].lock;
    var u :| u in ps && l in ps[u].held;
    assert Ordered(ps[u].held, ps[u].script);
    if Waits(ps, u) {
      assert Rank(l) < Rank(ps[u].script[0].lock);
      runner := HolderRuns(ps, u);
    } else {
      runner := u;
    }
  }

  lemma WaitersHaveRunners(ps: Procs, t: nat)
    requires Reachable(ps) && Waits(ps, t)
    ensures exists runner :: CanAdvance(ps, runner) && ps[runner].held != {}
  {
    ReachableOk(ps);
    var runner := HolderRuns(ps, t);
  }

  /** A state in which nothing can advance is one in which every task is done and holds nothing. */
  lemma StuckMeansDone(ps: Procs)
    requires Reachable(ps)
    ensures (forall t :: !CanAdvance(ps, t)) <==> (forall t | t in ps :: ps[t].script == [] && ps[t].held == {})
  {
    ReachableOk(ps);
    forall t | t in ps && ps[t].script != [] && !CanAdvance(ps, t) ensures exists r :: CanAdvance(ps, r) {
      WaitersHaveRunners(ps, t);
    }
    forall t | t in ps && ps[t].script == [] ensures ps[t].held == {} {
      assert Ordered(ps[t].held, ps[t].script);
    }
  }
}
