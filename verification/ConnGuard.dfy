/** The cap on concurrent connections: an optimistic atomic counter. Any number of attempts and live
    guards interleave their atomic additions, tests and subtractions. */
module ConnGuard {
  import opened Proto

  /** The counter is a machine word and wraps around. */
  const WORD: nat := 0x1_0000_0000_0000_0000

  /** Where an attempt stands: it has added one and seen `seen` before; it holds a guard; or it was
      refused and has yet to subtract. */
  datatype Phase = Added(seen: nat) | Holding | RollingBack

  datatype State = State(counter: nat, max: nat, phases: map<nat, Phase>)

  datatype Step = FetchAdd(id: nat) | Test(id: nat) | Rollback(id: nat) | Drop(id: nat)

  predicate Enabled(s: State, step: Step) {
    match step
    // Each attempt occupies memory: there are fewer of them than the counter can count.
    case FetchAdd(id) => id !in s.phases && |s.phases| < WORD - 1
    case Test(id) => id in s.phases && s.phases[id].Added?
    case Rollback(id) => id in s.phases && s.phases[id].RollingBack?
    case Drop(id) => id in s.phases && s.phases[id].Holding?
  }

  function Apply(s: State, step: Step): State
    requires Enabled(s, step)
  {
    match step
    case FetchAdd(id) => s.(counter := (s.counter + 1) % WORD, phases := s.phases[id := Added(s.counter)])
    case Test(id) => s.(phases := s.phases[id := if s.phases[id].seen >= s.max then RollingBack else Holding])
    case Rollback(id) => s.(counter := (s.counter + WORD - 1) % WORD, phases := s.phases - {id})
    case Drop(id) => s.(counter := (s.counter + WORD - 1) % WORD, phases := s.phases - {id})
  }

  function After(steps: seq<Step>, max: nat): Option<State> {
    if steps == [] then Some(State(0, max, map[]))
    else
      var before := After(steps[..|steps| - 1], max);
      var step := steps[|steps| - 1];
      if before.Some? && Enabled(before.value, step) then Some(Apply(before.value, step)) else None
  }

  ghost predicate Reachable(s: State) {
    exists steps, max :: After(steps, max) == Some(s)
  }

  ghost function Guards(s: State): set<nat> { set id | id in s.phases && s.phases[id].Holding? }

  /** Attempts that added one and will have to take it back. */
  ghost function Pending(s: State): set<nat> {
    set id | id in s.phases && (s.phases[id].RollingBack? || (s.phases[id].Added? && s.phases[id].seen >= s.max))
  }

  /** Attempts that hold a guard or are about to. */
  ghost function Granted(s: State): set<nat> {
    set id | id in s.phases && (s.phases[id].Holding? || (s.phases[id].Added? && s.phases[id].seen < s.max))
  }

  ghost predicate Inv(s: State) {
    s.counter == |s.phases| < WORD && |Granted(s)| <= s.max
  }

  lemma GrantedBound(s: State)
    ensures |Granted(s)| <= |s.phases|
    ensures |Granted(s)| + |Pending(s)| == |s.phases|
    ensures |Guards(s)| <= |Granted(s)|
  {
    assert Granted(s) + Pending(s) == s.phases.Keys && Granted(s) !! Pending(s);
    assert |s.phases.Keys| == |s.phases|;
    SubsetSize(Guards(s), Granted(s));
  }

  lemma {:induction false} SubsetSize(a: set<nat>, b: set<nat>)
    requires a <= b
    ensures |a| <= |b|
  {
    assert b == a + (b - a);
  }

  lemma AddKept(s: State, id: nat)
    requires Inv(s) && Enabled(s, FetchAdd(id))
    ensures Inv(Apply(s, FetchAdd(id)))
  {
    var s' := s.(counter := s.counter + 1, phases := s.phases[id := Added(s.counter)]);
    GrantedBound(s);
    assert s'.phases.Keys == s.phases.Keys + {id};
    assert |s'.phases.Keys| == |s.phases.Keys| + 1;
    assert Granted(s') == if s.counter < s.max then Granted(s) + {id} else Granted(s);
  }

  lemma TestKept(s: State, id: nat)
    requires Inv(s) && Enabled(s, Test(id))
    ensures Inv(Apply(s, Test(id)))
  {
    var s' := Apply(s, Test(id));
    assert s'.phases.Keys == s.phases.Keys;
    assert |s'.phases.Keys| == |s.phases.Keys|;
    assert Granted(s') == Granted(s);
  }

  lemma SubKept(s: State, id: nat)
    requires Inv(s) && id in s.phases && (s.phases[id].RollingBack? || s.phases[id].Holding?)
    ensures Inv(s.(counter := (s.counter + WORD - 1) % WORD, phases := s.phases - {id}))
  {
    var phases' := s.phases - {id};
    assert phases'.Keys == s.phases.Keys - {id};
    assert |phases'.Keys| == |s.phases.Keys| - 1;
    assert (s.counter + WORD - 1) % WORD == s.counter - 1;
    SubsetSize(Granted(s.(phases := phases')), Granted(s));
  }

  lemma StepKept(s: State, step: Step)
    requires Inv(s) && Enabled(s, step)
    ensures Inv(Apply(s, step))
  {
    match step
    case FetchAdd(id) => AddKept(s, id);
    case Test(id) => TestKept(s, id);
    case Rollback(id) => SubKept(s, id);
    case Drop(id) => SubKept(s, id);
  }

  lemma {:induction false} RunKept(steps: seq<Step>, max: nat)
    requires After(steps, max).Some?
    ensures Inv(After(steps, max).value)
  {
    if steps == [] {
      assert Granted(State(0, max, map[])) == {};
    } else {
      RunKept(steps[..|steps| - 1], max);
      StepKept(After(steps[..|steps| - 1], max).value, steps[|steps| - 1]);
    }
  }

  lemma ReachableOk(s: State)
    requires Reachable(s)
    ensures Inv(s)
  {
    var steps, max :| After(steps, max) == Some(s);
    RunKept(steps, max);
  }

  /** In every interleaving the counter is the number of live guards and attempts under way; live
      guards never exceed the cap; and whoever is about to subtract finds at least one to subtract. */
  lemma CapHolds(s: State)
    requires Reachable(s)
    ensures s.counter == |Granted(s)| + |Pending(s)|
    ensures |Guards(s)| <= |Granted(s)| <= s.max
    ensures forall id | id in s.phases :: s.counter >= 1
  {
    ReachableOk(s);
    GrantedBound(s);
  }

  /** Transient overshoot is bounded by the attempts awaiting rollback, and once none is left the
      counter is the number of granted connections. */
  lemma OvershootIsPending(s: State)
    requires Reachable(s)
    ensures s.counter - s.max <= |Pending(s)|
    ensures Pending(s) == {} ==> s.counter == |Granted(s)| <= s.max
  {
    CapHolds(s);
  }

  /** Whatever others do in between, an attempt remembers the counter it saw when it added. */
  lemma {:induction false} SeenIsKept(steps: seq<Step>, max: nat, i: nat, id: nat)
    requires After(steps, max).Some? && i < |steps| && steps[i] == FetchAdd(id)
    requires forall k | i < k < |steps| :: steps[k].id != id
    ensures After(steps[..i], max).Some?
    ensures var s := After(steps, max).value;
            s.max == max && id in s.phases && s.phases[id] == Added(After(steps[..i], max).value.counter)
    decreases |steps|
  {
    var n := |steps| - 1;
    if i < n {
      SeenIsKept(steps[..n], max, i, id);
      assert steps[..n][..i] == steps[..i];
    } else {
      MaxStays(steps[..n], max);
    }
  }

  lemma {:induction false} MaxStays(steps: seq<Step>, max: nat)
    requires After(steps, max).Some?
    ensures After(steps, max).value.max == max
  {
    if steps != [] { MaxStays(steps[..|steps| - 1], max); }
  }

  /** An attempt is refused exactly when, at its addition, guards and attempts under way had together
      reached the cap; whatever happens between its addition and its test. */
  lemma RefusedExactlyWhenFull(steps: seq<Step>, max: nat, i: nat, id: nat)
    requires After(steps, max).Some? && i < |steps| && steps[i] == FetchAdd(id)
    requires forall k | i < k < |steps| :: steps[k].id != id
    ensures After(steps[..i], max).Some?
    ensures var added, s := After(steps[..i], max).value, After(steps, max).value;
            && Enabled(s, Test(id))
            && (Apply(s, Test(id)).phases[id].RollingBack? <==> |Granted(added)| + |Pending(added)| >= max)
  {
    SeenIsKept(steps, max, i, id);
    CapHolds(After(steps[..i], max).value);
  }
}
