/** Sliding-window limiting with a pruned queue of time stamps, as the connection limiter and the
    message quota do it, against the rule it implements: count the full log of accepted events.
    Times are nanoseconds of a monotone clock. */
module SlidingWindow {

  /** Drops expired time stamps off the front. */
  function Prune(q: seq<nat>, now: nat, window: nat): seq<nat> {
    if q != [] && now - q[0] > window then Prune(q[1..], now, window) else q
  }

  /** One attempt: prune, refuse if the queue is still full, otherwise record. */
  function Admit(q: seq<nat>, now: nat, window: nat, max: nat): (seq<nat>, bool) {
    var p := Prune(q, now, window);
    if |p| >= max then (p, false) else (p + [now], true)
  }

  method PopExpired(q: seq<nat>, now: nat, window: nat) returns (r: seq<nat>)
    ensures r == Prune(q, now, window)
  {
    r := q;
    while r != [] && now - r[0] > window
      invariant Prune(r, now, window) == Prune(q, now, window)
      decreases |r|
    {
      r := r[1..];
    }
  }

  // ----- the rule -----

  /** How many events of the log fall into the closed interval. */
  function Count(log: seq<nat>, lo: int, hi: int): nat {
    if log == [] then 0
    else Count(log[..|log| - 1], lo, hi) + if lo <= log[|log| - 1] <= hi then 1 else 0
  }

  ghost predicate SortedUpTo(log: seq<nat>, now: nat) {
    && (forall i, j | 0 <= i <= j < |log| :: log[i] <= log[j])
    && (forall i | 0 <= i < |log| :: log[i] <= now)
  }

  /** Events that lie `max` apart in the log lie more than a window apart in time. */
  ghost predicate Spaced(log: seq<nat>, window: nat, max: nat) {
    && (max == 0 ==> log == [])
    && forall i | max <= i < |log| :: log[i] - log[i - max] > window
  }

  /** The queue is the end of the log and everything it no longer holds had expired by `now`. */
  ghost predicate Tracks(q: seq<nat>, log: seq<nat>, now: nat, window: nat) {
    && SortedUpTo(log, now)
    && |q| <= |log|
    && q == log[|log| - |q|..]
    && forall i | 0 <= i < |log| - |q| :: now - log[i] > window
  }

  // ----- refinement -----

  /** The interval picks out one contiguous stretch of a sorted log. */
  lemma {:induction false} CountIsStretch(log: seq<nat>, lo: int, hi: int, now: nat) returns (i: nat, j: nat)
    requires SortedUpTo(log, now)
    ensures i <= j <= |log| && Count(log, lo, hi) == j - i
    ensures forall k | i <= k < j :: lo <= log[k] <= hi
    ensures forall k | 0 <= k < |log| && !(i <= k < j) :: !(lo <= log[k] <= hi)
  {
    if log == [] {
      i, j := 0, 0;
    } else {
      var n := |log| - 1;
      i, j := CountIsStretch(log[..n], lo, hi, now);
      if lo <= log[n] <= hi {
        var beyond := if j < n then log[..n][j] else hi + 1;
        var within := if i < j then log[..n][i] else lo;
        assert j < n ==> log[j] == beyond;
        assert i < j ==> beyond > hi;
        if i == j { i, j := n, n + 1; } else { j := n + 1; }
      }
    }
  }

  lemma {:induction false} PruneTracks(q: seq<nat>, log: seq<nat>, before: nat, now: nat, window: nat)
    requires Tracks(q, log, before, window) && before <= now
    ensures Tracks(Prune(q, now, window), log, now, window)
    ensures var p := Prune(q, now, window); p != [] ==> now - p[0] <= window
    decreases |q|
  {
    if q != [] && now - q[0] > window {
      assert log[|log| - |q|] == q[0];
      PruneTracks(q[1..], log, now, now, window);
    }
  }

  lemma {:induction false} CountOfSuffix(log: seq<nat>, lo: int, hi: int, k: nat)
    requires k <= |log|
    requires forall i | 0 <= i < |log| :: lo <= log[i] <= hi <==> k <= i
    ensures Count(log, lo, hi) == |log| - k
  {
    if log != [] {
      var n := |log| - 1;
      assert lo <= log[n] <= hi <==> k <= n;
      CountOfSuffix(log[..n], lo, hi, if k <= n then k else n);
    }
  }

  /** After pruning, the queue holds exactly the events of the last window. */
  lemma PrunedCount(q: seq<nat>, log: seq<nat>, before: nat, now: nat, window: nat)
    requires Tracks(q, log, before, window) && before <= now
    ensures |Prune(q, now, window)| == Count(log, now - window, now)
  {
    PruneTracks(q, log, before, now, window);
    var p := Prune(q, now, window);
    var k := |log| - |p|;
    forall i | 0 <= i < |log| ensures now - window <= log[i] <= now <==> k <= i {
      if k <= i { assert log[k] == p[0] && log[k] <= log[i]; }
    }
    CountOfSuffix(log, now - window, now, k);
  }

  /** The pruned queue decides as the full log does, and goes on tracking it. */
  lemma AdmitRefines(q: seq<nat>, log: seq<nat>, before: nat, now: nat, window: nat, max: nat)
    requires Tracks(q, log, before, window) && before <= now
    ensures var (q', ok) := Admit(q, now, window, max);
            && (ok <==> Count(log, now - window, now) < max)
            && Tracks(q', if ok then log + [now] else log, now, window)
  {
    PruneTracks(q, log, before, now, window);
    PrunedCount(q, log, before, now, window);
    TracksAppend(Prune(q, now, window), log, now, window);
  }

  lemma TracksAppend(q: seq<nat>, log: seq<nat>, now: nat, window: nat)
    requires Tracks(q, log, now, window)
    ensures Tracks(q + [now], log + [now], now, window)
  {
    assert (log + [now])[|log| - |q|..] == log[|log| - |q|..] + [now];
  }

  /** Events the rule accepts stay spaced. */
  lemma AcceptKeepsSpaced(log: seq<nat>, now: nat, window: nat, max: nat)
    requires SortedUpTo(log, now) && Spaced(log, window, max) && Count(log, now - window, now) < max
    ensures Spaced(log + [now], window, max)
  {
    forall i | max <= i < |log| + 1 ensures (log + [now])[i] - (log + [now])[i - max] > window {
      if i == |log| && now - log[i - max] <= window {
        CountAtLeast(log, now - window, now, i - max);
        assert false;
      }
    }
  }

  lemma {:induction false} CountAtLeast(log: seq<nat>, lo: int, hi: int, k: nat)
    requires k <= |log|
    requires forall i | k <= i < |log| :: lo <= log[i] <= hi
    ensures Count(log, lo, hi) >= |log| - k
  {
    if k < |log| { CountAtLeast(log[..|log| - 1], lo, hi, k); }
  }

  /** A spaced log has at most `max` events in any closed interval of the window's length. */
  lemma SpacedBoundsEveryWindow(log: seq<nat>, now: nat, window: nat, max: nat, lo: int)
    requires SortedUpTo(log, now) && Spaced(log, window, max)
    ensures Count(log, lo, lo + window) <= max
  {
    var i, j := CountIsStretch(log, lo, lo + window, now);
    var last := if j > 0 then log[j - 1] else 0;
    var earlier := if j - 1 >= max then log[j - 1 - max] else 0;
    if j - i > max { assert false; }
  }

  /** What the pruned queue lets through keeps the log spaced. */
  lemma AdmitKeepsSpaced(q: seq<nat>, log: seq<nat>, before: nat, now: nat, window: nat, max: nat)
    requires Tracks(q, log, before, window) && before <= now && Spaced(log, window, max) && Admit(q, now, window, max).1
    ensures SortedUpTo(log + [now], now) && Spaced(log + [now], window, max)
  {
    AdmitRefines(q, log, before, now, window, max);
    AcceptKeepsSpaced(log, now, window, max);
  }
}
