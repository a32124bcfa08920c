/** The per-address connection limiter: a map of queues, pruned on use and by a periodic cleanup. */
module RateLimit {
  import opened Proto
  import opened SlidingWindow

  datatype IpAddr = V4(a: u8, b: u8, c: u8, d: u8) | V6(octets: Octets16)

  function QueueOf(m: map<IpAddr, seq<nat>>, ip: IpAddr): seq<nat> {
    if ip in m then m[ip] else []
  }

  function CheckMap(m: map<IpAddr, seq<nat>>, ip: IpAddr, now: nat, window: nat, max: nat): (map<IpAddr, seq<nat>>, bool) {
    var (q, ok) := Admit(QueueOf(m, ip), now, window, max);
    (m[ip := q], ok)
  }

  function CleanMap(m: map<IpAddr, seq<nat>>, now: nat, window: nat): map<IpAddr, seq<nat>> {
    map ip | ip in m && Prune(m[ip], now, window) != [] :: Prune(m[ip], now, window)
  }

  class RateLimiter {
    var byIp: map<IpAddr, seq<nat>>
    const window: nat
    const max: nat

    constructor (maxPerWindow: nat, window: nat)
      ensures byIp == map[] && this.window == window && max == maxPerWindow
    {
      byIp := map[];
      this.window := window;
      max := maxPerWindow;
    }

    /** Records a connection attempt from `ip` at `now`. */
    method Check(ip: IpAddr, now: nat) returns (ok: bool)
      modifies this`byIp
      ensures (byIp, ok) == CheckMap(old(byIp), ip, now, window, max)
    {
      var entry := QueueOf(byIp, ip);
      entry := PopExpired(entry, now, window);
      ok := |entry| < max;
      if ok {
        entry := entry + [now];
      }
      byIp := byIp[ip := entry];
    }

    /** Drops expired time stamps everywhere, and addresses left with none. */
    method Cleanup(now: nat)
      modifies this`byIp
      ensures byIp == CleanMap(old(byIp), now, window)
    {
      var kept: map<IpAddr, seq<nat>> := map[];
      var todo := byIp.Keys;
      while todo != {}
        invariant todo <= byIp.Keys && byIp == old(byIp)
        invariant kept.Keys <= byIp.Keys - todo
        invariant forall ip | ip in byIp && ip !in todo ::
                    ip in kept <==> Prune(byIp[ip], now, window) != []
        invariant forall ip | ip in kept :: kept[ip] == Prune(byIp[ip], now, window)
        decreases |todo|
      {
        var ip :| ip in todo;
        var q := PopExpired(byIp[ip], now, window);
        if q != [] {
          kept := kept[ip := q];
        }
        todo := todo - {ip};
      }
      byIp := kept;
    }
  }

  // ----- runs -----

  datatype Op = Check(ip: IpAddr, at: nat) | Cleanup(at: nat)

  /** A run under a monotone clock, not before `now`. */
  ghost predicate Monotone(ops: seq<Op>, now: nat) {
    ops != [] ==> now <= ops[0].at && Monotone(ops[1..], ops[0].at)
  }

  /** The decisions of the pruned queues. */
  ghost function Decisions(ops: seq<Op>, m: map<IpAddr, seq<nat>>, window: nat, max: nat): seq<bool> {
    if ops == [] then []
    else match ops[0]
      case Check(ip, at) =>
        var (m', ok) := CheckMap(m, ip, at, window, max);
        [ok] + Decisions(ops[1..], m', window, max)
      case Cleanup(at) => Decisions(ops[1..], CleanMap(m, at, window), window, max)
  }

  /** The rule: accept while fewer than `max` connections from the address were accepted within the
      window that ends now. Nothing is ever forgotten. */
  ghost function RuleStep(logs: map<IpAddr, seq<nat>>, ip: IpAddr, at: nat, window: nat, max: nat): (map<IpAddr, seq<nat>>, bool) {
    var ok := Count(QueueOf(logs, ip), at - window, at) < max;
    (if ok then logs[ip := QueueOf(logs, ip) + [at]] else logs, ok)
  }

  ghost function RuleDecisions(ops: seq<Op>, logs: map<IpAddr, seq<nat>>, window: nat, max: nat): seq<bool> {
    if ops == [] then []
    else match ops[0]
      case Check(ip, at) =>
        var (logs', ok) := RuleStep(logs, ip, at, window, max);
        [ok] + RuleDecisions(ops[1..], logs', window, max)
      case Cleanup(_) => RuleDecisions(ops[1..], logs, window, max)
  }

  /** What the rule has accepted by the end of the run. */
  ghost function RuleLogs(ops: seq<Op>, logs: map<IpAddr, seq<nat>>, window: nat, max: nat): map<IpAddr, seq<nat>> {
    if ops == [] then logs
    else match ops[0]
      case Check(ip, at) => RuleLogs(ops[1..], RuleStep(logs, ip, at, window, max).0, window, max)
      case Cleanup(_) => RuleLogs(ops[1..], logs, window, max)
  }

  ghost predicate AllTrack(m: map<IpAddr, seq<nat>>, logs: map<IpAddr, seq<nat>>, now: nat, window: nat) {
    forall ip: IpAddr {:trigger Tracks(QueueOf(m, ip), QueueOf(logs, ip), now, window)} ::
      Tracks(QueueOf(m, ip), QueueOf(logs, ip), now, window)
  }

  lemma CleanTracks(m: map<IpAddr, seq<nat>>, logs: map<IpAddr, seq<nat>>, before: nat, now: nat, window: nat)
    requires AllTrack(m, logs, before, window) && before <= now
    ensures AllTrack(CleanMap(m, now, window), logs, now, window)
  {
    forall ip: IpAddr ensures Tracks(QueueOf(CleanMap(m, now, window), ip), QueueOf(logs, ip), now, window) {
      assert Tracks(QueueOf(m, ip), QueueOf(logs, ip), before, window);
      PruneTracks(QueueOf(m, ip), QueueOf(logs, ip), before, now, window);
    }
  }

  lemma TracksLater(q: seq<nat>, log: seq<nat>, before: nat, now: nat, window: nat)
    requires Tracks(q, log, before, window) && before <= now
    ensures Tracks(q, log, now, window)
  {
  }

  /** One address moves on, the others only see time pass. */
  lemma OneTracks(m: map<IpAddr, seq<nat>>, logs: map<IpAddr, seq<nat>>, ip: IpAddr, q: seq<nat>, log: seq<nat>,
                            before: nat, now: nat, window: nat)
    requires AllTrack(m, logs, before, window) && before <= now && Tracks(q, log, now, window)
    ensures AllTrack(m[ip := q], logs[ip := log], now, window)
    ensures log == QueueOf(logs, ip) ==> AllTrack(m[ip := q], logs, now, window)
  {
    forall other: IpAddr
      ensures Tracks(QueueOf(m[ip := q], other), QueueOf(logs[ip := log], other), now, window)
      ensures log == QueueOf(logs, ip) ==> QueueOf(logs[ip := log], other) == QueueOf(logs, other)
    {
      if other != ip {
        TracksLater(QueueOf(m, other), QueueOf(logs, other), before, now, window);
      }
    }
  }

  lemma CheckTracks(m: map<IpAddr, seq<nat>>, logs: map<IpAddr, seq<nat>>, ip: IpAddr, before: nat, now: nat, window: nat, max: nat)
    requires AllTrack(m, logs, before, window) && before <= now
    ensures var (m', ok) := CheckMap(m, ip, now, window, max);
            var (logs', ok') := RuleStep(logs, ip, now, window, max);
            ok == ok' && AllTrack(m', logs', now, window)
  {
    var q, log := QueueOf(m, ip), QueueOf(logs, ip);
    assert Tracks(q, log, before, window);
    var q', log', ok := OneChecked(q, log, before, now, window, max);
    OneTracks(m, logs, ip, q', log', before, now, window);
  }

  lemma OneChecked(q: seq<nat>, log: seq<nat>, before: nat, now: nat, window: nat, max: nat)
    returns (q': seq<nat>, log': seq<nat>, ok: bool)
    requires Tracks(q, log, before, window) && before <= now
    ensures (q', ok) == Admit(q, now, window, max) && (ok <==> Count(log, now - window, now) < max)
    ensures log' == (if ok then log + [now] else log) && Tracks(q', log', now, window)
  {
    AdmitRefines(q, log, before, now, window, max);
    q', ok := Admit(q, now, window, max).0, Admit(q, now, window, max).1;
    log' := if ok then log + [now] else log;
  }

  /** Whatever checks and cleanups a run mixes, the limiter decides as the rule over the full log. */
  lemma {:induction false} LimiterRefinesRule(ops: seq<Op>, m: map<IpAddr, seq<nat>>, logs: map<IpAddr, seq<nat>>, now: nat, window: nat, max: nat)
    requires Monotone(ops, now) && AllTrack(m, logs, now, window)
    ensures Decisions(ops, m, window, max) == RuleDecisions(ops, logs, window, max)
    decreases |ops|
  {
    if ops != [] {
      match ops[0]
      case Check(ip, at) =>
        CheckTracks(m, logs, ip, now, at, window, max);
        LimiterRefinesRule(ops[1..], CheckMap(m, ip, at, window, max).0, RuleStep(logs, ip, at, window, max).0, at, window, max);
      case Cleanup(at) =>
        CleanTracks(m, logs, now, at, window);
        LimiterRefinesRule(ops[1..], CleanMap(m, at, window), logs, at, window, max);
    }
  }

  ghost function WithoutCleanups(ops: seq<Op>): seq<Op> {
    if ops == [] then []
    else (if ops[0].Cleanup? then [] else [ops[0]]) + WithoutCleanups(ops[1..])
  }

  lemma {:induction false} WithoutCleanupsMonotone(ops: seq<Op>, now: nat)
    requires Monotone(ops, now)
    ensures Monotone(WithoutCleanups(ops), now)
  {
    if ops != [] {
      if ops[0].Cleanup? {
        MonotoneLater(ops[1..], ops[0].at, now);
        WithoutCleanupsMonotone(ops[1..], now);
        assert WithoutCleanups(ops) == WithoutCleanups(ops[1..]);
      } else {
        WithoutCleanupsMonotone(ops[1..], ops[0].at);
        assert WithoutCleanups(ops)[1..] == WithoutCleanups(ops[1..]);
      }
    }
  }

  lemma MonotoneLater(ops: seq<Op>, later: nat, now: nat)
    requires Monotone(ops, later) && now <= later
    ensures Monotone(ops, now)
  {
  }

  lemma {:induction false} RuleIgnoresCleanups(ops: seq<Op>, logs: map<IpAddr, seq<nat>>, window: nat, max: nat)
    ensures RuleDecisions(ops, logs, window, max) == RuleDecisions(WithoutCleanups(ops), logs, window, max)
    decreases |ops|
  {
    if ops != [] {
      match ops[0]
      case Check(ip, at) =>
        assert WithoutCleanups(ops)[1..] == WithoutCleanups(ops[1..]);
        RuleIgnoresCleanups(ops[1..], RuleStep(logs, ip, at, window, max).0, window, max);
      case Cleanup(_) =>
        assert WithoutCleanups(ops) == WithoutCleanups(ops[1..]);
        RuleIgnoresCleanups(ops[1..], logs, window, max);
    }
  }

  /** Cleaning up changes no decision, wherever in the run it happens. */
  lemma CleanupChangesNoDecision(ops: seq<Op>, window: nat, max: nat)
    requires Monotone(ops, 0)
    ensures Decisions(ops, map[], window, max) == Decisions(WithoutCleanups(ops), map[], window, max)
  {
    WithoutCleanupsMonotone(ops, 0);
    LimiterRefinesRule(ops, map[], map[], 0, window, max);
    LimiterRefinesRule(WithoutCleanups(ops), map[], map[], 0, window, max);
    RuleIgnoresCleanups(ops, map[], window, max);
  }

  ghost predicate WellSpaced(log: seq<nat>, now: nat, window: nat, max: nat) {
    SortedUpTo(log, now) && Spaced(log, window, max)
  }

  lemma RuleStepSpaced(log: seq<nat>, before: nat, now: nat, window: nat, max: nat)
    requires WellSpaced(log, before, window, max) && before <= now
    ensures WellSpaced(if Count(log, now - window, now) < max then log + [now] else log, now, window, max)
  {
    if Count(log, now - window, now) < max { AcceptKeepsSpaced(log, now, window, max); }
  }

  ghost function RuleNext(op: Op, logs: map<IpAddr, seq<nat>>, window: nat, max: nat): map<IpAddr, seq<nat>> {
    if op.Check? then RuleStep(logs, op.ip, op.at, window, max).0 else logs
  }

  lemma RuleNextSpaced(op: Op, logs: map<IpAddr, seq<nat>>, now: nat, window: nat, max: nat, ip: IpAddr)
    requires WellSpaced(QueueOf(logs, ip), now, window, max) && now <= op.at
    ensures WellSpaced(QueueOf(RuleNext(op, logs, window, max), ip), op.at, window, max)
  {
    var log := QueueOf(logs, ip);
    RuleStepSpaced(log, now, op.at, window, max);
    if op.Check? && op.ip == ip {
      assert QueueOf(RuleNext(op, logs, window, max), ip)
          == if Count(log, op.at - window, op.at) < max then log + [op.at] else log;
    } else {
      assert QueueOf(RuleNext(op, logs, window, max), ip) == log;
      assert WellSpaced(log, op.at, window, max);
    }
  }

  lemma {:induction false} RuleLogsSpaced(ops: seq<Op>, logs: map<IpAddr, seq<nat>>, now: nat, window: nat, max: nat, ip: IpAddr)
    returns (end: nat)
    requires Monotone(ops, now) && WellSpaced(QueueOf(logs, ip), now, window, max)
    ensures WellSpaced(QueueOf(RuleLogs(ops, logs, window, max), ip), end, window, max)
    decreases |ops|
  {
    if ops == [] {
      end := now;
    } else {
      RuleNextSpaced(ops[0], logs, now, window, max, ip);
      end := RuleLogsSpaced(ops[1..], RuleNext(ops[0], logs, window, max), ops[0].at, window, max, ip);
    }
  }

  /** When the limiter accepted connections from `ip`. */
  ghost function AcceptedAt(ops: seq<Op>, m: map<IpAddr, seq<nat>>, window: nat, max: nat, ip: IpAddr): seq<nat> {
    if ops == [] then []
    else match ops[0]
      case Check(other, at) =>
        var (m', ok) := CheckMap(m, other, at, window, max);
        (if ok && other == ip then [at] else []) + AcceptedAt(ops[1..], m', window, max, ip)
      case Cleanup(at) => AcceptedAt(ops[1..], CleanMap(m, at, window), window, max, ip)
  }

  lemma LogGrows(logs: map<IpAddr, seq<nat>>, other: IpAddr, at: nat, window: nat, max: nat, ip: IpAddr, more: seq<nat>)
    ensures var (logs', ok) := RuleStep(logs, other, at, window, max);
            QueueOf(logs', ip) + more == QueueOf(logs, ip) + ((if ok && other == ip then [at] else []) + more)
  {
  }

  /** The full log of the rule is what the limiter accepted. */
  lemma {:induction false} AcceptedIsRuleLog(ops: seq<Op>, m: map<IpAddr, seq<nat>>, logs: map<IpAddr, seq<nat>>, now: nat, window: nat, max: nat, ip: IpAddr)
    requires Monotone(ops, now) && AllTrack(m, logs, now, window)
    ensures QueueOf(RuleLogs(ops, logs, window, max), ip) == QueueOf(logs, ip) + AcceptedAt(ops, m, window, max, ip)
    decreases |ops|
  {
    if ops != [] {
      match ops[0]
      case Check(other, at) =>
        var m', logs' := CheckMap(m, other, at, window, max).0, RuleStep(logs, other, at, window, max).0;
        CheckTracks(m, logs, other, now, at, window, max);
        AcceptedIsRuleLog(ops[1..], m', logs', at, window, max, ip);
        LogGrows(logs, other, at, window, max, ip, AcceptedAt(ops[1..], m', window, max, ip));
      case Cleanup(at) =>
        CleanTracks(m, logs, now, at, window);
        AcceptedIsRuleLog(ops[1..], CleanMap(m, at, window), logs, at, window, max, ip);
    }
  }

  /** Over any run, no address gets more than `max` connections accepted within any closed interval
      of the window's length. */
  lemma NoWindowOverfull(ops: seq<Op>, window: nat, max: nat, ip: IpAddr, lo: int)
    requires Monotone(ops, 0)
    ensures Count(AcceptedAt(ops, map[], window, max, ip), lo, lo + window) <= max
  {
    AcceptedIsRuleLog(ops, map[], map[], 0, window, max, ip);
    assert QueueOf(RuleLogs(ops, map[], window, max), ip) == AcceptedAt(ops, map[], window, max, ip);
    var end := RuleLogsSpaced(ops, map[], 0, window, max, ip);
    SpacedBoundsEveryWindow(QueueOf(RuleLogs(ops, map[], window, max), ip), end, window, max, lo);
  }

  /** A cleanup keeps exactly the addresses with an accepted connection inside the window. */
  lemma CleanupKeepsActive(m: map<IpAddr, seq<nat>>, logs: map<IpAddr, seq<nat>>, before: nat, now: nat, window: nat, ip: IpAddr)
    requires AllTrack(m, logs, before, window) && before <= now
    ensures ip in CleanMap(m, now, window) <==> Count(QueueOf(logs, ip), now - window, now) > 0
  {
    assert Tracks(QueueOf(m, ip), QueueOf(logs, ip), before, window);
    PrunedCount(QueueOf(m, ip), QueueOf(logs, ip), before, now, window);
  }
}
