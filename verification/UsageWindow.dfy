/**
  The in-memory window that assigns sessions to pooled model configurations:
  sliding usage counts, session stickiness and a failure-count circuit breaker.

  The class prunes lazily. Its abstract state is the complete log of what was ever
  recorded or probed, and every answer is stated against that log.
 */
module UsageWindow {
  import opened Text

  type ConfigId = string
  type SessionId = string
  type Time = real

  datatype Event =
    | Assigned(config: ConfigId, session: SessionId, at: Time)
    | Unstuck(session: SessionId, config: ConfigId)
    | Failed(config: ConfigId, at: Time)
    | Succeeded(config: ConfigId)
    | Probed(config: ConfigId, at: Time)

  datatype Settings = Settings(
    usageWindow: Time,
    stickyWindow: Time,
    threshold: int,
    failureWindow: Time,
    cooldown: Time)

  // ----- sessions: answers computed from the complete log -----

  /** Sessions recorded on the configuration within the usage window. */
  ghost function Live(st: Settings, log: seq<Event>, c: ConfigId, now: Time): set<SessionId>
  {
    set e | e in log && e.Assigned? && e.config == c && now - e.at <= st.usageWindow :: e.session
  }

  /** The last assignment of the session that no later clear for the same configuration cancelled. */
  ghost function StickyRecord(log: seq<Event>, s: SessionId): Option<(ConfigId, Time)>
  {
    if log == [] then None
    else
      var before := StickyRecord(log[..|log| - 1], s);
      match log[|log| - 1]
      case Assigned(c, s', at) => if s' == s then Some((c, at)) else before
      case Unstuck(s', c) => if s' == s && before.Some? && before.value.0 == c then None else before
      case _ => before
  }

  ghost function Sticky(st: Settings, log: seq<Event>, s: SessionId, now: Time): Option<ConfigId>
  {
    match StickyRecord(log, s)
    case Some((c, at)) => if now - at <= st.stickyWindow then Some(c) else None
    case None => None
  }

  // ----- circuit breaker -----

  /** Times of the list that lie within the failure window. */
  function Recent(st: Settings, times: seq<Time>, now: Time): seq<Time>
  {
    if times == [] then []
    else (if now - times[0] <= st.failureWindow then [times[0]] else []) + Recent(st, times[1..], now)
  }

  /** The event ends the current run of failures: a success, or a probe that sees the cooldown over. */
  ghost predicate Resets(st: Settings, log: seq<Event>, e: Event, c: ConfigId)
    decreases |log|, 2
  {
    || e == Succeeded(c)
    || (e.Probed? && e.config == c && Trips(st, log, c) != [] && !Unhealthy(st, log, c, e.at))
  }

  /** Failure times since the last reset. */
  ghost function Failures(st: Settings, log: seq<Event>, c: ConfigId): seq<Time>
    decreases |log|, 0
  {
    if log == [] then []
    else
      var p, e := log[..|log| - 1], log[|log| - 1];
      if Resets(st, p, e, c) then []
      else Failures(st, p, c) + (if e.Failed? && e.config == c then [e.at] else [])
  }

  /** Times, since the last reset, of failures that reached the threshold within the window. */
  ghost function Trips(st: Settings, log: seq<Event>, c: ConfigId): seq<Time>
    decreases |log|, 0
  {
    if log == [] then []
    else
      var p, e := log[..|log| - 1], log[|log| - 1];
      if Resets(st, p, e, c) then []
      else Trips(st, p, c) +
           (if e.Failed? && e.config == c && |Recent(st, Failures(st, p, c), e.at)| + 1 >= st.threshold
            then [e.at] else [])
  }

  ghost predicate Unhealthy(st: Settings, log: seq<Event>, c: ConfigId, now: Time)
    decreases |log|, 1
  {
    var trips := Trips(st, log, c);
    exists i :: 0 <= i < |trips| && now < trips[i] + st.cooldown
  }

  lemma {:induction false} RecentAppend(st: Settings, a: seq<Time>, b: seq<Time>, now: Time)
    ensures Recent(st, a + b, now) == Recent(st, a, now) + Recent(st, b, now)
  {
    if |a| == 0 {
      assert a + b == b;
    } else {
      assert (a + b)[1..] == a[1..] + b;
      RecentAppend(st, a[1..], b, now);
      var head := if now - a[0] <= st.failureWindow then [a[0]] else [];
      Assoc(head, Recent(st, a[1..], now), Recent(st, b, now));
    }
  }

  /** Pruning early does not change what a later pruning keeps. */
  lemma {:induction false} RecentTwice(st: Settings, a: seq<Time>, now: Time, later: Time)
    requires now <= later
    ensures Recent(st, Recent(st, a, now), later) == Recent(st, a, later)
  {
    if a != [] {
      RecentTwice(st, a[1..], now, later);
      var head := if now - a[0] <= st.failureWindow then [a[0]] else [];
      RecentAppend(st, head, Recent(st, a[1..], now), later);
    }
  }

  // ----- what the maps mean -----

  function SessionsOn(usage: map<ConfigId, map<SessionId, Time>>, c: ConfigId): map<SessionId, Time>
  {
    if c in usage then usage[c] else map[]
  }

  function FailuresOn(failures: map<ConfigId, seq<Time>>, c: ConfigId): seq<Time>
  {
    if c in failures then failures[c] else []
  }

  function UntilOf(until: map<ConfigId, Time>, c: ConfigId): Option<Time>
  {
    if c in until then Some(until[c]) else None
  }

  /** The last-seen times held for one configuration are accurate, and only stale ones are missing. */
  ghost predicate UsageMatches(st: Settings, log: seq<Event>, seen: map<SessionId, Time>, c: ConfigId, clock: Time)
  {
    && (forall s :: s in seen ==> Assigned(c, s, seen[s]) in log)
    && (forall e :: e in log && e.Assigned? && e.config == c ==>
          if e.session in seen then e.at <= seen[e.session] else clock - e.at > st.usageWindow)
  }

  ghost predicate StickyMatches(st: Settings, log: seq<Event>, sticky: map<SessionId, (ConfigId, Time)>, s: SessionId,
                                clock: Time)
  {
    var r := StickyRecord(log, s);
    if s in sticky then r == Some(sticky[s])
    else r.Some? ==> clock - r.value.1 > st.stickyWindow
  }

  /** The kept failure times answer every later question as the full list would, and the
      cooldown end is that of the last trip. */
  ghost predicate BreakerMatches(st: Settings, log: seq<Event>, times: seq<Time>, until: Option<Time>,
                                 c: ConfigId, clock: Time)
  {
    var trips := Trips(st, log, c);
    && (forall now {:trigger Recent(st, times, now)} :: clock <= now ==>
          Recent(st, times, now) == Recent(st, Failures(st, log, c), now))
    && (forall i :: 0 <= i < |trips| ==> trips[i] <= clock && trips[i] <= trips[|trips| - 1])
    && until == (if trips == [] then None else Some(trips[|trips| - 1] + st.cooldown))
  }

  ghost predicate NoneAfter(log: seq<Event>, clock: Time)
  {
    forall e :: e in log && (e.Assigned? || e.Failed? || e.Probed?) ==> e.at <= clock
  }

  /** The event changes the breaker state of the configuration. */
  ghost predicate Touches(st: Settings, log: seq<Event>, e: Event, c: ConfigId)
  {
    (e.Failed? && e.config == c) || Resets(st, log, e, c)
  }

  lemma BreakerUnmoved(st: Settings, log: seq<Event>, e: Event, c: ConfigId)
    requires !Touches(st, log, e, c)
    ensures Failures(st, log + [e], c) == Failures(st, log, c) && Trips(st, log + [e], c) == Trips(st, log, c)
    ensures forall now :: Unhealthy(st, log + [e], c, now) == Unhealthy(st, log, c, now)
  {
    assert (log + [e])[..|log|] == log;
  }

  lemma BreakerReset(st: Settings, log: seq<Event>, e: Event, c: ConfigId)
    requires Resets(st, log, e, c)
    ensures Failures(st, log + [e], c) == [] && Trips(st, log + [e], c) == []
    ensures forall clock :: BreakerMatches(st, log + [e], [], None, c, clock)
  {
    assert (log + [e])[..|log|] == log;
  }

  lemma BreakerFailed(st: Settings, log: seq<Event>, c: ConfigId, at: Time)
    ensures var log' := log + [Failed(c, at)];
      && Failures(st, log', c) == Failures(st, log, c) + [at]
      && Trips(st, log', c) == Trips(st, log, c) +
           if |Recent(st, Failures(st, log, c), at)| + 1 >= st.threshold then [at] else []
  {
    assert (log + [Failed(c, at)])[..|log|] == log;
  }

  lemma StickyStep(log: seq<Event>, e: Event, s: SessionId)
    ensures StickyRecord(log + [e], s) ==
      (var before := StickyRecord(log, s);
       match e
       case Assigned(c, s', at) => if s' == s then Some((c, at)) else before
       case Unstuck(s', c) => if s' == s && before.Some? && before.value.0 == c then None else before
       case _ => before)
  {
    assert (log + [e])[..|log|] == log;
  }

  /** Entry `k` assigns the session to the configuration, and nothing after it moves or releases the session. */
  ghost predicate Stands(log: seq<Event>, k: nat, s: SessionId, c: ConfigId, at: Time)
  {
    && k < |log| && log[k] == Assigned(c, s, at)
    && forall j :: k < j < |log| ==> !(log[j].Assigned? && log[j].session == s) && log[j] != Unstuck(s, c)
  }

  /** A session is sticky to a configuration exactly when its last assignment is to it, was made within the
      sticky window, and has not been cleared from that configuration since. */
  lemma StickyCharacterised(st: Settings, log: seq<Event>, s: SessionId, c: ConfigId, now: Time)
    ensures Sticky(st, log, s, now) == Some(c) <==>
      exists k, at :: Stands(log, k, s, c, at) && now - at <= st.stickyWindow
  {
    hide StickyRecord;
    StandingRecord(log, s);
  }

  lemma {:induction false} StandingRecord(log: seq<Event>, s: SessionId)
    ensures StickyRecord(log, s).Some? ==>
      exists k :: Stands(log, k, s, StickyRecord(log, s).value.0, StickyRecord(log, s).value.1)
    ensures forall k, c, at :: Stands(log, k, s, c, at) ==> StickyRecord(log, s) == Some((c, at))
  {
    if |log| > 0 {
      var n := |log| - 1;
      StandingRecord(log[..n], s);
      assert log == log[..n] + [log[n]];
      StickyStep(log[..n], log[n], s);
      hide StickyRecord;
      var r := StickyRecord(log, s);
      if r.Some? {
        if StickyRecord(log[..n], s) == r && log[n] != Assigned(r.value.0, s, r.value.1) {
          var k :| Stands(log[..n], k, s, r.value.0, r.value.1);
          assert Stands(log, k, s, r.value.0, r.value.1);
        } else {
          assert Stands(log, n, s, r.value.0, r.value.1);
        }
      }
      forall k: nat, c, at | Stands(log, k, s, c, at) ensures r == Some((c, at))
      {
        if k < n {
          assert Stands(log[..n], k, s, c, at);
        }
      }
    }
  }

  /** The stored cooldown end decides health as the trips do. */
  lemma UnhealthyIsUntil(st: Settings, log: seq<Event>, times: seq<Time>, until: Option<Time>, c: ConfigId,
                         clock: Time, now: Time)
    requires BreakerMatches(st, log, times, until, c, clock)
    ensures Unhealthy(st, log, c, now) <==> until.Some? && now < until.value
    ensures until.Some? <==> Trips(st, log, c) != []
  {
    var trips := Trips(st, log, c);
    assert trips != [] ==> now < trips[|trips| - 1] + st.cooldown ==> Unhealthy(st, log, c, now);
  }

  // ----- each map, for all its keys, and how one event moves it -----

  ghost predicate UsageOk(st: Settings, log: seq<Event>, usage: map<ConfigId, map<SessionId, Time>>, clock: Time)
  {
    forall c :: UsageMatches(st, log, SessionsOn(usage, c), c, clock)
  }

  ghost predicate StickyOk(st: Settings, log: seq<Event>, sticky: map<SessionId, (ConfigId, Time)>, clock: Time)
  {
    forall s :: StickyMatches(st, log, sticky, s, clock)
  }

  ghost predicate BreakersOk(st: Settings, log: seq<Event>, failures: map<ConfigId, seq<Time>>,
                             until: map<ConfigId, Time>, clock: Time)
  {
    forall c :: BreakerMatches(st, log, FailuresOn(failures, c), UntilOf(until, c), c, clock)
  }

  lemma UsageKept(st: Settings, log: seq<Event>, usage: map<ConfigId, map<SessionId, Time>>, clock: Time, e: Event)
    requires UsageOk(st, log, usage, clock) && !e.Assigned?
    ensures UsageOk(st, log + [e], usage, clock)
  {
    forall c ensures UsageMatches(st, log + [e], SessionsOn(usage, c), c, clock)
    {
      assert UsageMatches(st, log, SessionsOn(usage, c), c, clock);
    }
  }

  lemma UsageAssigned(st: Settings, log: seq<Event>, usage: map<ConfigId, map<SessionId, Time>>, clock: Time,
                      c: ConfigId, s: SessionId)
    requires UsageOk(st, log, usage, clock) && NoneAfter(log, clock)
    ensures UsageOk(st, log + [Assigned(c, s, clock)], usage[c := SessionsOn(usage, c)[s := clock]], clock)
  {
    var e, usage' := Assigned(c, s, clock), usage[c := SessionsOn(usage, c)[s := clock]];
    forall d ensures UsageMatches(st, log + [e], SessionsOn(usage', d), d, clock)
    {
      assert UsageMatches(st, log, SessionsOn(usage, d), d, clock);
      assert d != c ==> SessionsOn(usage', d) == SessionsOn(usage, d);
      assert (log + [e])[|log|] == e;
    }
  }

  /** After pruning, exactly the sessions live in the log remain. */
  lemma UsagePruned(st: Settings, log: seq<Event>, usage: map<ConfigId, map<SessionId, Time>>,
                    usage': map<ConfigId, map<SessionId, Time>>, clock: Time, c: ConfigId)
    requires UsageOk(st, log, usage, clock)
    requires forall d :: d != c ==> SessionsOn(usage', d) == SessionsOn(usage, d)
    requires var all := SessionsOn(usage, c);
      SessionsOn(usage', c) == map s | s in all && clock - all[s] <= st.usageWindow :: all[s]
    ensures UsageOk(st, log, usage', clock)
    ensures SessionsOn(usage', c).Keys == Live(st, log, c, clock)
  {
    forall d ensures UsageMatches(st, log, SessionsOn(usage', d), d, clock)
    {
      assert UsageMatches(st, log, SessionsOn(usage, d), d, clock);
    }
    var all, kept := SessionsOn(usage, c), SessionsOn(usage', c);
    assert UsageMatches(st, log, all, c, clock);
    forall s | s in kept ensures s in Live(st, log, c, clock)
    {
      assert Assigned(c, s, all[s]) in log;
    }
  }

  lemma StickyKept(st: Settings, log: seq<Event>, sticky: map<SessionId, (ConfigId, Time)>, clock: Time, e: Event)
    requires StickyOk(st, log, sticky, clock) && !e.Assigned? && !e.Unstuck?
    ensures StickyOk(st, log + [e], sticky, clock)
  {
    forall s ensures StickyMatches(st, log + [e], sticky, s, clock)
    {
      assert StickyMatches(st, log, sticky, s, clock);
      StickyStep(log, e, s);
    }
  }

  lemma StickyAssigned(st: Settings, log: seq<Event>, sticky: map<SessionId, (ConfigId, Time)>, clock: Time,
                       c: ConfigId, s: SessionId)
    requires StickyOk(st, log, sticky, clock)
    ensures StickyOk(st, log + [Assigned(c, s, clock)], sticky[s := (c, clock)], clock)
  {
    var e, sticky' := Assigned(c, s, clock), sticky[s := (c, clock)];
    forall s' ensures StickyMatches(st, log + [e], sticky', s', clock)
    {
      assert StickyMatches(st, log, sticky, s', clock);
      StickyStep(log, e, s');
    }
  }

  lemma StickyCleared(st: Settings, log: seq<Event>, sticky: map<SessionId, (ConfigId, Time)>, clock: Time,
                      c: ConfigId, s: SessionId)
    requires StickyOk(st, log, sticky, clock)
    ensures StickyOk(st, log + [Unstuck(s, c)],
              if s in sticky && sticky[s].0 == c then sticky - {s} else sticky, clock)
  {
    var e, sticky' := Unstuck(s, c), if s in sticky && sticky[s].0 == c then sticky - {s} else sticky;
    forall s' ensures StickyMatches(st, log + [e], sticky', s', clock)
    {
      assert StickyMatches(st, log, sticky, s', clock);
      StickyStep(log, e, s');
    }
  }

  lemma BreakerMatchesKept(st: Settings, log: seq<Event>, times: seq<Time>, until: Option<Time>, c: ConfigId,
                           clock: Time, e: Event)
    requires BreakerMatches(st, log, times, until, c, clock) && !Touches(st, log, e, c)
    ensures BreakerMatches(st, log + [e], times, until, c, clock)
  {
    BreakerUnmoved(st, log, e, c);
    hide Trips, Failures, Resets, Recent;
  }

  lemma BreakersKept(st: Settings, log: seq<Event>, failures: map<ConfigId, seq<Time>>,
                     until: map<ConfigId, Time>, clock: Time, e: Event)
    requires BreakersOk(st, log, failures, until, clock)
    requires forall c :: !Touches(st, log, e, c)
    ensures BreakersOk(st, log + [e], failures, until, clock)
  {
    hide BreakerMatches;
    forall c ensures BreakerMatches(st, log + [e], FailuresOn(failures, c), UntilOf(until, c), c, clock)
    {
      BreakerMatchesKept(st, log, FailuresOn(failures, c), UntilOf(until, c), c, clock, e);
    }
  }

  /** An event about one configuration, with that configuration's entries brought up to date. */
  lemma BreakersMoved(st: Settings, log: seq<Event>, failures: map<ConfigId, seq<Time>>, until: map<ConfigId, Time>,
                      clock: Time, e: Event, c: ConfigId, failures': map<ConfigId, seq<Time>>,
                      until': map<ConfigId, Time>)
    requires BreakersOk(st, log, failures, until, clock)
    requires forall d :: d != c ==> !Touches(st, log, e, d)
    requires forall d :: d != c ==> FailuresOn(failures', d) == FailuresOn(failures, d)
    requires forall d :: d != c ==> UntilOf(until', d) == UntilOf(until, d)
    requires BreakerMatches(st, log + [e], FailuresOn(failures', c), UntilOf(until', c), c, clock)
    ensures BreakersOk(st, log + [e], failures', until', clock)
  {
    hide BreakerMatches, Touches;
    forall d ensures BreakerMatches(st, log + [e], FailuresOn(failures', d), UntilOf(until', d), d, clock)
    {
      if d != c {
        BreakerMatchesKept(st, log, FailuresOn(failures, d), UntilOf(until, d), d, clock, e);
      }
    }
  }

  /** Dropping failure times outside the window loses nothing a later question could count. */
  lemma BreakerAfterFailure(st: Settings, log: seq<Event>, times: seq<Time>, until: Option<Time>, c: ConfigId,
                            now: Time)
    requires BreakerMatches(st, log, times, until, c, now)
    ensures var kept := Recent(st, times, now) + [now];
      BreakerMatches(st, log + [Failed(c, now)], kept,
                     if |kept| >= st.threshold then Some(now + st.cooldown) else until, c, now)
  {
    hide Trips, Failures, Resets, Recent;
    BreakerFailed(st, log, c, now);
    var kept := Recent(st, times, now) + [now];
    assert Recent(st, times, now) == Recent(st, Failures(st, log, c), now);
    forall later | now <= later
      ensures Recent(st, kept, later) == Recent(st, Failures(st, log, c) + [now], later)
    {
      RecentTwice(st, times, now, later);
      RecentAppend(st, Recent(st, times, now), [now], later);
      RecentAppend(st, Failures(st, log, c), [now], later);
    }
  }

  lemma StoredHealth(st: Settings, log: seq<Event>, failures: map<ConfigId, seq<Time>>, until: map<ConfigId, Time>,
                     clock: Time, c: ConfigId)
    requires BreakersOk(st, log, failures, until, clock)
    ensures Unhealthy(st, log, c, clock) <==> c in until && clock < until[c]
    ensures c in until <==> Trips(st, log, c) != []
  {
    hide BreakerMatches, Trips, Unhealthy;
    assert BreakerMatches(st, log, FailuresOn(failures, c), UntilOf(until, c), c, clock);
    UnhealthyIsUntil(st, log, FailuresOn(failures, c), UntilOf(until, c), c, clock, clock);
  }

  lemma BreakersFailed(st: Settings, log: seq<Event>, failures: map<ConfigId, seq<Time>>,
                       until: map<ConfigId, Time>, clock: Time, c: ConfigId)
    requires BreakersOk(st, log, failures, until, clock)
    ensures var times := Recent(st, FailuresOn(failures, c), clock) + [clock];
      BreakersOk(st, log + [Failed(c, clock)], failures[c := times],
                 if |times| >= st.threshold then until[c := clock + st.cooldown] else until, clock)
  {
    var e, times := Failed(c, clock), Recent(st, FailuresOn(failures, c), clock) + [clock];
    var failures' := failures[c := times];
    var until' := if |times| >= st.threshold then until[c := clock + st.cooldown] else until;
    assert BreakerMatches(st, log, FailuresOn(failures, c), UntilOf(until, c), c, clock);
    BreakerAfterFailure(st, log, FailuresOn(failures, c), UntilOf(until, c), c, clock);
    assert forall d :: d != c ==> !Touches(st, log, e, d);
    hide BreakersOk, BreakerMatches, Recent, Touches;
    BreakersMoved(st, log, failures, until, clock, e, c, failures', until');
  }

  lemma TimePasses(st: Settings, log: seq<Event>, usage: map<ConfigId, map<SessionId, Time>>,
                   sticky: map<SessionId, (ConfigId, Time)>, failures: map<ConfigId, seq<Time>>,
                   until: map<ConfigId, Time>, clock: Time, now: Time)
    requires clock <= now
    requires UsageOk(st, log, usage, clock) && StickyOk(st, log, sticky, clock)
    requires BreakersOk(st, log, failures, until, clock)
    ensures UsageOk(st, log, usage, now) && StickyOk(st, log, sticky, now)
    ensures BreakersOk(st, log, failures, until, now)
  {
    forall c ensures UsageMatches(st, log, SessionsOn(usage, c), c, now)
    {
      assert UsageMatches(st, log, SessionsOn(usage, c), c, clock);
    }
    forall s ensures StickyMatches(st, log, sticky, s, now)
    {
      assert StickyMatches(st, log, sticky, s, clock);
    }
    forall c ensures BreakerMatches(st, log, FailuresOn(failures, c), UntilOf(until, c), c, now)
    {
      assert BreakerMatches(st, log, FailuresOn(failures, c), UntilOf(until, c), c, clock);
    }
  }

  class GlobalUsageWindow {
    const st: Settings
    var usage: map<ConfigId, map<SessionId, Time>>
    var sticky: map<SessionId, (ConfigId, Time)>
    var failures: map<ConfigId, seq<Time>>
    var until: map<ConfigId, Time>
    ghost var log: seq<Event>
    var clock: Time  // the last reading of the monotonic clock

    ghost predicate Valid()
      reads this
    {
      && NoneAfter(log, clock)
      && UsageOk(st, log, usage, clock)
      && StickyOk(st, log, sticky, clock)
      && BreakersOk(st, log, failures, until, clock)
    }

    constructor (st: Settings)
      ensures Valid() && this.st == st && log == []
    {
      this.st := st;
      usage, sticky, failures, until := map[], map[], map[], map[];
      log := [];
    }

    /** A reading of the monotonic clock: any time not before the previous reading. */
    method Monotonic() returns (now: Time)
      requires Valid()
      modifies this`clock
      ensures Valid() && old(clock) <= now == clock
    {
      now := *;
      if now < clock {
        now := clock;
      }
      TimePasses(st, log, usage, sticky, failures, until, clock, now);
      clock := now;
    }

    method PruneUsage(c: ConfigId, now: Time)
      requires Valid() && now == clock
      modifies this`usage
      ensures Valid()
      ensures SessionsOn(usage, c).Keys == Live(st, log, c, now)
    {
      hide StickyOk, BreakersOk;
      var sessions := SessionsOn(usage, c);
      ghost var before := usage;
      if sessions != map[] {
        var kept := map s | s in sessions && now - sessions[s] <= st.usageWindow :: sessions[s];
        usage := if kept == map[] then usage - {c} else usage[c := kept];
      }
      UsagePruned(st, log, before, usage, clock, c);
    }

    method RecordSession(c: ConfigId, s: SessionId)
      requires Valid()
      modifies this
      ensures Valid() && old(clock) <= clock
      ensures log == old(log) + [Assigned(c, s, clock)]
    {
      hide UsageOk, StickyOk, BreakersOk;
      var now := Monotonic();
      PruneUsage(c, now);
      UsageAssigned(st, log, usage, clock, c, s);
      StickyAssigned(st, log, sticky, clock, c, s);
      BreakersKept(st, log, failures, until, clock, Assigned(c, s, now));
      usage := usage[c := SessionsOn(usage, c)[s := now]];
      sticky := sticky[s := (c, now)];
      log := log + [Assigned(c, s, now)];
    }

    method StickyConfigId(s: SessionId) returns (r: Option<ConfigId>)
      requires Valid()
      modifies this
      ensures Valid() && old(clock) <= clock && log == old(log)
      ensures r == Sticky(st, log, s, clock)
    {
      hide UsageOk, BreakersOk;
      var now := Monotonic();
      assert StickyMatches(st, log, sticky, s, clock);
      if s !in sticky {
        return None;
      }
      var (c, lastSeen) := sticky[s];
      if now - lastSeen > st.stickyWindow {
        ghost var before := sticky;
        sticky := sticky - {s};
        assert forall s' :: StickyMatches(st, log, before, s', clock) ==> StickyMatches(st, log, sticky, s', clock);
        return None;
      }
      return Some(c);
    }

    method ClearStickySession(s: SessionId, c: ConfigId)
      requires Valid()
      modifies this
      ensures Valid() && clock == old(clock)
      ensures log == old(log) + [Unstuck(s, c)]
    {
      hide UsageOk, StickyOk, BreakersOk;
      UsageKept(st, log, usage, clock, Unstuck(s, c));
      StickyCleared(st, log, sticky, clock, c, s);
      BreakersKept(st, log, failures, until, clock, Unstuck(s, c));
      if s in sticky && sticky[s].0 == c {
        sticky := sticky - {s};
      }
      log := log + [Unstuck(s, c)];
    }

    method SessionCount(c: ConfigId) returns (n: nat)
      requires Valid()
      modifies this
      ensures Valid() && old(clock) <= clock && log == old(log)
      ensures n == |Live(st, log, c, clock)|
    {
      var now := Monotonic();
      PruneUsage(c, now);
      n := |SessionsOn(usage, c)|;
      assert |SessionsOn(usage, c)| == |SessionsOn(usage, c).Keys|;
    }

    /** Asking is itself an event: a query after the cooldown forgets the failures that led to it. */
    method IsUnhealthy(c: ConfigId) returns (r: bool)
      requires Valid()
      modifies this
      ensures Valid() && old(clock) <= clock
      ensures log == old(log) + [Probed(c, clock)]
      ensures r == Unhealthy(st, old(log), c, clock)
    {
      hide UsageOk, StickyOk, BreakersOk, BreakerMatches, Unhealthy, Trips;
      var now := Monotonic();
      ghost var e := Probed(c, now);
      UsageKept(st, log, usage, clock, e);
      StickyKept(st, log, sticky, clock, e);
      StoredHealth(st, log, failures, until, clock, c);
      r := c in until && now < until[c];
      if c in until && now >= until[c] {
        BreakerReset(st, log, e, c);
        BreakersMoved(st, log, failures, until, clock, e, c, failures - {c}, until - {c});
        until := until - {c};
        failures := failures - {c};
      } else {
        BreakersKept(st, log, failures, until, clock, e);
      }
      log := log + [e];
    }

    method RecordFailure(c: ConfigId)
      requires Valid()
      modifies this
      ensures Valid() && old(clock) <= clock
      ensures log == old(log) + [Failed(c, clock)]
    {
      hide UsageOk, StickyOk, BreakersOk, Recent;
      var now := Monotonic();
      ghost var e := Failed(c, now);
      UsageKept(st, log, usage, clock, e);
      StickyKept(st, log, sticky, clock, e);
      BreakersFailed(st, log, failures, until, clock, c);
      var times := Recent(st, FailuresOn(failures, c), now) + [now];
      failures := failures[c := times];
      if |times| >= st.threshold {
        until := until[c := now + st.cooldown];
      }
      log := log + [e];
    }

    method RecordSuccess(c: ConfigId)
      requires Valid()
      modifies this
      ensures Valid() && clock == old(clock)
      ensures log == old(log) + [Succeeded(c)]
    {
      hide UsageOk, StickyOk, BreakersOk;
      ghost var e := Succeeded(c);
      UsageKept(st, log, usage, clock, e);
      StickyKept(st, log, sticky, clock, e);
      BreakerReset(st, log, e, c);
      BreakersMoved(st, log, failures, until, clock, e, c, failures - {c}, until - {c});
      failures := failures - {c};
      until := until - {c};
      log := log + [e];
    }
  }
}
