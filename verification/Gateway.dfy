/**
  Choosing a model configuration and streaming from it, with retries that move between
  pooled configurations.
 */
module Gateway {
  import opened Text
  import opened UsageWindow
  import opened LlmTypes
  import opened Others
  import opened Delivery

  /** What the configuration repository returns at one moment. */
  datatype Repo = Repo(users: string -> seq<ConfigId>, globals: seq<ConfigId>)

  /** The runtime configuration a guest may supply with the request. */
  datatype RuntimeConfig = NoRuntime | Runtime(config: ConfigId) | Invalid(data: ErrorData)

  datatype Request = Request(
    configId: Option<ConfigId>,
    subject: Option<string>,
    session: Option<SessionId>,
    runtime: RuntimeConfig)

  datatype RuntimeSelection = Chosen(selection: Selection) | Refused(error: ErrorData)

  const RESOURCE_BUSY := ErrorData("resource_busy", "当前资源繁忙，请稍后再试", true)

  /** The repository does not change while the request runs. */
  ghost predicate Fixed(repos: nat -> Repo)
  {
    forall n :: repos(n) == repos(0)
  }

  lemma AsBefore(repos: nat -> Repo, n: nat)
    requires forall k :: Distinct(repos(k).globals)
    ensures Distinct(repos(n).globals) && (Fixed(repos) ==> repos(n) == repos(0))
  {
  }

  datatype Selection = Selection(config: ConfigId, pooled: bool)

  /** Clock readings taken while choosing. */
  datatype Readings = Readings(
    sticky: Time,
    stickyHealth: Time,
    health: map<ConfigId, Time>,
    count: map<ConfigId, Time>)

  predicate Named(id: Option<string>)
  {
    id.Some? && id.value != ""
  }

  /** The user's own configurations, when there are any, come before the pool. */
  function UserConfigs(repo: Repo, subject: Option<string>): seq<ConfigId>
  {
    if Named(subject) then repo.users(subject.value) else []
  }

  ghost function PoolOf(repo: Repo): set<ConfigId>
  {
    set c | c in repo.globals
  }

  predicate Eligible(repo: Repo, excluded: set<ConfigId>, c: ConfigId)
  {
    c in repo.globals && c !in excluded
  }

  /** What a request may be given: a guest's own configuration, an explicit one, the user's first own one,
      or one from the pool, in this order, and nothing only when the pool has none left. */
  ghost predicate RightChoice(req: Request, repo: Repo, excluded: set<ConfigId>, selected: Option<Selection>)
  {
    if req.runtime.Runtime? then selected == Some(Selection(req.runtime.config, false))
    else if req.configId.Some? then selected == Some(Selection(req.configId.value, false))
    else if req.subject.Some? && req.subject.value != "" && repo.users(req.subject.value) != [] then
      selected == Some(Selection(repo.users(req.subject.value)[0], false))
    else if selected.None? then forall c :: c in repo.globals ==> c in excluded
    else selected.value.pooled && selected.value.config in repo.globals && selected.value.config !in excluded
  }

  /** The session's live sticky configuration, if it is in the pool, not excluded and healthy when probed. */
  ghost predicate StickyHit(st: Settings, log: seq<Event>, repo: Repo, session: Option<SessionId>,
                            excluded: set<ConfigId>, at: Readings, c: ConfigId)
  {
    && Named(session)
    && Sticky(st, log, session.value, at.sticky) == Some(c)
    && Eligible(repo, excluded, c)
    && !Unhealthy(st, log, c, at.stickyHealth)
  }

  ghost predicate Healthy(st: Settings, log: seq<Event>, at: Readings, c: ConfigId)
    requires c in at.health
  {
    !Unhealthy(st, log, c, at.health[c])
  }

  /** What a choice from the pool must be, given the log before the choice. */
  ghost predicate GoodChoice(st: Settings, log: seq<Event>, repo: Repo, session: Option<SessionId>,
                             excluded: set<ConfigId>, at: Readings, c: ConfigId)
  {
    && Eligible(repo, excluded, c)
    && (forall k :: StickyHit(st, log, repo, session, excluded, at, k) ==> c == k)
    && ((forall k :: !StickyHit(st, log, repo, session, excluded, at, k)) ==> LeastBusy(st, log, repo, excluded, at, c))
  }

  /** Healthy if any eligible configuration is, and no busier than any other such candidate. */
  ghost predicate LeastBusy(st: Settings, log: seq<Event>, repo: Repo, excluded: set<ConfigId>, at: Readings,
                            c: ConfigId)
  {
    && (forall d :: Eligible(repo, excluded, d) ==> d in at.health)
    && c in at.health && c in at.count
    && (Healthy(st, log, at, c) || forall d :: Eligible(repo, excluded, d) ==> !Healthy(st, log, at, d))
    && (forall d :: Eligible(repo, excluded, d) && (Healthy(st, log, at, d) || !Healthy(st, log, at, c)) ==>
          d in at.count && |Live(st, log, c, at.count[c])| <= |Live(st, log, d, at.count[d])|)
  }

  /** The log entry a pooled choice leaves for a named session. */
  ghost function AssignmentOf(choice: Option<ConfigId>, session: Option<SessionId>, at: Time): seq<Event>
  {
    if choice.Some? && Named(session) then [Assigned(choice.value, session.value, at)] else []
  }

  /** The session's last assignment is to `c`, and nothing has cancelled it. */
  ghost predicate SticksTo(log: seq<Event>, session: Option<SessionId>, c: ConfigId)
  {
    && Named(session)
    && var record := StickyRecord(log, session.value);
       record.Some? && record.value.0 == c
  }

  lemma {:induction false} ProbesKeepSticky(log: seq<Event>, probes: seq<Event>, s: SessionId)
    requires forall e :: e in probes ==> e.Probed?
    ensures StickyRecord(log + probes, s) == StickyRecord(log, s)
  {
    if |probes| == 0 {
      assert log + probes == log;
    } else {
      hide StickyRecord;
      var n := |probes| - 1;
      assert log + probes == (log + probes[..n]) + [probes[n]];
      assert probes[n] in probes;
      ProbesKeepSticky(log, probes[..n], s);
      StickyStep(log + probes[..n], probes[n], s);
    }
  }

  /** After a choice from the pool the session sticks to it; without one, nothing changes. */
  lemma SticksAfterChoice(log: seq<Event>, probes: seq<Event>, choice: Option<ConfigId>, session: Option<SessionId>,
                          at: Time)
    requires forall e :: e in probes ==> e.Probed?
    ensures var log' := log + probes + AssignmentOf(choice, session, at);
      && (choice.Some? && Named(session) ==> SticksTo(log', session, choice.value))
      && (forall c :: SticksTo(log', session, c) ==> choice == Some(c) || SticksTo(log, session, c))
  {
    hide StickyRecord;
    if Named(session) {
      ProbesKeepSticky(log, probes, session.value);
      if choice.Some? {
        StickyStep(log + probes, Assigned(choice.value, session.value, at), session.value);
      } else {
        assert log + probes + [] == log + probes;
      }
    }
  }

  lemma Unnamed(log: seq<Event>, session: Option<SessionId>, c: ConfigId)
    requires session.None?
    ensures !SticksTo(log, session, c)
  {
  }

  lemma FailureKeepsSticky(log: seq<Event>, e: Event, session: Option<SessionId>, c: ConfigId)
    requires e.Failed? || e.Succeeded?
    ensures SticksTo(log + [e], session, c) <==> SticksTo(log, session, c)
  {
    hide StickyRecord;
    if Named(session) {
      StickyStep(log, e, session.value);
    }
  }

  /** A session lets go of the configuration it is cleared from. */
  lemma LetsGo(log: seq<Event>, session: Option<SessionId>, c: ConfigId)
    requires session.Some?
    ensures !SticksTo(log + [Unstuck(session.value, c)], session, c)
  {
    hide StickyRecord;
    StickyStep(log, Unstuck(session.value, c), session.value);
  }

  /** Every reading was taken during the call. */
  ghost predicate Within(at: Readings, first: Time, last: Time)
  {
    && first <= at.sticky <= last && first <= at.stickyHealth <= last
    && (forall c :: c in at.health ==> first <= at.health[c] <= last)
    && (forall c :: c in at.count ==> first <= at.count[c] <= last)
  }

  /** Every health query among the later events found its configuration healthy. */
  ghost predicate AnsweredHealthy(st: Settings, log: seq<Event>, later: seq<Event>)
  {
    forall k :: 0 <= k < |later| && later[k].Probed? ==>
      !Unhealthy(st, log + later[..k], later[k].config, later[k].at)
  }

  lemma AnsweredMore(st: Settings, log: seq<Event>, later: seq<Event>, e: Event)
    requires e.Probed?
    ensures AnsweredHealthy(st, log, later + [e]) <==>
      AnsweredHealthy(st, log, later) && !Unhealthy(st, log + later, e.config, e.at)
  {
    hide Unhealthy;
    var all := later + [e];
    assert all[|later|] == e && all[..|later|] == later;
    assert forall k :: 0 <= k < |later| ==> all[k] == later[k] && all[..k] == later[..k];
  }

  /** What a selection read about health was good: that of the session's sticky configuration, and of each
      configuration it probed. */
  ghost predicate HealthySeen(st: Settings, log: seq<Event>, repo: Repo, session: Option<SessionId>,
                              excluded: set<ConfigId>, at: Readings)
  {
    && (forall c :: c in at.health ==> Healthy(st, log, at, c))
    && (Named(session) ==>
          forall c :: Eligible(repo, excluded, c) && Sticky(st, log, session.value, at.sticky) == Some(c) ==>
          !Unhealthy(st, log, c, at.stickyHealth))
  }

  /** Only health probes, and none of them resets the breaker of `c`. */
  ghost predicate QuietFor(st: Settings, log: seq<Event>, probes: seq<Event>, c: ConfigId)
  {
    forall e :: e in probes ==> e.Probed? && (e.config == c ==> Unhealthy(st, log, c, e.at))
  }

  lemma {:induction false} QuietProbesKeepHealth(st: Settings, log: seq<Event>, probes: seq<Event>, c: ConfigId)
    requires QuietFor(st, log, probes, c)
    ensures Trips(st, log + probes, c) == Trips(st, log, c)
    ensures forall now :: Unhealthy(st, log + probes, c, now) == Unhealthy(st, log, c, now)
  {
    if probes == [] {
      assert log + probes == log;
    } else {
      var n := |probes| - 1;
      QuietProbesKeepHealth(st, log, probes[..n], c);
      assert probes[n] in probes;
      assert log + probes == (log + probes[..n]) + [probes[n]];
      assert !Resets(st, log + probes[..n], probes[n], c);
      BreakerUnmoved(st, log + probes[..n], probes[n], c);
    }
  }

  lemma ProbesKeepSessions(st: Settings, log: seq<Event>, probes: seq<Event>, c: ConfigId, now: Time)
    requires forall e :: e in probes ==> e.Probed?
    ensures Live(st, log + probes, c, now) == Live(st, log, c, now)
  {
  }

  lemma LeastIsLeastBusy(st: Settings, log: seq<Event>, repo: Repo, excluded: set<ConfigId>, at: Readings,
                         healthy: seq<ConfigId>, candidates: seq<ConfigId>, counts: map<ConfigId, nat>, c: ConfigId)
    requires forall d :: Eligible(repo, excluded, d) ==> d in at.health
    requires forall d :: d in healthy <==> Eligible(repo, excluded, d) && Healthy(st, log, at, d)
    requires if healthy != [] then candidates == healthy
             else forall d :: d in candidates <==> Eligible(repo, excluded, d)
    requires forall d :: d in candidates ==>
        d in counts && d in at.count && counts[d] == |Live(st, log, d, at.count[d])|
    requires c in candidates && forall d :: d in candidates ==> counts[c] <= counts[d]
    ensures Eligible(repo, excluded, c) && LeastBusy(st, log, repo, excluded, at, c)
  {
    hide Live, Healthy;
    if healthy != [] {
      assert healthy[0] in healthy;
    }
  }

  /** Choosing a configuration marks no failure and no success. */
  lemma SelectionLeavesNoMarks(log0: seq<Event>, probes: seq<Event>, choice: Option<ConfigId>,
                               session: Option<SessionId>, at: Time)
    requires forall e :: e in probes ==> e.Probed?
    ensures Marks(log0 + probes + AssignmentOf(choice, session, at)) == Marks(log0)
  {
    NoMarks(probes);
    NoMarks(AssignmentOf(choice, session, at));
    MarksAppend(log0, probes);
    MarksAppend(log0 + probes, AssignmentOf(choice, session, at));
  }

  /** A rotation over a repository's pool goes on with an eligible configuration, or stays when there is none. */
  lemma RotationGoesOn(trace: seq<Attempt>, d: nat, excluded: set<ConfigId>, repo: Repo, a: Attempt)
    returns (d': nat)
    requires Rotation(trace, d, excluded, PoolOf(repo), a.config)
    ensures var pool, excluded' := PoolOf(repo), excluded + {a.config};
      && DistinctThenRepeat(trace + [a], d', pool)
      && (forall next :: Eligible(repo, excluded', next) ==> Rotation(trace + [a], d', excluded', pool, next))
      && ((forall next :: !Eligible(repo, excluded', next)) ==> Rotation(trace + [a], d', excluded', pool, a.config))
      && ((forall next :: !Eligible(repo, excluded', next)) ==> pool <= Tried(trace + [a]))
    ensures d' == if a.config in excluded then d else |trace| + 1
  {
    var pool, excluded' := PoolOf(repo), excluded + {a.config};
    d' := RotationStep(trace, d, excluded, pool, a);
    if forall next :: !Eligible(repo, excluded', next) {
      forall c | c in pool ensures c in excluded'
      {
        assert !Eligible(repo, excluded', c);
      }
    }
  }

  /** The local state of a streaming run. */
  datatype Run = Run(
    config: ConfigId, pooled: bool, excluded: set<ConfigId>, attempt: nat, slept: real, out: seq<LlmEvent>, going: bool)

  /** What stays fixed during a run. `rotating`: the first choice was pooled and the repository does not change.
      `alone`: no other request assigns or clears the session. */
  datatype Env = Env(
    req: Request, repo: Repo, base: real, retries: nat,
    client: (nat, ConfigId) -> seq<LlmEvent>, counts: ErrorData -> bool, rotating: bool, alone: bool)

  ghost predicate RunOk(run: Run, trace: seq<Attempt>, d: nat, env: Env)
  {
    && 0.0 <= env.base
    && (env.rotating ==> env.req.configId.None? && UserConfigs(env.repo, env.req.subject) == [])
    && StaysUnpooled(trace)
    && (env.rotating ==> RepeatsWhenRetryable(trace, d))
    && (if run.going then
          && run.attempt == |trace|
          && Running(trace, run.out, run.slept, env.base, env.client, env.counts)
          && (trace != [] && !trace[0].pooled ==>
                !run.pooled && run.config == trace[0].config && Retryable(trace[|trace| - 1]))
          && (env.rotating ==>
                && run.pooled && Rotation(trace, d, run.excluded, PoolOf(env.repo), run.config)
                && (run.config in run.excluded ==> trace != [] && Retryable(trace[|trace| - 1])))
        else
          && trace != []
          && Finished(trace, run.out, run.slept, env.base, env.retries, env.client, env.counts)
          && GaveUpRightly(trace, env.retries, env.counts, env.rotating, PoolOf(env.repo))
          && (env.rotating ==> DistinctThenRepeat(trace, d, PoolOf(env.repo))))
  }

  /** If anything in the pool is untried, the session has been moved to such a configuration. */
  ghost predicate MovedOn(log: seq<Event>, session: Option<SessionId>, pool: set<ConfigId>, tried: set<ConfigId>)
  {
    Named(session) && !(pool <= tried) ==> exists c :: c in pool && c !in tried && SticksTo(log, session, c)
  }

  lemma MovedTo(log: seq<Event>, session: Option<SessionId>, repo: Repo, tried: set<ConfigId>,
                selected: Option<Selection>)
    requires if selected.None? then forall c :: !Eligible(repo, tried, c)
             else Eligible(repo, tried, selected.value.config)
                  && (Named(session) ==> SticksTo(log, session, selected.value.config))
    ensures MovedOn(log, session, PoolOf(repo), tried)
  {
    hide SticksTo, Named;
    if selected.None? {
      assert forall c :: c in PoolOf(repo) && c !in tried ==> Eligible(repo, tried, c);
    }
  }

  /** While a run goes on, the session sticks to the configuration just chosen for it. */
  ghost predicate SessionFollows(log: seq<Event>, session: Option<SessionId>, run: Run, alone: bool)
  {
    alone && run.pooled && run.config !in run.excluded && Named(session) ==> SticksTo(log, session, run.config)
  }

  /** The configurations of pooled attempts, which are the ones a run excludes. */
  ghost function PooledTried(trace: seq<Attempt>): set<ConfigId>
  {
    set i | 0 <= i < |trace| && trace[i].pooled :: trace[i].config
  }

  ghost predicate Excluding(run: Run, trace: seq<Attempt>, rotating: bool)
  {
    run.excluded == PooledTried(trace) && (rotating ==> run.excluded == Tried(trace))
  }

  lemma NothingExcluded(run: Run, rotating: bool)
    requires run.excluded == {}
    ensures Excluding(run, [], rotating)
  {
  }

  lemma ExcludingMore(run: Run, trace: seq<Attempt>, rotating: bool, a: Attempt, run': Run)
    requires Excluding(run, trace, rotating)
    requires run'.excluded == if a.pooled then run.excluded + {a.config} else run.excluded
    requires rotating ==> a.pooled
    ensures Excluding(run', trace + [a], rotating) && run.excluded <= Tried(trace)
    ensures rotating ==> run'.excluded == run.excluded + {a.config} == Tried(trace + [a])
    ensures (trace + [a])[..|trace|] == trace
  {
    var trace' := trace + [a];
    assert trace'[|trace|] == a;
    assert forall i :: 0 <= i < |trace| ==> trace'[i] == trace[i];
    forall c ensures c in PooledTried(trace') <==> c in run'.excluded
    {
      if c in PooledTried(trace) {
        var i :| 0 <= i < |trace| && trace[i].pooled && trace[i].config == c;
        assert trace'[i].config == c;
      }
    }
    TriedMore(trace, a, run.excluded);
  }

  /** The circumstances of a selection from the pool: the log before it, what was read, and between which times. */
  datatype Pick = Pick(log: seq<Event>, at: Readings, start: Time, end: Time)

  /** A good choice, made on readings taken after everything in the log. */
  ghost predicate WellPicked(st: Settings, repo: Repo, session: Option<SessionId>, excluded: set<ConfigId>, pick: Pick,
                             c: ConfigId)
  {
    && GoodChoice(st, pick.log, repo, session, excluded, pick.at, c)
    && Within(pick.at, pick.start, pick.end) && NoneAfter(pick.log, pick.start)
  }

  /** The attempt is not a pooled one on a configuration used for the first time, or it was well picked. */
  ghost predicate PickedAt(pick: Pick, trace: seq<Attempt>, i: nat, st: Settings, repo: Repo,
                           session: Option<SessionId>)
    requires i < |trace|
  {
    trace[i].pooled && trace[i].config !in PooledTried(trace[..i]) ==>
      WellPicked(st, repo, session, PooledTried(trace[..i]), pick, trace[i].config)
  }

  /** Every attempt on a new pooled configuration was a good choice, given the log before its selection, the
      repository then, and the earlier attempts' configurations as excluded. */
  ghost predicate Picked(picks: seq<Pick>, trace: seq<Attempt>, st: Settings, repos: nat -> Repo,
                         session: Option<SessionId>)
  {
    |picks| >= |trace| && forall i :: 0 <= i < |trace| ==> PickedAt(picks[i], trace, i, st, repos(i), session)
  }

  /** The logs of the selections lie between two moments. */
  ghost predicate LogsWithin(picks: seq<Pick>, first: seq<Event>, last: seq<Event>)
  {
    forall p :: p in picks ==> first <= p.log <= last
  }

  ghost predicate PicksFollow(picks: seq<Pick>, run: Run, trace: seq<Attempt>, st: Settings, repos: nat -> Repo,
                              session: Option<SessionId>)
  {
    && Picked(picks, trace, st, repos, session)
    && |picks| == |trace| + (if run.going then 1 else 0)
    && (run.going && run.pooled && run.config !in run.excluded ==>
          WellPicked(st, repos(|trace|), session, run.excluded, picks[|trace|], run.config))
  }

  lemma PicksMore(picks: seq<Pick>, run: Run, trace: seq<Attempt>, st: Settings, repos: nat -> Repo,
                  session: Option<SessionId>, rotating: bool, a: Attempt, run': Run, pick: Pick)
    requires PicksFollow(picks, run, trace, st, repos, session) && run.going
    requires Excluding(run, trace, rotating) && a.config == run.config && a.pooled == run.pooled
    requires run'.going && run'.pooled && run'.config !in run'.excluded ==>
      WellPicked(st, repos(|trace| + 1), session, run'.excluded, pick, run'.config)
    ensures PicksFollow(picks + (if run'.going then [pick] else []), run', trace + [a], st, repos, session)
  {
    hide WellPicked, PooledTried, Tried;
    var trace', picks' := trace + [a], picks + if run'.going then [pick] else [];
    forall i | 0 <= i < |trace'| ensures PickedAt(picks'[i], trace', i, st, repos(i), session)
    {
      assert trace'[..i] == trace[..i] && picks'[i] == picks[i];
      if i < |trace| {
        assert PickedAt(picks[i], trace, i, st, repos(i), session);
      } else {
        assert trace[..i] == trace;
      }
    }
  }

  lemma PicksAtEnd(picks: seq<Pick>, run: Run, trace: seq<Attempt>, st: Settings, repos: nat -> Repo,
                   session: Option<SessionId>)
    requires PicksFollow(picks, run, trace, st, repos, session)
    ensures Picked(picks, trace, st, repos, session)
  {
  }

  lemma OneLog(pick: Pick, first: seq<Event>, last: seq<Event>)
    requires first <= pick.log <= last
    ensures LogsWithin([pick], first, last)
  {
  }

  lemma LogsMore(picks: seq<Pick>, pick: Pick, going: bool, first: seq<Event>, before: seq<Event>, after: seq<Event>)
    requires LogsWithin(picks, first, before) && first <= before <= after
    requires going ==> before <= pick.log <= after
    ensures LogsWithin(picks + (if going then [pick] else []), first, after)
  {
    assert forall p :: p in picks ==> first <= p.log <= before;
  }

  lemma NothingLogged(counts: ErrorData -> bool)
    ensures Marks([]) == [] && MarksOf([], counts) == [] && Acts([]) == []
  {
  }

  lemma FirstPoint(others: nat -> seq<Op>)
    ensures [] + Effects(others(0)) == Effects(UpTo(others, 1))
  {
    EffectsUpTo(others, 0);
    NothingDone();
  }

  lemma NextPoints(others: nat -> seq<Op>, n: nat)
    ensures Effects(UpTo(others, 2 * (n + 1) + 1)) ==
      Effects(UpTo(others, 2 * n + 1)) + Effects(others(2 * n + 1)) + Effects(others(2 * n + 2))
  {
    EffectsUpTo(others, 2 * n + 1);
    EffectsUpTo(others, 2 * n + 2);
  }

  lemma AloneAt(others: nat -> seq<Op>, session: Option<SessionId>, n: nat)
    ensures AloneWith(others, session) ==> Avoids(others(n), session) && Avoids(others(n + 1), session)
  {
  }

  /** A failure, and the session's release from the configuration when there is a session. */
  function Blame(config: ConfigId, at: Time, session: Option<SessionId>): seq<Event>
  {
    [Failed(config, at)] + if session.Some? then [Unstuck(session.value, config)] else []
  }

  lemma BlameMarks(config: ConfigId, at: Time, session: Option<SessionId>)
    ensures Marks(Blame(config, at, session)) == [Mark(config, true)]
  {
    NothingMarked();
    OneMark([], Failed(config, at));
    assert [] + [Failed(config, at)] == [Failed(config, at)];
    if session.Some? {
      OneMark([Failed(config, at)], Unstuck(session.value, config));
    } else {
      assert [Failed(config, at)] + [] == [Failed(config, at)];
    }
  }

  /** However the events of a request and of others are merged, no health record is lost or added. */
  lemma MarksShared(before: seq<Event>, after: seq<Event>, account: Account)
    requires Grew(before, after, account)
    ensures multiset(Marks(after)) ==
      multiset(Marks(before)) + multiset(Marks(account.own)) + multiset(Marks(account.foreign))
  {
    hide Woven, Marks;
    MarksAppend(before, after[|before|..]);
    assert after == before + after[|before|..];
    WovenMarks(after[|before|..], account.own, account.foreign);
  }

  lemma {:induction false} WovenMarks(log: seq<Event>, own: seq<Event>, foreign: seq<Event>)
    requires Woven(log, own, foreign)
    ensures multiset(Marks(log)) == multiset(Marks(own)) + multiset(Marks(foreign))
  {
    if |log| > 0 {
      var n := |log| - 1;
      if |own| > 0 && own[|own| - 1] == log[n] && Woven(log[..n], own[..|own| - 1], foreign) {
        WovenMarks(log[..n], own[..|own| - 1], foreign);
      } else {
        WovenMarks(log[..n], own, foreign[..|foreign| - 1]);
      }
    }
  }

  lemma NothingMarked()
    ensures Marks([]) == []
  {
  }

  lemma PicksStart(pick: Pick, run: Run, st: Settings, repos: nat -> Repo, session: Option<SessionId>)
    requires run.going && run.excluded == {}
    requires run.pooled ==> WellPicked(st, repos(0), session, {}, pick, run.config)
    ensures PicksFollow([pick], run, [], st, repos, session)
  {
    hide WellPicked;
  }

  /** No other request assigns or clears the session. */
  ghost predicate AloneWith(others: nat -> seq<Op>, session: Option<SessionId>)
  {
    forall n :: Avoids(others(n), session)
  }

  /** In the end the session has left a pooled configuration that was given up, for an untried one if a pool
      that stays the same has any, even though the request does not try that one any more. It sticks to a
      configuration that was chosen for the last attempt and not given up. */
  ghost predicate SessionSettled(log: seq<Event>, session: Option<SessionId>, trace: seq<Attempt>,
                                 counts: ErrorData -> bool, rotating: bool, pool: set<ConfigId>, alone: bool)
    requires |trace| > 0
  {
    var last := trace[|trace| - 1];
    && (alone && last.pooled && Abandoned(last, counts) ==> !SticksTo(log, session, last.config))
    && (alone && last.pooled && !Abandoned(last, counts) && last.config !in Tried(trace[..|trace| - 1]) ==>
          Named(session) ==> SticksTo(log, session, last.config))
    && (rotating && Abandoned(last, counts) ==> MovedOn(log, session, pool, Tried(trace)))
  }

  /** Neither the pool nor the choice outside it can change during the run. */
  ghost predicate Steady(run: Run, trace: seq<Attempt>, env: Env)
  {
    env.rotating || (if trace == [] then !run.pooled else !trace[0].pooled)
  }

  /** In a steady run the pauses are exactly those before a repeated configuration. */
  ghost predicate PausesFollow(run: Run, trace: seq<Attempt>, env: Env)
  {
    Steady(run, trace, env) ==>
      run.slept == Slept(env.base, Configs(trace) + if run.going then [run.config] else [])
  }

  lemma PauseStep(run: Run, trace: seq<Attempt>, d: nat, env: Env, a: Attempt, j: nat, next: Option<Selection>,
                  retrySame: bool, run': Run)
    requires RunOk(run, trace, d, env) && run.going && PausesFollow(run, trace, env)
    requires Decided(run, env, a, j, next, retrySame)
    requires a.config == run.config && a.pooled == run.pooled
    requires run'.going == (next.Some? || retrySame)
    requires next.Some? ==> run'.config == next.value.config && run'.slept == run.slept
    requires next.None? && retrySame ==>
        run'.config == run.config && run'.slept == run.slept + Pause(env.base, run.attempt)
    requires next.None? && !retrySame ==> run'.slept == run.slept
    ensures PausesFollow(run', trace + [a], env)
  {
    hide Slept, Pause, Abandoned, Retryable, Running, Rotation, Finished, StaysUnpooled, RepeatsWhenRetryable;
    var configs := Configs(trace) + [run.config];
    assert Configs(trace + [a]) == configs;
    assert configs + [] == configs;
    if run'.going {
      SleptMore(env.base, configs, run'.config);
    }
  }

  lemma NoPauses(run: Run, env: Env)
    requires run.slept == 0.0 && run.going
    ensures PausesFollow(run, [], env)
  {
  }

  lemma PausesAtEnd(run: Run, trace: seq<Attempt>, env: Env)
    requires PausesFollow(run, trace, env) && !run.going && |trace| > 0
    ensures env.rotating || !trace[0].pooled ==> run.slept == Slept(env.base, Configs(trace))
  {
    assert Configs(trace) + [] == Configs(trace);
  }

  lemma TriedMore(trace: seq<Attempt>, a: Attempt, excluded: set<ConfigId>)
    requires excluded <= Tried(trace)
    ensures excluded + {a.config} <= Tried(trace + [a])
    ensures excluded == Tried(trace) ==> excluded + {a.config} == Tried(trace + [a])
    ensures (trace + [a])[..|trace|] == trace
  {
    assert (trace + [a])[|trace|] == a;
    forall c | c in excluded ensures c in Tried(trace + [a])
    {
      var i :| 0 <= i < |trace| && trace[i].config == c;
      assert (trace + [a])[i].config == c;
    }
  }

  lemma RunOkStarts(run: Run, env: Env)
    requires run == Run(run.config, run.pooled, {}, 0, 0.0, [], true)
    requires 0.0 <= env.base
    requires env.rotating ==> run.pooled && env.req.configId.None? && UserConfigs(env.repo, env.req.subject) == []
    ensures RunOk(run, [], 0, env) && MarksOf([], env.counts) == []
  {
    RotationStarts(PoolOf(env.repo), run.config);
  }

  lemma RunOkRotating(run: Run, trace: seq<Attempt>, d: nat, env: Env)
    requires RunOk(run, trace, d, env) && run.going && env.rotating
    ensures run.pooled && env.req.configId.None? && UserConfigs(env.repo, env.req.subject) == []
  {
  }

  lemma RunOkFinished(run: Run, trace: seq<Attempt>, d: nat, env: Env)
    requires RunOk(run, trace, d, env) && !run.going
    ensures trace != [] && Finished(trace, run.out, run.slept, env.base, env.retries, env.client, env.counts)
    ensures Report(trace, d, env.retries, env.counts, env.rotating, PoolOf(env.repo))
  {
  }

  lemma NotExcluded(repo: Repo, excluded: set<ConfigId>, c: ConfigId)
    requires Eligible(repo, excluded, c)
    ensures c !in excluded
  {
  }

  /** Why the loop goes on or stops after an attempt that was read up to event `j`. */
  ghost predicate Decided(run: Run, env: Env, a: Attempt, j: nat, next: Option<Selection>, retrySame: bool)
  {
    var none := forall c :: !Eligible(env.repo, run.excluded + {run.config}, c);
    && (next.Some? || retrySame ==> j < |a.events| && Abandoned(a, env.counts))
    && (env.rotating && next.Some? ==>
          next.value.pooled && Eligible(env.repo, run.excluded + {run.config}, next.value.config))
    && (env.rotating && retrySame ==> none)
    && (next.Some? ==> run.pooled) && (retrySame ==> Retryable(a))
    && (Abandoned(a, env.counts) && run.attempt < env.retries ==>
          next.Some? || retrySame || (!Retryable(a) && (env.rotating ==> none)))
  }

  lemma DecidedOnError(run: Run, env: Env, a: Attempt, j: nat, next: Option<Selection>, retrySame: bool)
    requires j < |a.events| && a.events[j].Error?
    requires forall i :: 0 <= i < j ==> !a.events[i].Terminal()
    requires var data, quiet := a.events[j].data, forall i :: 0 <= i < j ==> a.events[i].IsStart();
      && (next.Some? || retrySame ==> env.counts(data) && quiet)
      && (next.Some? ==> run.pooled)
      && (retrySame ==> data.retryable)
      && (env.counts(data) && quiet && run.attempt < env.retries && data.retryable ==> next.Some? || retrySame)
      && (env.rotating ==>
            && (next.Some? ==>
                  next.value.pooled && Eligible(env.repo, run.excluded + {run.config}, next.value.config))
            && (retrySame || (env.counts(data) && quiet && run.attempt < env.retries && next.None?) ==>
                  forall c :: !Eligible(env.repo, run.excluded + {run.config}, c)))
    ensures Decided(run, env, a, j, next, retrySame)
  {
    hide Eligible, Cut;
    CutAt(a.events, j);
  }

  lemma DecidedOtherwise(run: Run, env: Env, a: Attempt, j: nat)
    requires j <= |a.events| && (j < |a.events| ==> a.events[j].MessageStop?)
    requires forall i :: 0 <= i < j ==> !a.events[i].Terminal()
    ensures Decided(run, env, a, j, None, false) && !Abandoned(a, env.counts)
  {
    hide Eligible, Cut;
    CutAt(a.events, j);
    if j == |a.events| && |a.events| > 0 {
      assert !a.events[j - 1].Terminal();
    }
  }

  /** Every way an attempt can end keeps the run in order. */
  lemma RunStep(run: Run, trace: seq<Attempt>, d: nat, env: Env, a: Attempt, j: nat,
                next: Option<Selection>, retrySame: bool)
    returns (d': nat)
    requires RunOk(run, trace, d, env) && run.going && run.attempt <= env.retries
    requires a == Attempt(run.config, run.pooled, env.client(run.attempt, run.config))
    requires j <= |a.events| && forall i :: 0 <= i < j ==> !a.events[i].Terminal()
    requires j < |a.events| ==> a.events[j].Terminal()
    requires Decided(run, env, a, j, next, retrySame)
    ensures var sent := run.out + [SelectedConfig(run.config, run.pooled)] + a.events[..j];
      var excluded := if run.pooled then run.excluded + {run.config} else run.excluded;
      var stopped := sent + if j < |a.events| then [a.events[j]] else [];
      && (next.None? && !retrySame ==>
            RunOk(Run(run.config, run.pooled, excluded, run.attempt, run.slept, stopped, false), trace + [a], d', env))
      && (next.Some? ==>
            RunOk(Run(next.value.config, next.value.pooled, excluded, run.attempt + 1, run.slept, sent, true),
                               trace + [a], d', env))
      && (retrySame ==> RunOk(Run(run.config, run.pooled, excluded, run.attempt + 1,
                                  run.slept + Pause(env.base, run.attempt), sent, true), trace + [a], d', env))
  {
    hide Running, Finished, DistinctThenRepeat, Abandoned, Retryable, Eligible, UserConfigs, Pause;
    RunEnds(trace, run.out, run.slept, env.base, env.retries, env.client, env.counts, a, j);
    if next.Some? || retrySame {
      RunGoesOn(trace, run.out, run.slept, env.base, env.client, env.counts, a, j);
    }
    d' := 0;
    if env.rotating {
      assert run.config !in run.excluded ==> d == |trace|;
      d' := RotationGoesOn(trace, d, run.excluded, env.repo, a);
    }
    if next.Some? && env.rotating {
      NotExcluded(env.repo, run.excluded + {run.config}, next.value.config);
    }
    hide Rotation;
    assert (trace + [a])[|trace|] == a;
    assert forall i :: 0 <= i < |trace| ==> (trace + [a])[i] == trace[i];
  }

  /** The pauses of a run: one before each repeated configuration, which adds up to a closed form. */
  ghost predicate Paused(slept: real, base: real, trace: seq<Attempt>, d: nat, fixed: bool)
    requires trace != []
  {
    && (fixed || !trace[0].pooled ==> slept == Slept(base, Configs(trace)))
    && (!trace[0].pooled ==> slept == base * (Pow2(|trace| - 1) - 1) as real)
    && (fixed && trace[0].pooled ==>
          0 < d <= |trace| && slept == base * (Pow2(|trace| - 1) - Pow2(d - 1)) as real)
  }

  lemma PausesAdded(slept: real, base: real, trace: seq<Attempt>, d: nat, retries: nat, counts: ErrorData -> bool,
                    fixed: bool, pool: set<ConfigId>)
    requires trace != [] && Report(trace, d, retries, counts, fixed && trace[0].pooled, pool)
    requires fixed || !trace[0].pooled ==> slept == Slept(base, Configs(trace))
    ensures Paused(slept, base, trace, d, fixed)
  {
    hide Slept, StaysUnpooled, DistinctThenRepeat, Pow2, Configs;
    SleptInRun(base, trace, d, pool);
  }

  class LLMGateway {
    const usage: GlobalUsageWindow
    const maxRetries: nat
    const baseDelay: real
    const countsAgainstHealth: ErrorData -> bool

    ghost predicate Valid()
      reads this, usage
    {
      usage.Valid()
    }

    constructor (st: Settings, maxRetries: nat, baseDelay: real, countsAgainstHealth: ErrorData -> bool)
      ensures Valid() && fresh(usage) && usage.st == st && usage.log == []
      ensures this.maxRetries == maxRetries && this.baseDelay == baseDelay
      ensures this.countsAgainstHealth == countsAgainstHealth
    {
      usage := new GlobalUsageWindow(st);
      this.maxRetries := maxRetries;
      this.baseDelay := baseDelay;
      this.countsAgainstHealth := countsAgainstHealth;
    }

    /** Probe the health of each eligible configuration in turn. */
    method HealthyOf(eligible: seq<ConfigId>, ghost log0: seq<Event>, ghost probes0: seq<Event>)
      returns (healthy: seq<ConfigId>, ghost at: map<ConfigId, Time>, ghost probes: seq<Event>)
      requires Valid() && usage.log == log0 + probes0
      requires Distinct(eligible)
      requires forall c :: c in eligible ==> QuietFor(usage.st, log0, probes0, c)
      requires forall e :: e in probes0 ==> e.Probed?
      modifies usage
      ensures Valid() && old(usage.clock) <= usage.clock && usage.log == log0 + probes
      ensures forall e :: e in probes ==> e.Probed?
      ensures at.Keys == set c | c in eligible
      ensures forall c :: c in at ==> old(usage.clock) <= at[c] <= usage.clock
      ensures forall c :: c in healthy <==> c in eligible && !Unhealthy(usage.st, log0, c, at[c])
      ensures AnsweredHealthy(usage.st, log0, probes) ==>
        AnsweredHealthy(usage.st, log0, probes0) && forall c :: c in at ==> !Unhealthy(usage.st, log0, c, at[c])
    {
      hide AnsweredHealthy;
      hide Unhealthy, NoneAfter, UsageOk, StickyOk, BreakersOk;
      healthy, at, probes := [], map[], probes0;
      for i := 0 to |eligible|
        invariant Valid() && old(usage.clock) <= usage.clock && usage.log == log0 + probes
        invariant forall e :: e in probes ==> e.Probed?
        invariant at.Keys == set c | c in eligible[..i]
        invariant forall c :: c in at ==> old(usage.clock) <= at[c] <= usage.clock
        invariant forall c :: c in healthy <==> c in eligible[..i] && !Unhealthy(usage.st, log0, c, at[c])
        invariant forall j :: i <= j < |eligible| ==> QuietFor(usage.st, log0, probes, eligible[j])
        invariant AnsweredHealthy(usage.st, log0, probes) ==>
            AnsweredHealthy(usage.st, log0, probes0) && forall c :: c in at ==> !Unhealthy(usage.st, log0, c, at[c])
      {
        var c := eligible[i];
        QuietProbesKeepHealth(usage.st, log0, probes, c);
        var bad := usage.IsUnhealthy(c);
        assert c !in eligible[..i];
        assert eligible[..i + 1] == eligible[..i] + [c];
        AnsweredMore(usage.st, log0, probes, Probed(c, usage.clock));
        at := at[c := usage.clock];
        probes := probes + [Probed(c, usage.clock)];
        if !bad {
          healthy := healthy + [c];
        }
      }
      assert eligible[..|eligible|] == eligible;
    }

    /** Live session count of each candidate. */
    method CountsOf(candidates: seq<ConfigId>)
      returns (counts: map<ConfigId, nat>, ghost at: map<ConfigId, Time>)
      requires Valid()
      modifies usage
      ensures Valid() && old(usage.clock) <= usage.clock && usage.log == old(usage.log)
      ensures counts.Keys == at.Keys == set c | c in candidates
      ensures forall c :: c in at ==> old(usage.clock) <= at[c] <= usage.clock
      ensures forall c :: c in at ==> counts[c] == |Live(usage.st, usage.log, c, at[c])|
    {
      hide Live, NoneAfter, UsageOk, StickyOk, BreakersOk;
      counts, at := map[], map[];
      for i := 0 to |candidates|
        invariant Valid() && old(usage.clock) <= usage.clock && usage.log == old(usage.log)
        invariant counts.Keys == at.Keys == set c | c in candidates[..i]
        invariant forall c :: c in at ==> old(usage.clock) <= at[c] <= usage.clock
        invariant forall c :: c in at ==> counts[c] == |Live(usage.st, usage.log, c, at[c])|
      {
        var c := candidates[i];
        var n := usage.SessionCount(c);
        assert candidates[..i + 1] == candidates[..i] + [c];
        counts, at := counts[c := n], at[c := usage.clock];
      }
      assert candidates[..|candidates|] == candidates;
    }

    /** The pool part of a selection: the sticky configuration if it will do, else the least busy candidate. */
    method ChooseFromPool(session: Option<SessionId>, excluded: set<ConfigId>, repo: Repo)
      returns (r: Option<ConfigId>, ghost at: Readings, ghost probes: seq<Event>)
      requires Valid() && Distinct(repo.globals)
      modifies usage
      ensures Valid() && old(usage.clock) <= usage.clock
      ensures forall e :: e in probes ==> e.Probed?
      ensures usage.log == old(usage.log) + probes + AssignmentOf(r, session, usage.clock)
      ensures r.None? <==> forall c :: !Eligible(repo, excluded, c)
      ensures r.Some? ==> GoodChoice(usage.st, old(usage.log), repo, session, excluded, at, r.value)
      ensures Within(at, old(usage.clock), usage.clock)
      ensures AnsweredHealthy(usage.st, old(usage.log), probes) ==>
        HealthySeen(usage.st, old(usage.log), repo, session, excluded, at)
    {
      hide AnsweredHealthy;
      hide Unhealthy, Sticky, Live, NoneAfter, UsageOk, StickyOk, BreakersOk;
      ghost var log0 := usage.log;
      at, probes := Readings(usage.clock, usage.clock, map[], map[]), [];
      assert log0 + [] == log0;
      if repo.globals == [] {
        return None, at, probes;
      }
      if Named(session) {
        var sticky := usage.StickyConfigId(session.value);
        at := at.(sticky := usage.clock, stickyHealth := usage.clock);
        if sticky.Some? && sticky.value !in excluded && sticky.value in repo.globals {
          var bad := usage.IsUnhealthy(sticky.value);
          at := at.(stickyHealth := usage.clock);
          AnsweredMore(usage.st, log0, [], Probed(sticky.value, usage.clock));
          probes := [Probed(sticky.value, usage.clock)];
          assert [] + probes == probes;
          if !bad {
            assert Eligible(repo, excluded, sticky.value);
            assert StickyHit(usage.st, log0, repo, session, excluded, at, sticky.value);
            usage.RecordSession(sticky.value, session.value);
            return Some(sticky.value), at, probes;
          }
        }
      }
      assert forall k :: !StickyHit(usage.st, log0, repo, session, excluded, at, k);
      hide StickyHit;
      r, at, probes := ChooseLeastBusy(excluded, repo, at, log0, probes);
      if r.Some? && Named(session) {
        usage.RecordSession(r.value, session.value);
      }
    }

    /** Healthy candidates if there are any, else all eligible ones; then any of the least busy. */
    method ChooseLeastBusy(excluded: set<ConfigId>, repo: Repo, ghost at0: Readings, ghost log0: seq<Event>,
                           ghost probes0: seq<Event>)
      returns (r: Option<ConfigId>, ghost at: Readings, ghost probes: seq<Event>)
      requires Valid() && Distinct(repo.globals) && usage.log == log0 + probes0
      requires forall e :: e in probes0 ==> e.Probed?
      requires forall c :: Eligible(repo, excluded, c) ==> QuietFor(usage.st, log0, probes0, c)
      modifies usage
      ensures Valid() && old(usage.clock) <= usage.clock && usage.log == log0 + probes
      ensures forall e :: e in probes ==> e.Probed?
      ensures r.None? <==> forall c :: !Eligible(repo, excluded, c)
      ensures r.Some? ==> Eligible(repo, excluded, r.value) && LeastBusy(usage.st, log0, repo, excluded, at, r.value)
      ensures at == at0.(health := at.health, count := at.count)
      ensures forall c :: c in at.health ==> old(usage.clock) <= at.health[c] <= usage.clock
      ensures forall c :: c in at.count ==> old(usage.clock) <= at.count[c] <= usage.clock
      ensures AnsweredHealthy(usage.st, log0, probes) ==>
        AnsweredHealthy(usage.st, log0, probes0) && forall c :: c in at.health ==> Healthy(usage.st, log0, at, c)
    {
      hide AnsweredHealthy;
      hide Unhealthy, Sticky, Live, NoneAfter, UsageOk, StickyOk, BreakersOk, QuietFor;
      var eligible := EligibleOf(repo.globals, excluded);
      var healthy, health, probes' := HealthyOf(eligible, log0, probes0);
      at, probes := at0.(health := health, count := map[]), probes';
      var candidates := if healthy != [] then healthy else eligible;
      if candidates == [] {
        assert forall c :: c !in eligible;
        return None, at, probes;
      }
      assert candidates[0] in candidates;
      var counts, countAt := CountsOf(candidates);
      at := at.(count := countAt);
      forall c | c in candidates ensures counts[c] == |Live(usage.st, log0, c, at.count[c])|
      {
        ProbesKeepSessions(usage.st, log0, probes, c, at.count[c]);
      }
      var least := LeastOf(candidates, counts);
      var k :| 0 <= k < |least|;  // any tie-breaking choice
      r := Some(least[k]);
      assert least[k] in least;
      LeastIsLeastBusy(usage.st, log0, repo, excluded, at, healthy, candidates, counts, least[k]);
    }

    /** An explicit configuration wins, then the user's first own one, then the pool. */
    method SelectConfig(configId: Option<ConfigId>, subject: Option<string>, session: Option<SessionId>,
                        excluded: set<ConfigId>, repo: Repo)
      returns (r: Option<Selection>, ghost at: Readings, ghost probes: seq<Event>)
      requires Valid() && Distinct(repo.globals)
      modifies usage
      ensures Valid() && old(usage.clock) <= usage.clock
      ensures forall e :: e in probes ==> e.Probed?
      ensures usage.log == old(usage.log) + probes +
        AssignmentOf(if r.Some? && r.value.pooled then Some(r.value.config) else None, session, usage.clock)
      // only a pooled choice for a session is recorded
      ensures usage.log == old(usage.log) + probes +
        if r.Some? && r.value.pooled && session.Some? && session.value != ""
        then [Assigned(r.value.config, session.value, usage.clock)] else []
      ensures RightChoice(Request(configId, subject, session, NoRuntime), repo, excluded, r)
      ensures configId.None? && UserConfigs(repo, subject) == [] ==>
        && (r.None? <==> forall c :: !Eligible(repo, excluded, c))
        && (r.Some? ==> r.value.pooled && Eligible(repo, excluded, r.value.config) &&
                        GoodChoice(usage.st, old(usage.log), repo, session, excluded, at, r.value.config))
      ensures Within(at, old(usage.clock), usage.clock)
      ensures Marks(usage.log) == old(Marks(usage.log))
      ensures r.Some? && r.value.pooled && Named(session) ==> SticksTo(usage.log, session, r.value.config)
      ensures forall c :: SticksTo(usage.log, session, c) ==>
          r == Some(Selection(c, true)) || old(SticksTo(usage.log, session, c))
      ensures configId.None? && UserConfigs(repo, subject) == [] ==>
        AnsweredHealthy(usage.st, old(usage.log), probes) ==>
        HealthySeen(usage.st, old(usage.log), repo, session, excluded, at)
    {
      hide AnsweredHealthy, HealthySeen;
      hide SticksTo;
      at, probes := Readings(usage.clock, usage.clock, map[], map[]), [];
      if configId.Some? {
        return Some(Selection(configId.value, false)), at, probes;
      }
      if Named(subject) {
        var users := repo.users(subject.value);
        if users != [] {
          return Some(Selection(users[0], false)), at, probes;
        }
      }
      hide GoodChoice;
      var c, at', probes' := ChooseFromPool(session, excluded, repo);
      r := if c.Some? then Some(Selection(c.value, true)) else None;
      assert forall d :: d in repo.globals && d !in excluded ==> Eligible(repo, excluded, d);
      at, probes := at', probes';
      SelectionLeavesNoMarks(old(usage.log), probes, c, session, usage.clock);
      SticksAfterChoice(old(usage.log), probes, c, session, usage.clock);
    }

    /** Other requests use the window; the account goes on with what they log. */
    method Interfere(ops: seq<Op>, ghost session: Option<SessionId>, ghost log0: seq<Event>, ghost account: Account)
      returns (ghost account': Account)
      requires Valid() && Grew(log0, usage.log, account)
      modifies usage
      ensures Valid() && old(usage.clock) <= usage.clock && old(usage.log) <= usage.log
      ensures Grew(log0, usage.log, account') && account'.own == account.own
      ensures Acts(account'.foreign) == Acts(account.foreign) + Effects(ops)
      ensures Avoids(ops, session) ==>
        forall c :: SticksTo(usage.log, session, c) <==> old(SticksTo(usage.log, session, c))
    {
      hide Woven, Acts, Effects, UsageOk, StickyOk, BreakersOk, NoneAfter;
      ghost var log := usage.log;
      ghost var events := Perform(usage, ops);
      ForeignMore(log0, log, account, events);
      ActsMore(account.foreign, events);
      account' := Account(account.own, account.foreign + events);
      if Avoids(ops, session) {
        EffectsAvoid(ops, session);
        if session.Some? {
          AvoidedSticky(log, events, session.value);
        }
      }
    }

    /** A guest's own configuration is used as given; otherwise one is selected. */
    method FirstSelection(req: Request, repo: Repo, ghost log0: seq<Event>, ghost account: Account)
      returns (selected: Option<Selection>, ghost account': Account, ghost pick: Pick)
      requires Valid() && Distinct(repo.globals) && !req.runtime.Invalid?
      requires Grew(log0, usage.log, account)
      modifies usage
      ensures Valid()
      ensures Grew(log0, usage.log, account') && account'.foreign == account.foreign
      ensures Marks(account'.own) == Marks(account.own)
      ensures RightChoice(req, repo, {}, selected)
      ensures selected.Some? && selected.value.pooled ==>
        req.runtime.NoRuntime? && req.configId.None? && UserConfigs(repo, req.subject) == []
      ensures selected.Some? && selected.value.pooled && Named(req.session) ==>
        SticksTo(usage.log, req.session, selected.value.config)
      ensures selected.Some? && selected.value.pooled ==>
        WellPicked(usage.st, repo, req.session, {}, pick, selected.value.config)
      ensures pick.log == old(usage.log) <= usage.log
    {
      hide SticksTo, GoodChoice, Within, Woven, UsageOk, StickyOk, BreakersOk, NoneAfter, Marks;
      account' := account;
      pick := Pick(usage.log, Readings(usage.clock, usage.clock, map[], map[]), usage.clock, usage.clock);
      if req.runtime.Runtime? {
        return Some(Selection(req.runtime.config, false)), account', pick;
      }
      selected, account', pick := SelectNow(req, {}, repo, log0, account);
    }

    /** A selection, entered in the account. */
    method SelectNow(req: Request, excluded: set<ConfigId>, repo: Repo, ghost log0: seq<Event>, ghost account: Account)
      returns (r: Option<Selection>, ghost account': Account, ghost pick: Pick)
      requires Valid() && Distinct(repo.globals) && Grew(log0, usage.log, account)
      modifies usage
      ensures Valid() && old(usage.clock) <= usage.clock
      ensures Grew(log0, usage.log, account') && account'.foreign == account.foreign
      ensures Marks(account'.own) == Marks(account.own)
      ensures pick.log == old(usage.log) <= usage.log
      ensures RightChoice(req.(runtime := NoRuntime), repo, excluded, r)
      ensures req.configId.Some? || UserConfigs(repo, req.subject) != [] ==> r.Some? && !r.value.pooled
      ensures req.configId.None? && UserConfigs(repo, req.subject) == [] ==>
        && (r.None? <==> forall c :: !Eligible(repo, excluded, c))
        && (r.Some? ==> r.value.pooled && Eligible(repo, excluded, r.value.config))
      ensures r.Some? && r.value.pooled ==> WellPicked(usage.st, repo, req.session, excluded, pick, r.value.config)
      ensures r.Some? && r.value.pooled && Named(req.session) ==> SticksTo(usage.log, req.session, r.value.config)
      ensures forall c :: SticksTo(usage.log, req.session, c) ==>
          r == Some(Selection(c, true)) || old(SticksTo(usage.log, req.session, c))
    {
      hide SticksTo, GoodChoice, Within, Woven, UsageOk, StickyOk, BreakersOk, NoneAfter, Marks;
      ghost var log, start := usage.log, usage.clock;
      var selected, at, probes := SelectConfig(req.configId, req.subject, req.session, excluded, repo);
      r := selected;
      pick := Pick(log, at, start, usage.clock);
      ghost var chosen := if r.Some? && r.value.pooled then Some(r.value.config) else None;
      ghost var entry := AssignmentOf(chosen, req.session, usage.clock);
      Assoc(log, probes, entry);
      OwnMore(log0, log, account, probes + entry);
      SelectionLeavesNoMarks(account.own, probes, chosen, req.session, usage.clock);
      Assoc(account.own, probes, entry);
      account' := Account(account.own + (probes + entry), account.foreign);
    }

    /** Stream one request. `client` gives the stream the n-th attempt would receive from a configuration,
        `repos` what the n-th read of the repository returns. Other requests share the gateway: `others` says
        what they do on the window before the first selection, while the n-th attempt streams, and between its
        failure and the next selection. */
    method Stream(req: Request, client: (nat, ConfigId) -> seq<LlmEvent>, repos: nat -> Repo, others: nat -> seq<Op>)
      returns (out: seq<LlmEvent>, slept: real, ghost trace: seq<Attempt>, ghost d: nat, ghost account: Account,
               ghost picks: seq<Pick>)
      requires Valid() && 0.0 <= baseDelay
      requires forall n :: Distinct(repos(n).globals)
      modifies usage
      ensures Valid()
      // nothing was tried: one error says why
      ensures trace == [] ==> out == [Error(if req.runtime.Invalid? then req.runtime.data else RESOURCE_BUSY)]
      ensures trace == [] && !req.runtime.Invalid? ==> out[0].data.code == "resource_busy" && out[0].data.retryable
      ensures if req.runtime.Invalid? then trace == []
              else RightChoice(req, repos(0), {},
                               if trace == [] then None else Some(Selection(trace[0].config, trace[0].pooled)))
      // what was delivered
      ensures trace != [] ==> ValidTrace(trace, countsAgainstHealth) && out == Transcript(trace)
      ensures FromClient(trace, client)
      // retry bounds
      ensures |trace| <= maxRetries + 1
      ensures 0.0 <= slept <= Allowance(baseDelay, maxRetries)
      ensures trace != [] ==> Paused(slept, baseDelay, trace, d, Fixed(repos))
      ensures trace != [] ==>
        Report(trace, d, maxRetries, countsAgainstHealth, Fixed(repos) && trace[0].pooled, PoolOf(repos(0)))
      // accounting: the log holds the others' events and the request's own, and these mark exactly its attempts
      ensures Grew(old(usage.log), usage.log, account)
      ensures Acts(account.foreign) == Effects(UpTo(others, 2 * |trace| + 1))
      ensures Marks(account.own) == MarksOf(trace, countsAgainstHealth)
      // every new pooled configuration was a good choice when it was chosen
      ensures Picked(picks, trace, usage.st, repos, req.session) && LogsWithin(picks, old(usage.log), usage.log)
      // stickiness
      ensures trace != [] ==>
        SessionSettled(usage.log, req.session, trace, countsAgainstHealth, Fixed(repos) && trace[0].pooled,
                       PoolOf(repos(0)), AloneWith(others, req.session))
    {
      hide Marks, MarksOf, Opening, Abandoned, Cut, Report, Fixed, Distinct, SessionSettled, SticksTo, RightChoice;
      hide Paused, Woven, Acts, Effects, AloneWith, WellPicked, PickedAt, GoodChoice;
      hide UsageOk, StickyOk, BreakersOk, NoneAfter;
      out, slept, trace, d, picks := [], 0.0, [], 0, [];
      AllowanceGrows(baseDelay, 0, maxRetries);
      ghost var log0 := usage.log;
      GrewNothing(log0);
      NothingLogged(countsAgainstHealth);
      account := Interfere(others(0), req.session, log0, EMPTY);
      FirstPoint(others);
      if req.runtime.Invalid? {
        out := [Error(req.runtime.data)];
        return;
      }
      var selected;
      ghost var pick;
      selected, account, pick := FirstSelection(req, repos(0), log0, account);
      if selected.None? {
        out := [Error(RESOURCE_BUSY)];
        return;
      }
      out, slept, trace, d, account, picks := Attempts(req, client, repos, others, selected.value, log0, account, pick);
    }

    /** The attempts of one request, from the first selection on. */
    method Attempts(req: Request, client: (nat, ConfigId) -> seq<LlmEvent>, repos: nat -> Repo, others: nat -> seq<Op>,
                    first: Selection, ghost log0: seq<Event>, ghost account0: Account, ghost pick0: Pick)
      returns (out: seq<LlmEvent>, slept: real, ghost trace: seq<Attempt>, ghost d: nat, ghost account: Account,
               ghost picks: seq<Pick>)
      requires Valid() && 0.0 <= baseDelay
      requires forall n :: Distinct(repos(n).globals)
      requires first.pooled ==> req.configId.None? && UserConfigs(repos(0), req.subject) == []
      requires first.pooled && Named(req.session) ==> SticksTo(usage.log, req.session, first.config)
      requires Grew(log0, usage.log, account0) && Marks(account0.own) == []
      requires Acts(account0.foreign) == Effects(UpTo(others, 1))
      requires first.pooled ==> WellPicked(usage.st, repos(0), req.session, {}, pick0, first.config)
      requires log0 <= pick0.log <= usage.log
      modifies usage
      ensures Valid()
      ensures Finished(trace, out, slept, baseDelay, maxRetries, client, countsAgainstHealth)
      ensures Grew(log0, usage.log, account) && Marks(account.own) == MarksOf(trace, countsAgainstHealth)
      ensures Acts(account.foreign) == Effects(UpTo(others, 2 * |trace| + 1))
      ensures Picked(picks, trace, usage.st, repos, req.session) && LogsWithin(picks, log0, usage.log)
      ensures trace != [] &&
        Report(trace, d, maxRetries, countsAgainstHealth, Fixed(repos) && trace[0].pooled, PoolOf(repos(0)))
      ensures trace[0].config == first.config && trace[0].pooled == first.pooled
      ensures SessionSettled(usage.log, req.session, trace, countsAgainstHealth, Fixed(repos) && trace[0].pooled,
                             PoolOf(repos(0)), AloneWith(others, req.session))
      ensures Paused(slept, baseDelay, trace, d, Fixed(repos))
    {
      hide SessionSettled, SticksTo, PausesFollow, Slept, Configs, Paused, Excluding, Picked, WellPicked, LogsWithin;
      hide RunOk, Marks, MarksOf, MarkOf, Finished, Rotation, Report, Fixed, Distinct, UsageOk, StickyOk, BreakersOk,
           NoneAfter, Woven, Grew, Acts, Effects, UpTo, AloneWith, UserConfigs, PoolOf, Tried, Valid;
      slept, trace, d, account, picks := 0.0, [], 0, account0, [pick0];
      ghost var env := Env(req, repos(0), baseDelay, maxRetries, client, countsAgainstHealth,
                           Fixed(repos) && first.pooled, AloneWith(others, req.session));
      var run := Run(first.config, first.pooled, {}, 0, 0.0, [], true);
      RunOkStarts(run, env);
      NoPauses(run, env);
      NothingExcluded(run, env.rotating);
      PicksStart(pick0, run, usage.st, repos, req.session);
      OneLog(pick0, log0, usage.log);
      assert SessionFollows(usage.log, req.session, run, env.alone);
      hide PicksFollow, SessionFollows;
      while run.going
        invariant Valid() && log0 <= usage.log && RunOk(run, trace, d, env) && PausesFollow(run, trace, env)
        invariant trace == [] ==>
            run.going && run.pooled == first.pooled && run.config == first.config && run.attempt == 0
        invariant trace != [] ==> trace[0].pooled == first.pooled && trace[0].config == first.config
        invariant run.going ==> run.attempt <= maxRetries && run.attempt == |trace|
        invariant Grew(log0, usage.log, account) && Marks(account.own) == MarksOf(trace, countsAgainstHealth)
        invariant Acts(account.foreign) == Effects(UpTo(others, 2 * |trace| + 1))
        invariant Excluding(run, trace, env.rotating)
        invariant PicksFollow(picks, run, trace, usage.st, repos, req.session) && LogsWithin(picks, log0, usage.log)
        invariant if run.going then SessionFollows(usage.log, req.session, run, env.alone)
                  else |trace| > 0 &&
                       SessionSettled(usage.log, req.session, trace, countsAgainstHealth, env.rotating,
                                      PoolOf(env.repo), env.alone)
        decreases run.going, maxRetries - run.attempt
      {
        var n := run.attempt;
        AsBefore(repos, n + 1);
        ghost var a := Attempt(run.config, run.pooled, client(n, run.config));
        MarksStep(trace, a, countsAgainstHealth);
        AloneAt(others, req.session, 2 * n + 1);
        NextPoints(others, n);
        ghost var before, log1 := run, usage.log;
        ghost var pick;
        run, d, account, pick := OneAttempt(req, run, client(n, run.config), repos(n + 1), others(2 * n + 1),
                                            others(2 * n + 2), trace, d, env, log0, account);
        PicksMore(picks, before, trace, usage.st, repos, req.session, env.rotating, a, run, pick);
        LogsMore(picks, pick, run.going, log0, log1, usage.log);
        trace, picks := trace + [a], picks + if run.going then [pick] else [];
      }
      RunOkFinished(run, trace, d, env);
      PausesAtEnd(run, trace, env);
      PicksAtEnd(picks, run, trace, usage.st, repos, req.session);
      out, slept := run.out, run.slept;
      PausesAdded(slept, baseDelay, trace, d, maxRetries, countsAgainstHealth, Fixed(repos), PoolOf(repos(0)));
    }

    /** One attempt: forward its events, then stop or go on as the event it ended in demands. */
    method OneAttempt(req: Request, run: Run, events: seq<LlmEvent>, repo: Repo, meanwhile: seq<Op>, between: seq<Op>,
                      ghost trace: seq<Attempt>, ghost d: nat, ghost env: Env, ghost log0: seq<Event>,
                      ghost account: Account)
      returns (run': Run, ghost d': nat, ghost account': Account, ghost pick: Pick)
      requires Valid() && Distinct(repo.globals) && Grew(log0, usage.log, account)
      requires run.going && RunOk(run, trace, d, env) && run.attempt <= maxRetries
      requires env.base == baseDelay && env.retries == maxRetries && env.counts == countsAgainstHealth
      requires env.req == req && (env.rotating ==> repo == env.repo)
      requires env.alone ==> Avoids(meanwhile, req.session) && Avoids(between, req.session)
      requires events == env.client(run.attempt, run.config)
      requires Excluding(run, trace, env.rotating)
      requires SessionFollows(usage.log, req.session, run, env.alone) && PausesFollow(run, trace, env)
      modifies usage
      ensures Valid() && old(usage.log) <= usage.log
      ensures var a := Attempt(run.config, run.pooled, events);
        && RunOk(run', trace + [a], d', env) && PausesFollow(run', trace + [a], env)
        && Excluding(run', trace + [a], env.rotating)
        && Grew(log0, usage.log, account')
        && Marks(account'.own) == Marks(account.own) + MarkOf(a, countsAgainstHealth)
        && Acts(account'.foreign) == Acts(account.foreign) + Effects(meanwhile) + Effects(between)
        && (if run'.going then SessionFollows(usage.log, req.session, run', env.alone)
            else SessionSettled(usage.log, req.session, trace + [a], countsAgainstHealth, env.rotating,
                                PoolOf(env.repo), env.alone))
      ensures run'.going ==> run'.attempt == run.attempt + 1 <= maxRetries
      ensures run'.going && run'.pooled && run'.config !in run'.excluded ==>
        WellPicked(usage.st, repo, req.session, run'.excluded, pick, run'.config)
      ensures run'.going ==> old(usage.log) <= pick.log <= usage.log
    {
      hide PausesFollow, Excluding, PooledTried, WellPicked, Avoids, Woven, Acts, Effects;
      hide RunOk, Eligible, Marks, MarksOf, MarkOf, Pause, Valid;
      hide Abandoned, Retryable, Decided, Distinct, UserConfigs, SticksTo, Tried, MovedOn, PoolOf;
      if env.rotating {
        RunOkRotating(run, trace, d, env);
      }
      ghost var a := Attempt(run.config, run.pooled, events);
      var j, next, retrySame;
      j, next, retrySame, account', pick :=
        ReadAttempt(req, run, events, repo, meanwhile, between, a, env, log0, account);
      d' := RunStep(run, trace, d, env, a, j, next, retrySame);
      var out := run.out + [SelectedConfig(run.config, run.pooled)] + events[..j];
      var excluded := if run.pooled then run.excluded + {run.config} else run.excluded;
      if next.Some? {
        run' := Run(next.value.config, next.value.pooled, excluded, run.attempt + 1, run.slept, out, true);
      } else if retrySame {
        var slept := run.slept + Pause(baseDelay, run.attempt);
        run' := Run(run.config, run.pooled, excluded, run.attempt + 1, slept, out, true);
      } else {
        out := out + (if j < |events| then [events[j]] else []);
        run' := Run(run.config, run.pooled, excluded, run.attempt, run.slept, out, false);
      }
      ExcludingMore(run, trace, env.rotating, a, run');
      PauseStep(run, trace, d, env, a, j, next, retrySame, run');
    }

    /** Read one stream up to its first error or stop, and decide how to go on. */
    method ReadAttempt(req: Request, run: Run, events: seq<LlmEvent>, repo: Repo, meanwhile: seq<Op>, between: seq<Op>,
                       ghost a: Attempt, ghost env: Env, ghost log0: seq<Event>, ghost account: Account)
      returns (j: nat, next: Option<Selection>, retrySame: bool, ghost account': Account, ghost pick: Pick)
      requires Valid() && Distinct(repo.globals) && run.attempt <= maxRetries && Grew(log0, usage.log, account)
      requires a == Attempt(run.config, run.pooled, events)
      requires env.base == baseDelay && env.retries == maxRetries && env.counts == countsAgainstHealth && env.req == req
      requires env.rotating ==>
        repo == env.repo && run.pooled && req.configId.None? && UserConfigs(repo, req.subject) == []
      requires env.alone ==> Avoids(meanwhile, req.session) && Avoids(between, req.session)
      modifies usage
      ensures Valid() && old(usage.log) <= usage.log
      ensures j <= |events| && (forall i :: 0 <= i < j ==> !events[i].Terminal())
      ensures j < |events| ==> events[j].Terminal()
      ensures Decided(run, env, a, j, next, retrySame)
      ensures next.Some? ==> !retrySame && run.pooled
      ensures next.Some? || retrySame ==> run.attempt < maxRetries
      ensures Grew(log0, usage.log, account')
      ensures Marks(account'.own) == Marks(account.own) + MarkOf(a, countsAgainstHealth)
      ensures Acts(account'.foreign) == Acts(account.foreign) + Effects(meanwhile) + Effects(between)
      ensures next.Some? && next.value.pooled ==>
        && next.value.config !in run.excluded + {run.config}
        && (Named(req.session) ==> SticksTo(usage.log, req.session, next.value.config))
        && WellPicked(usage.st, repo, req.session, run.excluded + {run.config}, pick, next.value.config)
      ensures old(usage.log) <= pick.log <= usage.log
      ensures env.alone && run.pooled && Abandoned(a, countsAgainstHealth) ==>
        !SticksTo(usage.log, req.session, run.config)
      ensures env.alone && run.pooled && !Abandoned(a, countsAgainstHealth) ==>
        old(SticksTo(usage.log, req.session, run.config)) ==> SticksTo(usage.log, req.session, run.config)
      ensures env.rotating && Abandoned(a, countsAgainstHealth) ==>
        MovedOn(usage.log, req.session, PoolOf(env.repo), run.excluded + {run.config})
    {
      hide MovedOn, PoolOf, WellPicked, Avoids, Woven, Acts, Effects;
      hide GoodChoice, Eligible, UsageOk, StickyOk, BreakersOk, NoneAfter, Marks, MarksOf, MarkOf;
      hide Abandoned, Retryable, Decided, Distinct, UserConfigs, SticksTo, Tried;
      var emittedRealEvent;
      j, emittedRealEvent := ForwardUntilTerminal(events);
      MarkOfTerminal(a, countsAgainstHealth, j);
      next, retrySame := None, false;
      account' := Interfere(meanwhile, req.session, log0, account);
      pick := Pick(usage.log, Readings(usage.clock, usage.clock, map[], map[]), usage.clock, usage.clock);
      if j < |events| && events[j].Error? {
        next, retrySame, account', pick := AfterError(req, events[j].data, emittedRealEvent, run.config, run.pooled,
                                                      run.excluded, run.attempt, repo, between, log0, account');
        DecidedOnError(run, env, a, j, next, retrySame);
      } else {
        DecidedOtherwise(run, env, a, j);
        if j < |events| && run.pooled {
          ghost var e := Succeeded(run.config);
          OneMark(account'.own, e);
          FailureKeepsSticky(usage.log, e, req.session, run.config);
          OwnMore(log0, usage.log, account', [e]);
          usage.RecordSuccess(run.config);
          account' := Account(account'.own + [e], account'.foreign);
        }
        account' := Interfere(between, req.session, log0, account');
      }
    }

    /** What an error leads to: another configuration, the same one again after a pause, or neither,
        in which case the error is sent. Retrying is possible only while nothing real has been sent. */
    method AfterError(req: Request, data: ErrorData, emittedRealEvent: bool, config: ConfigId, pooled: bool,
                      excluded: set<ConfigId>, attempt: nat, repo: Repo, between: seq<Op>, ghost log0: seq<Event>,
                      ghost account: Account)
      returns (next: Option<Selection>, retrySame: bool, ghost account': Account, ghost pick: Pick)
      requires Valid() && Distinct(repo.globals) && attempt <= maxRetries && Grew(log0, usage.log, account)
      modifies usage
      ensures Valid() && old(usage.log) <= pick.log <= usage.log
      ensures Grew(log0, usage.log, account')
      ensures Marks(account'.own) == Marks(account.own) +
        if pooled && countsAgainstHealth(data) then [Mark(config, true)] else []
      ensures Acts(account'.foreign) == Acts(account.foreign) + Effects(between)
      ensures next.Some? || retrySame ==> countsAgainstHealth(data) && !emittedRealEvent && attempt < maxRetries
      ensures next.Some? ==> pooled && !retrySame
      ensures retrySame ==> data.retryable
      ensures countsAgainstHealth(data) && !emittedRealEvent && attempt < maxRetries && data.retryable ==>
        next.Some? || retrySame
      ensures pooled && req.configId.None? && UserConfigs(repo, req.subject) == [] ==>
        && (next.Some? ==> next.value.pooled && Eligible(repo, excluded + {config}, next.value.config))
        && (retrySame ==> forall c :: !Eligible(repo, excluded + {config}, c))
        && (countsAgainstHealth(data) && !emittedRealEvent && attempt < maxRetries && next.None? ==>
              forall c :: !Eligible(repo, excluded + {config}, c))
      // another configuration is a good choice, and the session is moved to it
      ensures next.Some? && next.value.pooled ==>
        && next.value.config !in excluded + {config}
        && (Named(req.session) ==> SticksTo(usage.log, req.session, next.value.config))
        && WellPicked(usage.st, repo, req.session, excluded + {config}, pick, next.value.config)
      // a failing configuration loses the session before anything was sent, and keeps it afterwards
      ensures Avoids(between, req.session) && pooled && countsAgainstHealth(data) && !emittedRealEvent ==>
        !SticksTo(usage.log, req.session, config)
      ensures Avoids(between, req.session) && (!countsAgainstHealth(data) || emittedRealEvent) ==>
        (SticksTo(usage.log, req.session, config) <==> old(SticksTo(usage.log, req.session, config)))
      // it moves on to another one even when the request may not retry any more
      ensures pooled && req.configId.None? && UserConfigs(repo, req.subject) == [] ==>
        (countsAgainstHealth(data) && !emittedRealEvent ==>
           MovedOn(usage.log, req.session, PoolOf(repo), excluded + {config}))
    {
      hide MovedOn, PoolOf, WellPicked, Avoids, Woven, Grew, Acts, Effects;
      hide UsageOk, StickyOk, BreakersOk, NoneAfter, Marks, SticksTo;
      account' := account;
      pick := Pick(usage.log, Readings(usage.clock, usage.clock, map[], map[]), usage.clock, usage.clock);
      if countsAgainstHealth(data) && !emittedRealEvent && pooled {
        var again;
        again, account', pick := FailOver(req, config, excluded, repo, between, log0, account);
        if again.Some? && attempt < maxRetries {
          return again, false, account', pick;
        }
        return None, again.None? && data.retryable && attempt < maxRetries, account', pick;
      }
      next, retrySame := None, false;
      if countsAgainstHealth(data) {
        if !emittedRealEvent && data.retryable && attempt < maxRetries {
          retrySame := true;
        } else if pooled {
          ghost var log := usage.log;
          BlameConfig(config, None);
          ghost var e := Failed(config, usage.clock);
          assert usage.log == log + [e];
          FailureKeepsSticky(log, e, req.session, config);
          OneMark(account.own, e);
          OwnMore(log0, log, account, [e]);
          account' := Account(account.own + [e], account.foreign);
        }
      }
      assert Grew(log0, usage.log, account');
      account' := Interfere(between, req.session, log0, account');
    }

    /** Blame the configuration and choose another one; other requests may come in between. */
    method FailOver(req: Request, config: ConfigId, excluded: set<ConfigId>, repo: Repo, between: seq<Op>,
                    ghost log0: seq<Event>, ghost account: Account)
      returns (again: Option<Selection>, ghost account': Account, ghost pick: Pick)
      requires Valid() && Distinct(repo.globals) && Grew(log0, usage.log, account)
      modifies usage
      ensures Valid() && old(usage.log) <= pick.log <= usage.log
      ensures Grew(log0, usage.log, account')
      ensures Marks(account'.own) == Marks(account.own) + [Mark(config, true)]
      ensures Acts(account'.foreign) == Acts(account.foreign) + Effects(between)
      ensures req.configId.None? && UserConfigs(repo, req.subject) == [] ==>
        && (again.None? <==> forall c :: !Eligible(repo, excluded + {config}, c))
        && (again.Some? ==> again.value.pooled && Eligible(repo, excluded + {config}, again.value.config))
        && MovedOn(usage.log, req.session, PoolOf(repo), excluded + {config})
      ensures req.configId.Some? || UserConfigs(repo, req.subject) != [] ==> again.Some?
      ensures again.Some? && again.value.pooled ==>
        && again.value.config !in excluded + {config}
        && (Named(req.session) ==> SticksTo(usage.log, req.session, again.value.config))
        && WellPicked(usage.st, repo, req.session, excluded + {config}, pick, again.value.config)
      ensures Avoids(between, req.session) ==> !SticksTo(usage.log, req.session, config)
    {
      hide MovedOn, PoolOf, WellPicked, Avoids, Woven, Acts, Effects;
      hide UsageOk, StickyOk, BreakersOk, NoneAfter, Marks, SticksTo;
      ghost var log := usage.log;
      BlameConfig(config, req.session);
      ghost var blame := Blame(config, usage.clock, req.session);
      BlameMarks(config, usage.clock, req.session);
      MarksAppend(account.own, blame);
      OwnMore(log0, log, account, blame);
      account' := Account(account.own + blame, account.foreign);
      account' := Interfere(between, req.session, log0, account');
      again, account', pick := SelectNow(req, excluded + {config}, repo, log0, account');
      if req.configId.None? && UserConfigs(repo, req.subject) == [] {
        MovedTo(usage.log, req.session, repo, excluded + {config}, again);
      }
    }

    /** Selection for runtimes outside the gateway's own streaming. */
    method SelectRuntimeConfig(req: Request, excluded: set<ConfigId>, repo: Repo)
      returns (r: RuntimeSelection, ghost own: seq<Event>, ghost pick: Pick)
      requires Valid() && Distinct(repo.globals)
      modifies usage
      ensures Valid() && usage.log == old(usage.log) + own && Marks(own) == [] && pick.log == old(usage.log)
      ensures if req.runtime.Invalid? then r == Refused(req.runtime.data)
              else if r.Refused? then r.error == RESOURCE_BUSY && RightChoice(req, repo, excluded, None)
              else RightChoice(req, repo, excluded, Some(r.selection))
      ensures r.Chosen? && r.selection.pooled ==>
        && req.runtime.NoRuntime? && UserConfigs(repo, req.subject) == [] &&
            Eligible(repo, excluded, r.selection.config)
        && WellPicked(usage.st, repo, req.session, excluded, pick, r.selection.config)
        && (Named(req.session) ==> SticksTo(usage.log, req.session, r.selection.config))
      ensures r.Refused? ==> forall c :: SticksTo(usage.log, req.session, c) ==>
          old(SticksTo(usage.log, req.session, c))
    {
      hide WellPicked, SticksTo, Woven, Grew, Acts, Effects, UsageOk, StickyOk, BreakersOk, NoneAfter;
      ghost var log0 := usage.log;
      assert log0 + [] == log0;
      NothingMarked();
      own, pick := [], Pick(usage.log, Readings(usage.clock, usage.clock, map[], map[]), usage.clock, usage.clock);
      if req.runtime.Invalid? {
        return Refused(req.runtime.data), own, pick;
      }
      if req.runtime.Runtime? {
        return Chosen(Selection(req.runtime.config, false)), own, pick;
      }
      GrewNothing(log0);
      NothingDone();
      var selected;
      ghost var account;
      selected, account, pick := SelectNow(req, excluded, repo, log0, EMPTY);
      GrewAlone(log0, usage.log, account);
      r, own := if selected.None? then Refused(RESOURCE_BUSY) else Chosen(selected.value), account.own;
    }

    method RecordRuntimeConfigSuccess(selection: Selection)
      requires Valid()
      modifies usage
      ensures Valid()
      ensures Marks(usage.log) == old(Marks(usage.log)) +
          if selection.pooled then [Mark(selection.config, false)] else []
      ensures usage.log == old(usage.log) + if selection.pooled then [Succeeded(selection.config)] else []
    {
      if selection.pooled {
        OneMark(usage.log, Succeeded(selection.config));
        usage.RecordSuccess(selection.config);
      }
    }

    /** Whether the failure was counted; if so the session stops sticking to the configuration. */
    method RecordRuntimeConfigFailure(selection: Selection, data: ErrorData, session: Option<SessionId>)
      returns (counted: bool)
      requires Valid()
      modifies usage
      ensures Valid() && (counted <==> selection.pooled && countsAgainstHealth(data))
      ensures Marks(usage.log) == old(Marks(usage.log)) + if counted then [Mark(selection.config, true)] else []
      ensures counted ==> !SticksTo(usage.log, session, selection.config)
      ensures usage.log == old(usage.log) +
        if counted then Blame(selection.config, usage.clock, session) else []
    {
      counted := selection.pooled && countsAgainstHealth(data);
      if counted {
        BlameConfig(selection.config, session);
      }
    }

    /** One failure is charged to the configuration, and the session no longer sticks to it. */
    method BlameConfig(config: ConfigId, session: Option<SessionId>)
      requires Valid()
      modifies usage
      ensures Valid() && old(usage.clock) <= usage.clock
      ensures usage.log == old(usage.log) + Blame(config, usage.clock, session)
      ensures Marks(usage.log) == old(Marks(usage.log)) + [Mark(config, true)]
      ensures !SticksTo(usage.log, session, config)
    {
      hide UsageOk, StickyOk, BreakersOk, NoneAfter, SticksTo;
      usage.RecordFailure(config);
      OneMark(old(usage.log), Failed(config, usage.clock));
      if session.Some? {
        OneMark(usage.log, Unstuck(session.value, config));
        LetsGo(usage.log, session, config);
        usage.ClearStickySession(session.value, config);
      } else {
        Unnamed(usage.log, session, config);
      }
    }
  }

  /** Forward events up to the first error or stop. */
  method ForwardUntilTerminal(events: seq<LlmEvent>) returns (j: nat, emittedRealEvent: bool)
    ensures j <= |events| && (j < |events| ==> events[j].Terminal())
    ensures forall i :: 0 <= i < j ==> !events[i].Terminal()
    ensures emittedRealEvent <==> exists i :: 0 <= i < j && !events[i].IsStart()
  {
    j, emittedRealEvent := 0, false;
    while j < |events| && !events[j].Terminal()
      invariant j <= |events|
      invariant forall i :: 0 <= i < j ==> !events[i].Terminal()
      invariant emittedRealEvent <==> exists i :: 0 <= i < j && !events[i].IsStart()
    {
      if !events[j].IsStart() {
        emittedRealEvent := true;
      }
      j := j + 1;
    }
  }

  /** The candidates with the smallest count. */
  method LeastOf(candidates: seq<ConfigId>, counts: map<ConfigId, nat>) returns (least: seq<ConfigId>)
    requires candidates != [] && forall c :: c in candidates ==> c in counts
    ensures least != []
    ensures forall c :: c in least <==> c in candidates && forall d :: d in candidates ==> counts[c] <= counts[d]
  {
    var smallest := counts[candidates[0]];
    for i := 1 to |candidates|
      invariant exists k :: 0 <= k < i && counts[candidates[k]] == smallest
      invariant forall k :: 0 <= k < i ==> smallest <= counts[candidates[k]]
    {
      if counts[candidates[i]] < smallest {
        smallest := counts[candidates[i]];
      }
    }
    least := [];
    for i := 0 to |candidates|
      invariant forall c :: c in least <==> c in candidates[..i] && counts[c] == smallest
    {
      assert candidates[..i + 1] == candidates[..i] + [candidates[i]];
      if counts[candidates[i]] == smallest {
        least := least + [candidates[i]];
      }
    }
    assert candidates[..|candidates|] == candidates;
    var k :| 0 <= k < |candidates| && counts[candidates[k]] == smallest;
    assert candidates[k] in least;
  }

  method EligibleOf(globals: seq<ConfigId>, excluded: set<ConfigId>) returns (eligible: seq<ConfigId>)
    requires Distinct(globals)
    ensures Distinct(eligible)
    ensures forall c :: c in eligible <==> c in globals && c !in excluded
  {
    eligible := [];
    for i := 0 to |globals|
      invariant Distinct(eligible)
      invariant forall c :: c in eligible <==> c in globals[..i] && c !in excluded
    {
      assert globals[..i + 1] == globals[..i] + [globals[i]];
      assert globals[i] !in globals[..i];
      if globals[i] !in excluded {
        eligible := eligible + [globals[i]];
      }
    }
    assert globals[..|globals|] == globals;
  }
}
