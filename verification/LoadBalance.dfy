/** Over a run of pooled selections, sessions spread evenly and never move. */
module LoadBalance {
  import opened Text
  import opened UsageWindow
  import opened Delivery
  import opened Gateway

  /** Sessions ever recorded on the configuration. */
  ghost function On(log: seq<Event>, c: ConfigId): set<SessionId>
  {
    set e | e in log && e.Assigned? && e.config == c :: e.session
  }

  ghost function Sessions(log: seq<Event>): set<SessionId>
  {
    set e | e in log && e.Assigned? :: e.session
  }

  ghost function TotalOn(log: seq<Event>, pool: seq<ConfigId>): nat
  {
    if pool == [] then 0 else |On(log, pool[0])| + TotalOn(log, pool[1..])
  }

  ghost predicate Even(log: seq<Event>, pool: seq<ConfigId>)
  {
    forall c, d :: c in pool && d in pool ==> |On(log, c)| <= |On(log, d)| + 1
  }

  ghost predicate Apart(log: seq<Event>)
  {
    forall c, d :: c != d ==> On(log, c) !! On(log, d)
  }

  /** Counts differ by at most one, no session is on two configurations, and the counts add up. */
  ghost predicate Balanced(log: seq<Event>, pool: seq<ConfigId>)
  {
    && Even(log, pool) && Apart(log)
    && (forall e :: e in log && e.Assigned? ==> e.config in pool)
    && TotalOn(log, pool) == |Sessions(log)|
  }

  /** No session was made to let go of its configuration. */
  predicate NoClears(log: seq<Event>)
  {
    forall e :: e in log ==> !e.Unstuck?
  }

  /** No session is live on any configuration, and none is sticky. */
  ghost predicate Idle(st: Settings, log: seq<Event>, now: Time)
  {
    && (forall c :: Live(st, log, c, now) == {})
    && (forall s :: Sticky(st, log, s, now) == None)
  }

  /** Nothing recorded so far has aged out of either window. */
  predicate InWindow(st: Settings, log: seq<Event>, now: Time)
  {
    forall e :: e in log && e.Assigned? ==> now - e.at <= st.usageWindow && now - e.at <= st.stickyWindow
  }

  lemma {:induction false} StickyIsLastAssigned(base: seq<Event>, log: seq<Event>, s: SessionId)
    requires NoClears(log)
    ensures var r := StickyRecord(base + log, s);
      if s in Sessions(log) then r.Some? && Assigned(r.value.0, s, r.value.1) in log else r == StickyRecord(base, s)
  {
    if |log| == 0 {
      assert base + log == base;
    } else {
      hide StickyRecord;
      var n := |log| - 1;
      assert log[n] in log;
      StickyIsLastAssigned(base, log[..n], s);
      assert log == log[..n] + [log[n]];
      assert base + log == (base + log[..n]) + [log[n]];
      StickyStep(base + log[..n], log[n], s);
    }
  }

  lemma LiveHas(st: Settings, log: seq<Event>, e: Event, now: Time)
    requires e in log && e.Assigned?
    ensures now - e.at <= st.usageWindow ==> e.session in Live(st, log, e.config, now)
  {
  }

  lemma LiveIsOn(st: Settings, base: seq<Event>, log: seq<Event>, c: ConfigId, first: Time, now: Time)
    requires Live(st, base, c, first) == {} && first <= now && InWindow(st, log, now)
    ensures Live(st, base + log, c, now) == On(log, c)
  {
    forall e | e in base && e.Assigned? && e.config == c ensures now - e.at > st.usageWindow
    {
      LiveHas(st, base, e, first);
    }
  }

  /** Where the session's messages go: to the configuration it was last assigned during the run, if any. */
  lemma StickySeen(st: Settings, base: seq<Event>, log: seq<Event>, s: SessionId, first: Time, at: Time, now: Time)
    requires Idle(st, base, first) && NoClears(log) && InWindow(st, log, now) && first <= at <= now
    ensures var r := Sticky(st, base + log, s, at);
      if s in Sessions(log) then r.Some? && s in On(log, r.value) else r.None?
  {
    StickyIsLastAssigned(base, log, s);
    assert Sticky(st, base, s, first) == None;
  }

  lemma OnGrows(log: seq<Event>, c: ConfigId, s: SessionId, at: Time, d: ConfigId)
    ensures On(log + [Assigned(c, s, at)], d) == On(log, d) + if d == c then {s} else {}
    ensures Sessions(log + [Assigned(c, s, at)]) == Sessions(log) + {s}
  {
    var log' := log + [Assigned(c, s, at)];
    assert log'[|log|] == Assigned(c, s, at) && log'[|log|] in log';
  }

  lemma {:induction false} TotalGrows(log: seq<Event>, c: ConfigId, s: SessionId, at: Time, pool: seq<ConfigId>)
    requires Distinct(pool) && s !in On(log, c)
    ensures TotalOn(log + [Assigned(c, s, at)], pool) == TotalOn(log, pool) + if c in pool then 1 else 0
  {
    if pool != [] {
      OnGrows(log, c, s, at, pool[0]);
      TotalGrows(log, c, s, at, pool[1..]);
      assert forall i :: 1 <= i < |pool| ==> pool[i] != pool[0];
      assert c in pool <==> c == pool[0] || c in pool[1..];
    }
  }

  lemma {:induction false} TotalUnchanged(log: seq<Event>, log': seq<Event>, pool: seq<ConfigId>)
    requires forall d :: d in pool ==> On(log', d) == On(log, d)
    ensures TotalOn(log', pool) == TotalOn(log, pool)
  {
    if pool != [] {
      TotalUnchanged(log, log', pool[1..]);
    }
  }

  /** A repeat message from a session stays where the session is. */
  lemma RepeatKeepsBalance(log: seq<Event>, pool: seq<ConfigId>, c: ConfigId, s: SessionId, at: Time)
    requires Balanced(log, pool) && s in On(log, c)
    ensures Balanced(log + [Assigned(c, s, at)], pool)
  {
    var log' := log + [Assigned(c, s, at)];
    forall d ensures On(log', d) == On(log, d) && Sessions(log') == Sessions(log)
    {
      OnGrows(log, c, s, at, d);
    }
    TotalUnchanged(log, log', pool);
    forall e | e in log' && e.Assigned? ensures e.config in pool
    {
      if e !in log {
        var e0 :| e0 in log && e0.Assigned? && e0.config == c && e0.session == s;
      }
    }
  }

  /** A new session placed on a least-loaded configuration keeps the counts within one of each other. */
  lemma NewSessionKeepsBalance(log: seq<Event>, pool: seq<ConfigId>, c: ConfigId, s: SessionId, at: Time)
    requires Balanced(log, pool) && Distinct(pool) && c in pool && s !in Sessions(log)
    requires forall d :: d in pool ==> |On(log, c)| <= |On(log, d)|
    ensures Balanced(log + [Assigned(c, s, at)], pool)
  {
    var log' := log + [Assigned(c, s, at)];
    assert forall d :: s !in On(log, d);
    assert forall e :: e in log' && e.Assigned? ==> e.config in pool;
    OnGrows(log, c, s, at, c);
    TotalGrows(log, c, s, at, pool);
    ApartGrows(log, c, s, at);
    EvenGrows(log, pool, c, s, at);
    hide On, Sessions, TotalOn, Even, Apart;
    assert |Sessions(log')| == |Sessions(log)| + 1;
  }

  lemma ApartGrows(log: seq<Event>, c: ConfigId, s: SessionId, at: Time)
    requires Apart(log) && forall d :: s !in On(log, d)
    ensures Apart(log + [Assigned(c, s, at)])
  {
    var log' := log + [Assigned(c, s, at)];
    forall d, d' | d != d' ensures On(log', d) !! On(log', d')
    {
      OnGrows(log, c, s, at, d);
      OnGrows(log, c, s, at, d');
      hide On;
      assert On(log, d) !! On(log, d');
    }
  }

  lemma EvenGrows(log: seq<Event>, pool: seq<ConfigId>, c: ConfigId, s: SessionId, at: Time)
    requires Even(log, pool) && s !in On(log, c)
    requires forall d :: d in pool ==> |On(log, c)| <= |On(log, d)|
    ensures Even(log + [Assigned(c, s, at)], pool)
  {
    var log' := log + [Assigned(c, s, at)];
    forall d, d' | d in pool && d' in pool ensures |On(log', d)| <= |On(log', d')| + 1
    {
      SizeGrows(log, c, s, at, d);
      SizeGrows(log, c, s, at, d');
    }
  }

  lemma SizeGrows(log: seq<Event>, c: ConfigId, s: SessionId, at: Time, d: ConfigId)
    requires s !in On(log, c)
    ensures |On(log + [Assigned(c, s, at)], d)| == |On(log, d)| + if d == c then 1 else 0
  {
    OnGrows(log, c, s, at, d);
  }

  /** Events that assign nothing do not move the balance. */
  lemma OthersKeepBalance(log: seq<Event>, more: seq<Event>, pool: seq<ConfigId>)
    requires forall e :: e in more ==> !e.Assigned?
    ensures Balanced(log + more, pool) <==> Balanced(log, pool)
    ensures Sessions(log + more) == Sessions(log) && forall c :: On(log + more, c) == On(log, c)
  {
    var log' := log + more;
    assert forall c :: On(log', c) == On(log, c);
    assert Sessions(log') == Sessions(log);
    assert forall e :: e in log' && e.Assigned? <==> e in log && e.Assigned?;
    TotalUnchanged(log, log', pool);
    hide On, Sessions, TotalOn;
  }

  /** Whatever the tie-breaking, a good choice keeps the balance of the assignments made since nothing was
      live or sticky, as long as every configuration it asked about was healthy. */
  lemma GoodChoiceKeepsBalance(st: Settings, base: seq<Event>, log: seq<Event>, repo: Repo, s: SessionId, at: Readings,
                               c: ConfigId, probes: seq<Event>, first: Time, now: Time)
    requires s != "" && NoClears(log) && Balanced(log, repo.globals) && Distinct(repo.globals)
    requires Idle(st, base, first) && InWindow(st, log, now)
    requires GoodChoice(st, base + log, repo, Some(s), {}, at, c)
    requires HealthySeen(st, base + log, repo, Some(s), {}, at)
    requires first <= at.sticky <= now && forall d :: d in at.count ==> first <= at.count[d] <= now
    requires forall e :: e in probes ==> e.Probed?
    ensures Balanced(log + probes + [Assigned(c, s, now)], repo.globals)
    ensures s in Sessions(log) ==> s in On(log, c)
  {
    hide Balanced, Live, Sticky, Unhealthy, Idle, InWindow, NoClears;
    StickySeen(st, base, log, s, first, at.sticky, now);
    OthersKeepBalance(log, probes, repo.globals);
    if s in Sessions(log) {
      var k := Sticky(st, base + log, s, at.sticky).value;
      InPool(log, repo.globals, k, s);
      assert StickyHit(st, base + log, repo, Some(s), {}, at, k);
      RepeatKeepsBalance(log + probes, repo.globals, c, s, now);
    } else {
      assert forall k :: !StickyHit(st, base + log, repo, Some(s), {}, at, k);
      forall d | d in repo.globals ensures |On(log, c)| <= |On(log, d)|
      {
        assert Eligible(repo, {}, d);
        CountSeen(st, base, log, c, first, at.count[c], now);
        CountSeen(st, base, log, d, first, at.count[d], now);
      }
      NewSessionKeepsBalance(log + probes, repo.globals, c, s, now);
    }
  }

  lemma InPool(log: seq<Event>, pool: seq<ConfigId>, c: ConfigId, s: SessionId)
    requires Balanced(log, pool) && s in On(log, c)
    ensures c in pool
  {
  }

  lemma CountSeen(st: Settings, base: seq<Event>, log: seq<Event>, c: ConfigId, first: Time, at: Time, now: Time)
    requires Idle(st, base, first) && InWindow(st, log, now) && first <= at <= now
    ensures Live(st, base + log, c, at) == On(log, c)
  {
    LiveIsOn(st, base, log, c, first, at);
  }

  ghost function TotalLive(st: Settings, log: seq<Event>, pool: seq<ConfigId>, now: Time): nat
  {
    if pool == [] then 0 else |Live(st, log, pool[0], now)| + TotalLive(st, log, pool[1..], now)
  }

  lemma {:induction false} TotalLiveIsTotalOn(st: Settings, base: seq<Event>, log: seq<Event>, pool: seq<ConfigId>,
                                              first: Time, now: Time)
    requires Idle(st, base, first) && InWindow(st, log, now) && first <= now
    ensures TotalLive(st, base + log, pool, now) == TotalOn(log, pool)
  {
    hide Live, On, Idle, InWindow;
    if pool != [] {
      CountSeen(st, base, log, pool[0], first, now, now);
      TotalLiveIsTotalOn(st, base, log, pool[1..], first, now);
    }
  }

  lemma {:induction false} EmptyIsBalanced(pool: seq<ConfigId>)
    ensures Balanced([], pool)
  {
    assert Sessions([]) == {} && forall c :: On([], c) == {};
    if pool != [] {
      EmptyIsBalanced(pool[1..]);
    }
  }

  /** Each message's session is on the configuration chosen for that message. */
  ghost predicate Settled(log: seq<Event>, messages: seq<SessionId>, choices: seq<ConfigId>, pool: seq<ConfigId>)
  {
    && |choices| == |messages|
    && forall i :: 0 <= i < |choices| ==> choices[i] in pool && messages[i] in On(log, choices[i])
  }

  lemma SettledGrows(log: seq<Event>, probes: seq<Event>, c: ConfigId, s: SessionId, at: Time,
                     messages: seq<SessionId>, choices: seq<ConfigId>, pool: seq<ConfigId>)
    requires Settled(log, messages, choices, pool) && c in pool
    ensures Settled(log + probes + [Assigned(c, s, at)], messages + [s], choices + [c], pool)
  {
    var log' := log + probes + [Assigned(c, s, at)];
    assert log'[|log'| - 1] == Assigned(c, s, at);
    assert Assigned(c, s, at) in log';
    forall i | 0 <= i < |choices| ensures messages[i] in On(log', choices[i])
    {
      assert On(log, choices[i]) <= On(log', choices[i]) by {
        assert forall e :: e in log ==> e in log';
      }
    }
  }

  /** What balance in the log means for the counts and choices seen from outside. */
  lemma BalanceSeen(st: Settings, base: seq<Event>, log: seq<Event>, messages: seq<SessionId>, choices: seq<ConfigId>,
                    pool: seq<ConfigId>, first: Time, now: Time)
    requires Idle(st, base, first) && InWindow(st, log, now) && first <= now
    requires Balanced(log, pool) && Settled(log, messages, choices, pool)
    requires Sessions(log) == set m | m in messages
    ensures forall i, j :: 0 <= i < j < |messages| && messages[i] == messages[j] ==> choices[i] == choices[j]
    ensures forall c, d :: c in pool && d in pool ==>
              |Live(st, base + log, c, now)| <= |Live(st, base + log, d, now)| + 1
    ensures TotalLive(st, base + log, pool, now) == |set m | m in messages|
  {
    forall c ensures Live(st, base + log, c, now) == On(log, c)
    {
      CountSeen(st, base, log, c, first, now, now);
    }
    TotalLiveIsTotalOn(st, base, log, pool, first, now);
  }

  /** What a run has done since `first`, when the log was `base`: if nothing has aged out and every health query
      was answered well, the sessions are balanced and settled. */
  ghost predicate Serving(st: Settings, base: seq<Event>, log: seq<Event>, messages: seq<SessionId>,
                          choices: seq<ConfigId>, pool: seq<ConfigId>, now: Time)
  {
    && NoClears(log) && |choices| == |messages|
    && Sessions(log) == (set m | m in messages)
    && (InWindow(st, log, now) && AnsweredHealthy(st, base, log) ==>
          Balanced(log, pool) && Settled(log, messages, choices, pool))
  }

  lemma ServingStarts(st: Settings, base: seq<Event>, pool: seq<ConfigId>, now: Time)
    ensures Serving(st, base, [], [], [], pool, now)
  {
    EmptyIsBalanced(pool);
  }

  lemma AnsweredSplit(st: Settings, base: seq<Event>, log: seq<Event>, more: seq<Event>)
    requires AnsweredHealthy(st, base, log + more)
    ensures AnsweredHealthy(st, base, log) && AnsweredHealthy(st, base + log, more)
  {
    hide Unhealthy;
    var all := log + more;
    assert forall k :: 0 <= k < |log| ==> all[k] == log[k] && all[..k] == log[..k];
    forall k | 0 <= k < |more| && more[k].Probed?
      ensures !Unhealthy(st, base + log + more[..k], more[k].config, more[k].at)
    {
      assert all[|log| + k] == more[k] && base + all[..|log| + k] == base + log + more[..k];
    }
  }

  /** Failures and successes in between change neither counts nor stickiness. */
  lemma ServingMarked(st: Settings, base: seq<Event>, log: seq<Event>, messages: seq<SessionId>, choices: seq<ConfigId>,
                      pool: seq<ConfigId>, now: Time, e: Event, later: Time)
    requires Serving(st, base, log, messages, choices, pool, now) && now <= later
    requires e.Failed? || e.Succeeded?
    ensures Serving(st, base, log + [e], messages, choices, pool, later)
  {
    hide Balanced, AnsweredHealthy, On, Sessions;
    OthersKeepBalance(log, [e], pool);
    if InWindow(st, log + [e], later) && AnsweredHealthy(st, base, log + [e]) {
      AnsweredSplit(st, base, log, [e]);
      assert InWindow(st, log, now) by {
        assert forall e' :: e' in log ==> e' in log + [e];
      }
    }
  }

  /** One selection: a run goes on being balanced. */
  lemma ServingMore(st: Settings, base: seq<Event>, log: seq<Event>, messages: seq<SessionId>, choices: seq<ConfigId>,
                    repo: Repo, first: Time, now: Time, s: SessionId, at: Readings, c: ConfigId, probes: seq<Event>,
                    later: Time)
    requires Serving(st, base, log, messages, choices, repo.globals, now) && Idle(st, base, first)
    requires first <= now <= later && s != "" && Distinct(repo.globals) && c in repo.globals
    requires GoodChoice(st, base + log, repo, Some(s), {}, at, c)
    requires AnsweredHealthy(st, base + log, probes) ==> HealthySeen(st, base + log, repo, Some(s), {}, at)
    requires Within(at, now, later)
    requires forall e :: e in probes ==> e.Probed?
    ensures Serving(st, base, log + probes + [Assigned(c, s, later)], messages + [s], choices + [c], repo.globals,
                    later)
  {
    hide Balanced, GoodChoice, HealthySeen, AnsweredHealthy, Idle, Settled, On, Sessions;
    var log' := log + probes + [Assigned(c, s, later)];
    OthersKeepBalance(log, probes, repo.globals);
    OnGrows(log + probes, c, s, later, c);
    assert (set m | m in messages + [s]) == (set m | m in messages) + {s};
    if InWindow(st, log', later) && AnsweredHealthy(st, base, log') {
      assert forall e :: e in log ==> e in log';
      AnsweredSplit(st, base, log + probes, [Assigned(c, s, later)]);
      AnsweredSplit(st, base, log, probes);
      GoodChoiceKeepsBalance(st, base, log, repo, s, at, c, probes, first, later);
      SettledGrows(log, probes, c, s, later, messages, choices, repo.globals);
    }
  }

  /** Record failures and successes, in order. */
  method RecordMarks(gateway: LLMGateway, marks: seq<Mark>, ghost base: seq<Event>, ghost log: seq<Event>,
                     ghost messages: seq<SessionId>, ghost choices: seq<ConfigId>, ghost pool: seq<ConfigId>)
    returns (ghost log': seq<Event>)
    requires gateway.Valid() && gateway.usage.log == base + log
    requires Serving(gateway.usage.st, base, log, messages, choices, pool, gateway.usage.clock)
    modifies gateway.usage
    ensures gateway.Valid() && gateway.usage.log == base + log' && log <= log'
    ensures Marks(log'[|log|..]) == marks && old(gateway.usage.clock) <= gateway.usage.clock
    ensures Serving(gateway.usage.st, base, log', messages, choices, pool, gateway.usage.clock)
  {
    hide Serving, UsageOk, StickyOk, BreakersOk, NoneAfter;
    var u := gateway.usage;
    ghost var more: seq<Event> := [];
    assert log + more == log;
    for i := 0 to |marks|
      invariant gateway.Valid() && u.log == base + (log + more) && old(u.clock) <= u.clock
      invariant Marks(more) == marks[..i]
      invariant Serving(u.st, base, log + more, messages, choices, pool, u.clock)
    {
      ghost var before := u.clock;
      if marks[i].failed {
        u.RecordFailure(marks[i].config);
      } else {
        u.RecordSuccess(marks[i].config);
      }
      ghost var e := if marks[i].failed then Failed(marks[i].config, u.clock) else Succeeded(marks[i].config);
      ServingMarked(u.st, base, log + more, messages, choices, pool, before, e, u.clock);
      OneMark(more, e);
      assert marks[..i + 1] == marks[..i] + [marks[i]];
      Assoc(log, more, [e]);
      Assoc(base, log + more, [e]);
      more := more + [e];
    }
    assert marks[..|marks|] == marks;
    log' := log + more;
    assert log'[|log|..] == more;
  }

  method ServeOne(gateway: LLMGateway, s: SessionId, repo: Repo, ghost base: seq<Event>, ghost log: seq<Event>,
                  ghost earlier: seq<SessionId>, ghost choices: seq<ConfigId>, ghost first: Time)
    returns (c: ConfigId, ghost log': seq<Event>)
    requires gateway.Valid() && gateway.usage.log == base + log && s != ""
    requires Distinct(repo.globals) && repo.globals != []
    requires Idle(gateway.usage.st, base, first) && first <= gateway.usage.clock
    requires Serving(gateway.usage.st, base, log, earlier, choices, repo.globals, gateway.usage.clock)
    modifies gateway.usage
    ensures gateway.Valid() && gateway.usage.log == base + log' && log <= log'
    ensures old(gateway.usage.clock) <= gateway.usage.clock && c in repo.globals
    ensures Marks(gateway.usage.log) == old(Marks(gateway.usage.log))
    ensures Serving(gateway.usage.st, base, log', earlier + [s], choices + [c], repo.globals, gateway.usage.clock)
  {
    hide Serving, GoodChoice, HealthySeen, AnsweredHealthy, Idle, UsageOk, StickyOk, BreakersOk, NoneAfter, SticksTo;
    var u := gateway.usage;
    ghost var now := u.clock;
    var r, at, probes := gateway.SelectConfig(None, None, Some(s), {}, repo);
    assert Eligible(repo, {}, repo.globals[0]);
    c := r.value.config;
    ServingMore(u.st, base, log, earlier, choices, repo, first, now, s, at, c, probes, u.clock);
    log' := log + probes + [Assigned(c, s, u.clock)];
    assert u.log == base + log';
  }

  /** Serve messages from named sessions, one selection each, over a fixed pool, from any state in which nothing
      is live or sticky. Before each message any failures and successes may be recorded. While nothing ages out
      and every health query is answered well, live counts stay within one of each other, add up to the number
      of distinct sessions, and every session keeps the configuration it first got. */
  method ServeMessages(gateway: LLMGateway, messages: seq<SessionId>, before: nat -> seq<Mark>, repo: Repo)
    returns (choices: seq<ConfigId>, ghost log: seq<Event>)
    requires gateway.Valid() && Idle(gateway.usage.st, gateway.usage.log, gateway.usage.clock)
    requires Distinct(repo.globals) && repo.globals != []
    requires forall i :: 0 <= i < |messages| ==> messages[i] != ""
    modifies gateway.usage
    ensures gateway.Valid() && |choices| == |messages| && gateway.usage.log == old(gateway.usage.log) + log
    ensures Marks(log) == MarksBefore(before, |messages|)
    ensures var u := gateway.usage;
      InWindow(u.st, log, u.clock) && AnsweredHealthy(u.st, old(u.log), log) ==>
        && (forall i :: 0 <= i < |choices| ==> choices[i] in repo.globals)
        && (forall i, j :: 0 <= i < j < |messages| && messages[i] == messages[j] ==> choices[i] == choices[j])
        && (forall c, d :: c in repo.globals && d in repo.globals ==>
              |Live(u.st, u.log, c, u.clock)| <= |Live(u.st, u.log, d, u.clock)| + 1)
        && TotalLive(u.st, u.log, repo.globals, u.clock) == |set m | m in messages|
  {
    hide Serving, Idle, UsageOk, StickyOk, BreakersOk, NoneAfter, Marks;
    var u := gateway.usage;
    ghost var base, first := u.log, u.clock;
    choices, log := [], [];
    ServingStarts(u.st, base, repo.globals, first);
    NoMarks([]);
    assert base + log == base && messages[..0] == [];
    for i := 0 to |messages|
      invariant gateway.Valid() && u.log == base + log && first <= u.clock && |choices| == i
      invariant Serving(u.st, base, log, messages[..i], choices, repo.globals, u.clock)
      invariant Marks(log) == MarksBefore(before, i)
    {
      assert messages[..i + 1] == messages[..i] + [messages[i]];
      var log1 := RecordMarks(gateway, before(i), base, log, messages[..i], choices, repo.globals);
      assert log1 == log + log1[|log|..];
      MarksAppend(log, log1[|log|..]);
      var c, log2 := ServeOne(gateway, messages[i], repo, base, log1, messages[..i], choices, first);
      SameMarks(base, log1, log2);
      choices, log := choices + [c], log2;
    }
    assert messages[..|messages|] == messages;
    if InWindow(u.st, log, u.clock) && AnsweredHealthy(u.st, base, log) {
      ServingMeans(u.st, base, log, messages, choices, repo.globals, first, u.clock);
    }
  }

  lemma SameMarks(base: seq<Event>, a: seq<Event>, b: seq<Event>)
    requires Marks(base + a) == Marks(base + b)
    ensures Marks(a) == Marks(b)
  {
    hide Marks;
    MarksAppend(base, a);
    MarksAppend(base, b);
    assert (Marks(base) + Marks(a))[|Marks(base)|..] == Marks(a);
    assert (Marks(base) + Marks(b))[|Marks(base)|..] == Marks(b);
  }

  function MarksBefore(before: nat -> seq<Mark>, n: nat): seq<Mark>
  {
    if n == 0 then [] else MarksBefore(before, n - 1) + before(n - 1)
  }

  lemma ServingMeans(st: Settings, base: seq<Event>, log: seq<Event>, messages: seq<SessionId>, choices: seq<ConfigId>,
                     pool: seq<ConfigId>, first: Time, now: Time)
    requires Serving(st, base, log, messages, choices, pool, now) && Idle(st, base, first) && first <= now
    requires InWindow(st, log, now) && AnsweredHealthy(st, base, log)
    ensures forall i :: 0 <= i < |choices| ==> choices[i] in pool
    ensures |choices| == |messages|
    ensures forall i, j :: 0 <= i < j < |messages| && messages[i] == messages[j] ==> choices[i] == choices[j]
    ensures forall c, d :: c in pool && d in pool ==>
              |Live(st, base + log, c, now)| <= |Live(st, base + log, d, now)| + 1
    ensures TotalLive(st, base + log, pool, now) == |set m | m in messages|
  {
    BalanceSeen(st, base, log, messages, choices, pool, first, now);
  }
}
