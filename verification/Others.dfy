/**
  Other requests on the same usage window: what they may do between the steps of one request, and
  how the events of the request and of the others share the log.
 */
module Others {
  import opened Text
  import opened UsageWindow

  /** One call another request makes on the window. */
  datatype Op =
    | RecordSession(config: ConfigId, session: SessionId)
    | ClearSticky(session: SessionId, config: ConfigId)
    | RecordFailure(config: ConfigId)
    | RecordSuccess(config: ConfigId)
    | AskHealth(config: ConfigId)
    | AskCount(config: ConfigId)
    | AskSticky(session: SessionId)

  /** Session counts and sticky queries leave nothing in the log. */
  predicate Logged(op: Op)
  {
    !op.AskCount? && !op.AskSticky?
  }

  function Effects(ops: seq<Op>): seq<Op>
  {
    Filter(ops, Logged)
  }

  /** The call that logs an event. */
  function OpOf(e: Event): Op
  {
    match e
    case Assigned(c, s, _) => RecordSession(c, s)
    case Unstuck(s, c) => ClearSticky(s, c)
    case Failed(c, _) => RecordFailure(c)
    case Succeeded(c) => RecordSuccess(c)
    case Probed(c, _) => AskHealth(c)
  }

  function Acts(events: seq<Event>): seq<Op>
  {
    Mapped(events, OpOf)
  }

  predicate Names(op: Op, s: SessionId)
  {
    (op.RecordSession? || op.ClearSticky?) && op.session == s
  }

  /** No call assigns or clears the session. */
  predicate Avoids(ops: seq<Op>, session: Option<SessionId>)
  {
    session.Some? ==> forall op :: op in ops ==> !Names(op, session.value)
  }

  /** The calls made at the first `n` points of a schedule. */
  function UpTo(others: nat -> seq<Op>, n: nat): seq<Op>
  {
    if n == 0 then [] else UpTo(others, n - 1) + others(n - 1)
  }

  lemma ActsMore(events: seq<Event>, more: seq<Event>)
    ensures Acts(events + more) == Acts(events) + Acts(more)
  {
    MappedAppend(events, more, OpOf);
  }

  lemma EffectsUpTo(others: nat -> seq<Op>, n: nat)
    ensures Effects(UpTo(others, n + 1)) == Effects(UpTo(others, n)) + Effects(others(n))
  {
    FilterAppend(UpTo(others, n), others(n), Logged);
  }

  lemma OneEffect(op: Op)
    ensures Effects([op]) == if Logged(op) then [op] else []
  {
    if Logged(op) {
      FilterAllKept([op], Logged);
    } else {
      FilterAllDropped([op], Logged);
    }
  }

  method PerformOne(usage: GlobalUsageWindow, op: Op) returns (ghost events: seq<Event>)
    requires usage.Valid()
    modifies usage
    ensures usage.Valid() && old(usage.clock) <= usage.clock && usage.log == old(usage.log) + events
    ensures Acts(events) == Effects([op])
  {
    hide Effects, UsageOk, StickyOk, BreakersOk, NoneAfter, Unhealthy, Live, Sticky;
    OneEffect(op);
    events := [];
    match op
    case RecordSession(c, s) =>
      usage.RecordSession(c, s);
      events := [Assigned(c, s, usage.clock)];
    case ClearSticky(s, c) =>
      usage.ClearStickySession(s, c);
      events := [Unstuck(s, c)];
    case RecordFailure(c) =>
      usage.RecordFailure(c);
      events := [Failed(c, usage.clock)];
    case RecordSuccess(c) =>
      usage.RecordSuccess(c);
      events := [Succeeded(c)];
    case AskHealth(c) =>
      var bad := usage.IsUnhealthy(c);
      events := [Probed(c, usage.clock)];
    case AskCount(c) =>
      var n := usage.SessionCount(c);
    case AskSticky(s) =>
      var c := usage.StickyConfigId(s);
  }

  /** The other requests make their calls, in order. */
  method Perform(usage: GlobalUsageWindow, ops: seq<Op>) returns (ghost events: seq<Event>)
    requires usage.Valid()
    modifies usage
    ensures usage.Valid() && old(usage.clock) <= usage.clock && usage.log == old(usage.log) + events
    ensures Acts(events) == Effects(ops)
  {
    hide Acts, Effects, UsageOk, StickyOk, BreakersOk, NoneAfter;
    events := [];
    NothingDone();
    assert ops[..0] == [];
    for i := 0 to |ops|
      invariant usage.Valid() && old(usage.clock) <= usage.clock && usage.log == old(usage.log) + events
      invariant Acts(events) == Effects(ops[..i])
    {
      var more := PerformOne(usage, ops[i]);
      assert ops[..i + 1] == ops[..i] + [ops[i]];
      EffectsMore(ops[..i], [ops[i]]);
      ActsMore(events, more);
      Assoc(old(usage.log), events, more);
      events := events + more;
    }
    assert ops[..|ops|] == ops;
  }

  lemma NothingDone()
    ensures Acts([]) == Effects([]) == []
  {
  }

  lemma EffectsMore(ops: seq<Op>, more: seq<Op>)
    ensures Effects(ops + more) == Effects(ops) + Effects(more)
  {
    FilterAppend(ops, more, Logged);
  }

  // ----- a shared log -----

  /** What a request and the others have added to the log since some moment. */
  datatype Account = Account(own: seq<Event>, foreign: seq<Event>)

  const EMPTY := Account([], [])

  /** The log is the two lists merged, each in its own order. */
  ghost predicate Woven(log: seq<Event>, own: seq<Event>, foreign: seq<Event>)
  {
    if |log| == 0 then own == [] && foreign == []
    else
      var n := |log| - 1;
      || (|own| > 0 && own[|own| - 1] == log[n] && Woven(log[..n], own[..|own| - 1], foreign))
      || (|foreign| > 0 && foreign[|foreign| - 1] == log[n] && Woven(log[..n], own, foreign[..|foreign| - 1]))
  }

  /** The log grew from `before` to `after` by what the account holds. */
  ghost predicate Grew(before: seq<Event>, after: seq<Event>, account: Account)
  {
    before <= after && Woven(after[|before|..], account.own, account.foreign)
  }

  lemma GrewNothing(log: seq<Event>)
    ensures Grew(log, log, EMPTY)
  {
  }

  lemma {:induction false} WovenOwn(log: seq<Event>, own: seq<Event>, foreign: seq<Event>, more: seq<Event>)
    requires Woven(log, own, foreign)
    ensures Woven(log + more, own + more, foreign)
  {
    if |more| == 0 {
      assert log + more == log && own + more == own;
    } else {
      var n := |more| - 1;
      WovenOwn(log, own, foreign, more[..n]);
      assert (log + more)[..|log + more| - 1] == log + more[..n];
      assert (own + more)[..|own + more| - 1] == own + more[..n];
    }
  }

  lemma {:induction false} WovenForeign(log: seq<Event>, own: seq<Event>, foreign: seq<Event>, more: seq<Event>)
    requires Woven(log, own, foreign)
    ensures Woven(log + more, own, foreign + more)
  {
    if |more| == 0 {
      assert log + more == log && foreign + more == foreign;
    } else {
      var n := |more| - 1;
      WovenForeign(log, own, foreign, more[..n]);
      assert (log + more)[..|log + more| - 1] == log + more[..n];
      assert (foreign + more)[..|foreign + more| - 1] == foreign + more[..n];
    }
  }

  lemma OwnMore(before: seq<Event>, after: seq<Event>, account: Account, more: seq<Event>)
    requires Grew(before, after, account)
    ensures Grew(before, after + more, Account(account.own + more, account.foreign))
  {
    hide Woven;
    WovenOwn(after[|before|..], account.own, account.foreign, more);
    assert (after + more)[|before|..] == after[|before|..] + more;
  }

  lemma ForeignMore(before: seq<Event>, after: seq<Event>, account: Account, more: seq<Event>)
    requires Grew(before, after, account)
    ensures Grew(before, after + more, Account(account.own, account.foreign + more))
  {
    hide Woven;
    WovenForeign(after[|before|..], account.own, account.foreign, more);
    assert (after + more)[|before|..] == after[|before|..] + more;
  }

  lemma {:induction false} WovenAlone(log: seq<Event>, own: seq<Event>)
    requires Woven(log, own, [])
    ensures log == own
  {
    if |log| > 0 {
      var n := |log| - 1;
      WovenAlone(log[..n], own[..|own| - 1]);
      assert log == log[..n] + [log[n]] && own == own[..|own| - 1] + [own[|own| - 1]];
    }
  }

  /** When the others did nothing that is logged, the log grew by the request's own events. */
  lemma GrewAlone(before: seq<Event>, after: seq<Event>, account: Account)
    requires Grew(before, after, account) && Acts(account.foreign) == []
    ensures after == before + account.own
  {
    assert |account.foreign| == |Acts(account.foreign)|;
    assert account.foreign == [];
    WovenAlone(after[|before|..], account.own);
    assert after == before + after[|before|..];
  }

  /** Events that avoid a session leave it where it is. */
  lemma {:induction false} AvoidedSticky(log: seq<Event>, events: seq<Event>, s: SessionId)
    requires forall op :: op in Acts(events) ==> !Names(op, s)
    ensures StickyRecord(log + events, s) == StickyRecord(log, s)
  {
    if |events| == 0 {
      assert log + events == log;
    } else {
      hide StickyRecord;
      var n := |events| - 1;
      assert log + events == (log + events[..n]) + [events[n]];
      assert Acts(events)[n] == OpOf(events[n]) && Acts(events)[n] in Acts(events);
      forall op | op in Acts(events[..n]) ensures !Names(op, s)
      {
        var i :| 0 <= i < n && Acts(events[..n])[i] == op;
        assert Acts(events)[i] == op && Acts(events)[i] in Acts(events);
      }
      AvoidedSticky(log, events[..n], s);
      StickyStep(log + events[..n], events[n], s);
    }
  }

  lemma EffectsAvoid(ops: seq<Op>, session: Option<SessionId>)
    requires Avoids(ops, session)
    ensures Avoids(Effects(ops), session)
  {
    FilterWithin(ops, Logged);
  }
}
