/** What a streamed request delivers, as a function of the client attempts it made. */
module Delivery {
  import opened Text
  import opened UsageWindow
  import opened LlmTypes

  /** One client attempt: the configuration tried and everything its stream would produce. */
  datatype Attempt = Attempt(config: ConfigId, pooled: bool, events: seq<LlmEvent>)

  /** A stream is consumed up to and including its first error or stop. */
  function Cut(events: seq<LlmEvent>): (r: seq<LlmEvent>)
    ensures r <= events
    ensures forall i :: 0 <= i < |r| - 1 ==> !r[i].Terminal()
    ensures r == events || (r != [] && r[|r| - 1].Terminal())
  {
    if events == [] then []
    else if events[0].Terminal() then [events[0]]
    else [events[0]] + Cut(events[1..])
  }

  lemma {:induction false} CutAt(events: seq<LlmEvent>, j: nat)
    requires j <= |events| && forall i :: 0 <= i < j ==> !events[i].Terminal()
    ensures j == |events| ==> Cut(events) == events
    ensures j < |events| && events[j].Terminal() ==> Cut(events) == events[..j] + [events[j]]
  {
    if events != [] && j > 0 {
      CutAt(events[1..], j - 1);
    }
  }

  /** The error an attempt ended in, if it did. */
  function Failure(a: Attempt): Option<ErrorData>
  {
    var c := Cut(a.events);
    if c != [] && c[|c| - 1].Error? then Some(c[|c| - 1].data) else None
  }

  predicate Completed(a: Attempt)
  {
    var c := Cut(a.events);
    c != [] && c[|c| - 1].MessageStop?
  }

  /** Failed in a way that blames the configuration, before sending anything but starts. */
  predicate Abandoned(a: Attempt, counts: ErrorData -> bool)
  {
    var c := Cut(a.events);
    Failure(a).Some? && counts(Failure(a).value) && forall i :: 0 <= i < |c| - 1 ==> c[i].IsStart()
  }

  /** What attempts that were given up delivered: their starts only. */
  function Opening(given: seq<Attempt>): seq<LlmEvent>
  {
    if given == [] then []
    else
      var a := given[|given| - 1];
      var c := Cut(a.events);
      Opening(given[..|given| - 1]) + [SelectedConfig(a.config, a.pooled)] + if c == [] then [] else c[..|c| - 1]
  }

  function Transcript(trace: seq<Attempt>): seq<LlmEvent>
    requires trace != []
  {
    var last := trace[|trace| - 1];
    Opening(trace[..|trace| - 1]) + [SelectedConfig(last.config, last.pooled)] + Cut(last.events)
  }

  /** Everything but message starts. */
  function Payload(events: seq<LlmEvent>): seq<LlmEvent>
  {
    Filter(events, (e: LlmEvent) => !e.MessageStart? && !e.SelectedConfig?)
  }

  ghost predicate ValidTrace(trace: seq<Attempt>, counts: ErrorData -> bool)
  {
    trace != [] && forall i :: 0 <= i < |trace| - 1 ==> Abandoned(trace[i], counts)
  }

  ghost predicate AllAbandoned(given: seq<Attempt>, counts: ErrorData -> bool)
  {
    forall a :: a in given ==> Abandoned(a, counts)
  }

  /** Attempt `n` received the stream the client gives its configuration at that attempt. */
  ghost predicate FromClient(trace: seq<Attempt>, client: (nat, ConfigId) -> seq<LlmEvent>)
  {
    forall i :: 0 <= i < |trace| ==> trace[i].events == client(i, trace[i].config)
  }

  lemma FromClientStep(trace: seq<Attempt>, a: Attempt, client: (nat, ConfigId) -> seq<LlmEvent>)
    requires FromClient(trace, client) && a.events == client(|trace|, a.config)
    ensures FromClient(trace + [a], client)
  {
  }

  lemma {:induction false} OpeningIsStarts(given: seq<Attempt>, counts: ErrorData -> bool)
    requires AllAbandoned(given, counts)
    ensures forall i :: 0 <= i < |Opening(given)| ==> Opening(given)[i].IsStart()
  {
    if given != [] {
      assert given[|given| - 1] in given;
      OpeningIsStarts(given[..|given| - 1], counts);
    }
  }

  /** Single-attempt delivery. Apart from message starts, the delivered events are an in-order prefix of
      the last attempt's stream; an error or a stop can only be the very last event. */
  lemma DeliveredFromLastAttempt(trace: seq<Attempt>, counts: ErrorData -> bool)
    requires ValidTrace(trace, counts)
    ensures var out, last := Transcript(trace), trace[|trace| - 1].events;
      && Payload(out) == Payload(Cut(last))
      && Payload(out) <= Payload(last)
      && (forall i :: 0 <= i < |out| && (out[i].Error? || out[i].MessageStop?) ==> i == |out| - 1)
      && (Cut(last) == last || out[|out| - 1].Error? || out[|out| - 1].MessageStop?)
  {
    var n := |trace| - 1;
    var last := trace[n];
    var opening := Opening(trace[..n]) + [SelectedConfig(last.config, last.pooled)];
    OpeningIsStarts(trace[..n], counts);
    hide Opening, Cut, Abandoned, Filter;
    var c := Cut(last.events);
    assert Transcript(trace) == opening + c;
    PayloadAfterStarts(opening, c);
    PayloadPrefix(c, last.events);
  }

  lemma PayloadAfterStarts(starts: seq<LlmEvent>, c: seq<LlmEvent>)
    requires forall i :: 0 <= i < |starts| ==> starts[i].IsStart()
    ensures Payload(starts + c) == Payload(c)
  {
    FilterAppend(starts, c, (e: LlmEvent) => !e.MessageStart? && !e.SelectedConfig?);
    FilterAllDropped(starts, (e: LlmEvent) => !e.MessageStart? && !e.SelectedConfig?);
  }

  lemma PayloadPrefix(c: seq<LlmEvent>, events: seq<LlmEvent>)
    requires c <= events
    ensures Payload(c) <= Payload(events)
  {
    assert events == c + events[|c|..];
    FilterAppend(c, events[|c|..], (e: LlmEvent) => !e.MessageStart? && !e.SelectedConfig?);
  }

  /** The first error or stop of a stream decides what the attempt counts as. */
  lemma EndingOf(a: Attempt, counts: ErrorData -> bool, j: nat)
    requires j <= |a.events| && forall i :: 0 <= i < j ==> !a.events[i].Error? && !a.events[i].MessageStop?
    requires j < |a.events| ==> a.events[j].Error? || a.events[j].MessageStop?
    ensures Completed(a) <==> j < |a.events| && a.events[j].MessageStop?
    ensures Failure(a) == if j < |a.events| && a.events[j].Error? then Some(a.events[j].data) else None
    ensures Retryable(a) <==> j < |a.events| && a.events[j].Error? && a.events[j].data.retryable
    ensures Abandoned(a, counts) <==>
      && j < |a.events| && a.events[j].Error? && counts(a.events[j].data)
      && forall i :: 0 <= i < j ==> a.events[i].MessageStart? || a.events[i].SelectedConfig?
    ensures MarkOf(a, counts) ==
      if !a.pooled || j == |a.events| then []
      else if a.events[j].MessageStop? then [Mark(a.config, false)]
      else if counts(a.events[j].data) then [Mark(a.config, true)]
      else []
  {
    CutAt(a.events, j);
    hide Cut;
    if j == |a.events| && a.events != [] {
      assert !Cut(a.events)[j - 1].Terminal();
    }
  }

  /** The client itself sends no start of the gateway's kind. */
  predicate Unannouncing(events: seq<LlmEvent>)
  {
    forall i :: 0 <= i < |events| ==> !events[i].SelectedConfig?
  }

  /** Every attempt is announced with its configuration, in order, and nothing else is. */
  lemma AttemptsAnnounced(trace: seq<Attempt>)
    requires trace != []
    requires forall i :: 0 <= i < |trace| ==> Unannouncing(trace[i].events)
    ensures Filter(Transcript(trace), (e: LlmEvent) => e.SelectedConfig?) ==
      Mapped(trace, (a: Attempt) => SelectedConfig(a.config, a.pooled))
  {
    hide Filter, Cut, Opening;
    var n := |trace| - 1;
    OpeningAnnounced(trace[..n]);
    Announced(Opening(trace[..n]), trace[n], Cut(trace[n].events));
    assert trace == trace[..n] + [trace[n]];
  }

  lemma {:induction false} OpeningAnnounced(given: seq<Attempt>)
    requires forall i :: 0 <= i < |given| ==> Unannouncing(given[i].events)
    ensures Filter(Opening(given), (e: LlmEvent) => e.SelectedConfig?) ==
      Mapped(given, (a: Attempt) => SelectedConfig(a.config, a.pooled))
  {
    if |given| > 0 {
      hide Filter, Cut, Opening, Unannouncing, Mapped;
      var n := |given| - 1;
      OpeningAnnounced(given[..n]);
      OneMoreAnnounced(given[..n], given[n]);
      assert given == given[..n] + [given[n]];
    }
  }

  lemma OneMoreAnnounced(given: seq<Attempt>, a: Attempt)
    requires Unannouncing(a.events)
    ensures var selected := (e: LlmEvent) => e.SelectedConfig?;
      Filter(Opening(given + [a]), selected) ==
        Filter(Opening(given), selected) + [SelectedConfig(a.config, a.pooled)]
    ensures var announce := (a: Attempt) => SelectedConfig(a.config, a.pooled);
      Mapped(given + [a], announce) == Mapped(given, announce) + [SelectedConfig(a.config, a.pooled)]
  {
    hide Filter, Cut, Opening;
    AttemptsShown(given, a);
    var c := Cut(a.events);
    Announced(Opening(given), a, if c == [] then [] else c[..|c| - 1]);
  }

  lemma Announced(before: seq<LlmEvent>, a: Attempt, sent: seq<LlmEvent>)
    requires Unannouncing(sent)
    ensures Filter(before + [SelectedConfig(a.config, a.pooled)] + sent, (e: LlmEvent) => e.SelectedConfig?) ==
      Filter(before, (e: LlmEvent) => e.SelectedConfig?) + [SelectedConfig(a.config, a.pooled)]
  {
    hide Filter;
    var selected := (e: LlmEvent) => e.SelectedConfig?;
    var start := SelectedConfig(a.config, a.pooled);
    FilterAllDropped(sent, selected);
    FilterAppend(before + [start], sent, selected);
    FilterAppend(before, [start], selected);
    FilterAllKept([start], selected);
  }

  /** Appending a given-up attempt, or a final one, to what has been delivered. */
  lemma DeliveryStep(trace: seq<Attempt>, a: Attempt, counts: ErrorData -> bool, j: nat)
    requires AllAbandoned(trace, counts)
    requires j <= |a.events| && forall i :: 0 <= i < j ==> !a.events[i].Terminal()
    requires j < |a.events| ==> a.events[j].Terminal()
    ensures var sent := Opening(trace) + [SelectedConfig(a.config, a.pooled)] + a.events[..j];
      && ValidTrace(trace + [a], counts)
      && Transcript(trace + [a]) == sent + (if j < |a.events| then [a.events[j]] else [])
      && (j < |a.events| ==> Opening(trace + [a]) == sent)
      && (Abandoned(a, counts) ==> AllAbandoned(trace + [a], counts))
      && Cut(a.events) == a.events[..j] + (if j < |a.events| then [a.events[j]] else [])
  {
    hide Cut, Abandoned, Opening, Transcript;
    CutAt(a.events, j);
    assert a.events[..|a.events|] == a.events;
    if j < |a.events| {
      assert Cut(a.events)[..|Cut(a.events)| - 1] == a.events[..j];
    } else {
      assert a.events + [] == a.events;
    }
    AttemptsShown(trace, a);
    Assoc(Opening(trace) + [SelectedConfig(a.config, a.pooled)], a.events[..j],
          if j < |a.events| then [a.events[j]] else []);
    GivenUpSoFar(trace, a, counts);
  }

  lemma AttemptsShown(trace: seq<Attempt>, a: Attempt)
    ensures var start, c := Opening(trace) + [SelectedConfig(a.config, a.pooled)], Cut(a.events);
      && Transcript(trace + [a]) == start + c
      && Opening(trace + [a]) == start + if c == [] then [] else c[..|c| - 1]
  {
    hide Cut;
    assert (trace + [a])[..|trace|] == trace;
  }

  lemma GivenUpSoFar(trace: seq<Attempt>, a: Attempt, counts: ErrorData -> bool)
    requires AllAbandoned(trace, counts)
    ensures ValidTrace(trace + [a], counts)
    ensures Abandoned(a, counts) ==> AllAbandoned(trace + [a], counts)
  {
    hide Abandoned;
    forall i | 0 <= i < |trace| ensures Abandoned((trace + [a])[i], counts)
    {
      assert trace[i] in trace;
    }
  }

  lemma MarksStep(trace: seq<Attempt>, a: Attempt, counts: ErrorData -> bool)
    ensures MarksOf(trace + [a], counts) == MarksOf(trace, counts) + MarkOf(a, counts)
  {
    assert (trace + [a])[..|trace|] == trace;
  }

  /** What each attempt does to the health record of its configuration: at most one mark. */
  datatype Mark = Mark(config: ConfigId, failed: bool)

  function MarkOf(a: Attempt, counts: ErrorData -> bool): seq<Mark>
  {
    if !a.pooled then []
    else if Completed(a) then [Mark(a.config, false)]
    else if Failure(a).Some? && counts(Failure(a).value) then [Mark(a.config, true)]
    else []
  }

  function MarksOf(trace: seq<Attempt>, counts: ErrorData -> bool): seq<Mark>
  {
    if trace == [] then []
    else MarksOf(trace[..|trace| - 1], counts) + MarkOf(trace[|trace| - 1], counts)
  }

  /** The failures and successes in a usage log, in order. */
  function Marks(log: seq<Event>): seq<Mark>
  {
    if log == [] then []
    else
      Marks(log[..|log| - 1]) +
      match log[|log| - 1]
      case Failed(c, _) => [Mark(c, true)]
      case Succeeded(c) => [Mark(c, false)]
      case _ => []
  }

  lemma {:induction false} MarksAppend(a: seq<Event>, b: seq<Event>)
    ensures Marks(a + b) == Marks(a) + Marks(b)
  {
    if |b| == 0 {
      assert a + b == a;
    } else {
      assert (a + b)[..|a + b| - 1] == a + b[..|b| - 1];
      MarksAppend(a, b[..|b| - 1]);
      Assoc(Marks(a), Marks(b[..|b| - 1]), Marks(b)[|Marks(b[..|b| - 1])|..]);
    }
  }

  lemma {:induction false} NoMarks(log: seq<Event>)
    requires forall e :: e in log ==> !e.Failed? && !e.Succeeded?
    ensures Marks(log) == []
  {
    if log != [] {
      assert log[|log| - 1] in log;
      NoMarks(log[..|log| - 1]);
    }
  }

  lemma OneMark(log: seq<Event>, e: Event)
    ensures Marks(log + [e]) == Marks(log) +
      match e
      case Failed(c, _) => [Mark(c, true)]
      case Succeeded(c) => [Mark(c, false)]
      case _ => []
  {
    assert (log + [e])[..|log|] == log;
  }

  /** The mark of an attempt, read off the event its stream was consumed up to. */
  lemma MarkOfTerminal(a: Attempt, counts: ErrorData -> bool, j: nat)
    requires j <= |a.events| && forall i :: 0 <= i < j ==> !a.events[i].Terminal()
    requires j < |a.events| ==> a.events[j].Terminal()
    ensures j == |a.events| ==> MarkOf(a, counts) == []
    ensures j < |a.events| && a.events[j].MessageStop? ==>
      MarkOf(a, counts) == if a.pooled then [Mark(a.config, false)] else []
    ensures j < |a.events| && a.events[j].Error? ==>
      && MarkOf(a, counts) == (if a.pooled && counts(a.events[j].data) then [Mark(a.config, true)] else [])
      && (Abandoned(a, counts) <==> counts(a.events[j].data) && forall i :: 0 <= i < j ==> a.events[i].IsStart())
  {
    hide Cut, Abandoned, MarkOf;
    EndingOf(a, counts, j);
  }

  // ----- which configurations the attempts use -----

  /** The first `d` attempts use different configurations; any later ones repeat the last of these,
      and then only because the whole pool has been tried. */
  ghost predicate DistinctThenRepeat(trace: seq<Attempt>, d: nat, pool: set<ConfigId>)
  {
    && d <= |trace|
    && (forall i, j :: 0 <= i < j < d ==> trace[i].config != trace[j].config)
    && (d < |trace| ==>
          && 0 < d
          && (forall i :: d <= i < |trace| ==> trace[i].config == trace[d - 1].config)
          && pool <= set i | 0 <= i < d :: trace[i].config)
  }

  function Pow2(n: nat): nat
  {
    if n == 0 then 1 else 2 * Pow2(n - 1)
  }

  /** Where a run stands: `d` different configurations tried so far, all excluded; the next one is either
      new, or repeats the last of them because nothing else is left. */
  ghost predicate Rotation(trace: seq<Attempt>, d: nat, excluded: set<ConfigId>, pool: set<ConfigId>, next: ConfigId)
  {
    && DistinctThenRepeat(trace, d, pool)
    && excluded == (set i | 0 <= i < d :: trace[i].config)
    && (if next !in excluded then d == |trace|
        else d > 0 && pool <= excluded && next == trace[d - 1].config)
  }

  ghost function Tried(trace: seq<Attempt>): set<ConfigId>
  {
    set i | 0 <= i < |trace| :: trace[i].config
  }

  predicate Retryable(a: Attempt)
  {
    Failure(a).Some? && Failure(a).value.retryable
  }

  /** A request outside the pool stays with its configuration and goes on only after retryable errors. */
  ghost predicate StaysUnpooled(trace: seq<Attempt>)
  {
    trace != [] && !trace[0].pooled ==>
      && (forall i :: 0 <= i < |trace| ==> trace[i].config == trace[0].config && !trace[i].pooled)
      && (forall i :: 0 <= i < |trace| - 1 ==> Retryable(trace[i]))
  }

  /** In a pool that stays the same, a configuration is repeated only after a retryable error. */
  ghost predicate RepeatsWhenRetryable(trace: seq<Attempt>, d: nat)
  {
    forall i :: 0 <= i && d - 1 <= i < |trace| - 1 ==> Retryable(trace[i])
  }

  /** Giving up on an attempt that could be retried has a reason: the retry bound, or an error not worth
      repeating with, in a pool that stays the same, no configuration left untried. */
  ghost predicate GaveUpRightly(trace: seq<Attempt>, retries: nat, counts: ErrorData -> bool,
                                rotating: bool, pool: set<ConfigId>)
    requires trace != []
  {
    Abandoned(trace[|trace| - 1], counts) ==>
      |trace| == retries + 1 || (!Retryable(trace[|trace| - 1]) && (rotating ==> pool <= Tried(trace)))
  }

  /** Which attempts a finished run made, and why it made no more. `rotating`: the first choice was pooled
      and the repository did not change. */
  ghost predicate Report(trace: seq<Attempt>, d: nat, retries: nat, counts: ErrorData -> bool,
                         rotating: bool, pool: set<ConfigId>)
    requires trace != []
  {
    && StaysUnpooled(trace)
    && GaveUpRightly(trace, retries, counts, rotating, pool)
    && (rotating ==> DistinctThenRepeat(trace, d, pool) && RepeatsWhenRetryable(trace, d))
  }

  /** After a further attempt on `next`, the run may go on with a new configuration or, if none is left, the same. */
  lemma RotationStep(trace: seq<Attempt>, d: nat, excluded: set<ConfigId>, pool: set<ConfigId>, a: Attempt)
    returns (d': nat)
    requires Rotation(trace, d, excluded, pool, a.config)
    ensures var trace', excluded' := trace + [a], excluded + {a.config};
      && DistinctThenRepeat(trace', d', pool)
      && (forall next :: next !in excluded' && (exists c :: c in pool && c !in excluded') ==>
            Rotation(trace', d', excluded', pool, next))
      && (pool <= excluded' ==> Rotation(trace', d', excluded', pool, a.config))
      && excluded' <= Tried(trace')
    ensures d' == if a.config in excluded then d else |trace| + 1
  {
    var trace' := trace + [a];
    assert trace'[|trace|] == a;
    forall c | c in excluded + {a.config} ensures c in Tried(trace')
    {
      if c in excluded {
        var i :| 0 <= i < d && trace[i].config == c;
        assert trace'[i].config == c;
      }
    }
    if a.config !in excluded {
      d' := |trace'|;
      forall i, j | 0 <= i < j < d' ensures trace'[i].config != trace'[j].config
      {
        assert trace'[i].config in excluded;
      }
      assert trace'[d' - 1] == a;
      var tried := set i | 0 <= i < d' :: trace'[i].config;
      forall c ensures c in tried <==> c in excluded + {a.config}
      {
        if c in excluded {
          var i :| 0 <= i < d && trace[i].config == c;
          assert trace'[i].config == c;
        }
      }
    } else {
      d' := d;
      var tried := set i | 0 <= i < d :: trace'[i].config;
      forall c ensures c in tried <==> c in excluded
      {
        if c in excluded {
          var i :| 0 <= i < d && trace[i].config == c;
          assert trace'[i].config == c;
        }
        if c in tried {
          var i :| 0 <= i < d && trace'[i].config == c;
          assert trace[i].config == c;
        }
      }
    }
  }

  lemma RotationStarts(pool: set<ConfigId>, next: ConfigId)
    ensures Rotation([], 0, {}, pool, next)
  {
  }

  /** The pause after a failed attempt: doubled each time. */
  function Pause(base: real, attempt: nat): real
  {
    base * Pow2(attempt) as real
  }

  /** Total backoff before attempt number `attempt`, when every retry waits. */
  function Allowance(base: real, attempt: nat): real
  {
    base * (Pow2(attempt) - 1) as real
  }

  /** Doubling delays add up to less than the next one. */
  lemma BackoffStep(base: real, slept: real, attempt: nat)
    requires 0.0 <= base && slept <= Allowance(base, attempt)
    ensures slept + Pause(base, attempt) <= Allowance(base, attempt + 1)
    ensures 0.0 <= Pause(base, attempt)
  {
    var p := Pow2(attempt) as real;
    assert base * (p - 1.0) + base * p == base * (2.0 * p - 1.0);
  }

  lemma {:induction false} AllowanceGrows(base: real, a: nat, b: nat)
    requires 0.0 <= base && a <= b
    ensures 0.0 <= Allowance(base, a) <= Allowance(base, b)
  {
    if a < b {
      AllowanceGrows(base, a, b - 1);
      BackoffStep(base, Allowance(base, b - 1), b - 1);
    } else if 0 < a {
      AllowanceGrows(base, 0, a - 1);
      BackoffStep(base, Allowance(base, a - 1), a - 1);
    }
  }

  function Configs(trace: seq<Attempt>): seq<ConfigId>
  {
    Mapped(trace, (a: Attempt) => a.config)
  }

  /** The pauses between attempts on these configurations: one before each repetition. */
  function Slept(base: real, configs: seq<ConfigId>): real
  {
    if |configs| <= 1 then 0.0
    else
      var n := |configs| - 1;
      Slept(base, configs[..n]) + if configs[n] == configs[n - 1] then Pause(base, n - 1) else 0.0
  }

  lemma SleptMore(base: real, configs: seq<ConfigId>, next: ConfigId)
    requires |configs| > 0
    ensures Slept(base, configs + [next]) ==
      Slept(base, configs) + if next == configs[|configs| - 1] then Pause(base, |configs| - 1) else 0.0
  {
    assert (configs + [next])[..|configs|] == configs;
  }

  /** All pauses from the one of length `base * q` up to, not including, the one of length `base * p`. */
  function Pauses(base: real, q: nat, p: nat): real
  {
    base * (p - q) as real
  }

  /** All pauses together, when the first `d` configurations differ from their neighbours and the rest repeat. */
  lemma {:induction false} SleptInAll(base: real, configs: seq<ConfigId>, d: nat)
    requires 0 < d <= |configs|
    requires forall i :: 0 < i < d ==> configs[i] != configs[i - 1]
    requires forall i :: d <= i < |configs| ==> configs[i] == configs[i - 1]
    ensures Slept(base, configs) == Pauses(base, Pow2(d - 1), Pow2(|configs| - 1))
  {
    var n := |configs| - 1;
    NoPause(base, Pow2(d - 1));
    hide Pauses, Pause, Pow2;
    if d == |configs| {
      NothingSlept(base, configs);
    } else {
      hide Slept;
      assert configs == configs[..n] + [configs[n]];
      SleptInAll(base, configs[..n], d);
      SleptMore(base, configs[..n], configs[n]);
      OnePauseMore(base, n, Pow2(d - 1));
    }
  }

  lemma NoPause(base: real, q: nat)
    ensures Pauses(base, q, q) == 0.0
  {
  }

  lemma {:induction false} NothingSlept(base: real, configs: seq<ConfigId>)
    requires forall i :: 0 < i < |configs| ==> configs[i] != configs[i - 1]
    ensures Slept(base, configs) == 0.0
  {
    if |configs| > 1 {
      NothingSlept(base, configs[..|configs| - 1]);
    }
  }

  lemma OnePauseMore(base: real, n: nat, q: nat)
    requires n > 0
    ensures Pauses(base, q, Pow2(n - 1)) + Pause(base, n - 1) == Pauses(base, q, Pow2(n))
  {
    var p := Pow2(n - 1);
    assert (2 * p - q) as real == (p - q) as real + p as real;
  }

  /** The pauses of a run outside the pool, or in a pool that stays the same, in closed form. */
  lemma SleptInRun(base: real, trace: seq<Attempt>, d: nat, pool: set<ConfigId>)
    requires trace != []
    ensures StaysUnpooled(trace) && !trace[0].pooled ==>
      Slept(base, Configs(trace)) == base * (Pow2(|trace| - 1) - 1) as real
    ensures DistinctThenRepeat(trace, d, pool) ==>
      0 < d <= |trace| && Slept(base, Configs(trace)) == base * (Pow2(|trace| - 1) - Pow2(d - 1)) as real
  {
    hide Slept, Pow2;
    var configs := Configs(trace);
    if StaysUnpooled(trace) && !trace[0].pooled {
      NoDoubling();
      SleptInAll(base, configs, 1);
    }
    if DistinctThenRepeat(trace, d, pool) {
      SleptInAll(base, configs, d);
    }
  }

  lemma NoDoubling()
    ensures Pow2(0) == 1
  {
  }

  /** A run in progress: every attempt so far was given up. */
  ghost predicate Running(trace: seq<Attempt>, out: seq<LlmEvent>, slept: real, base: real,
                          client: (nat, ConfigId) -> seq<LlmEvent>, counts: ErrorData -> bool)
  {
    && out == Opening(trace) && AllAbandoned(trace, counts) && FromClient(trace, client)
    && 0.0 <= slept <= Allowance(base, |trace|)
  }

  /** A finished run: at most `retries + 1` attempts, and the delivered events are their transcript. */
  ghost predicate Finished(trace: seq<Attempt>, out: seq<LlmEvent>, slept: real, base: real, retries: nat,
                           client: (nat, ConfigId) -> seq<LlmEvent>, counts: ErrorData -> bool)
  {
    && ValidTrace(trace, counts) && out == Transcript(trace) && FromClient(trace, client)
    && |trace| <= retries + 1
    && 0.0 <= slept <= Allowance(base, retries)
  }

  lemma RunEnds(trace: seq<Attempt>, out: seq<LlmEvent>, slept: real, base: real, retries: nat,
                client: (nat, ConfigId) -> seq<LlmEvent>, counts: ErrorData -> bool, a: Attempt, j: nat)
    requires Running(trace, out, slept, base, client, counts) && |trace| <= retries && 0.0 <= base
    requires a.events == client(|trace|, a.config)
    requires j <= |a.events| && forall i :: 0 <= i < j ==> !a.events[i].Terminal()
    requires j < |a.events| ==> a.events[j].Terminal()
    ensures Finished(trace + [a],
              out + [SelectedConfig(a.config, a.pooled)] + a.events[..j] +
                  (if j < |a.events| then [a.events[j]] else []),
              slept, base, retries, client, counts)
  {
    hide Cut, Opening, Abandoned, Transcript, ValidTrace, AllAbandoned, Allowance, Pause;
    DeliveryStep(trace, a, counts, j);
    FromClientStep(trace, a, client);
    hide FromClient;
    AllowanceGrows(base, |trace|, retries);
  }

  lemma RunGoesOn(trace: seq<Attempt>, out: seq<LlmEvent>, slept: real, base: real,
                  client: (nat, ConfigId) -> seq<LlmEvent>, counts: ErrorData -> bool, a: Attempt, j: nat)
    requires Running(trace, out, slept, base, client, counts) && 0.0 <= base
    requires a.events == client(|trace|, a.config)
    requires j < |a.events| && a.events[j].Terminal() && forall i :: 0 <= i < j ==> !a.events[i].Terminal()
    requires Abandoned(a, counts)
    ensures var out' := out + [SelectedConfig(a.config, a.pooled)] + a.events[..j];
      && Running(trace + [a], out', slept, base, client, counts)
      && Running(trace + [a], out', slept + Pause(base, |trace|), base, client, counts)
  {
    hide Cut, Opening, Abandoned, Transcript, ValidTrace, AllAbandoned, Allowance, Pause;
    DeliveryStep(trace, a, counts, j);
    FromClientStep(trace, a, client);
    hide FromClient;
    BackoffStep(base, slept, |trace|);
    AllowanceGrows(base, |trace|, |trace| + 1);
  }

  /** Usage figures sent after the stop never get through. */
  lemma UsageNeverDelivered(trace: seq<Attempt>, counts: ErrorData -> bool)
    requires ValidTrace(trace, counts)
    requires forall a, i :: a in trace && 0 <= i < |a.events| && a.events[i].Usage? ==>
               exists j :: 0 <= j < i && a.events[j].MessageStop?
    ensures forall i :: 0 <= i < |Transcript(trace)| ==> !Transcript(trace)[i].Usage?
  {
    var n := |trace| - 1;
    OpeningIsStarts(trace[..n], counts);
    var last := trace[n];
    assert last in trace;
    forall i | 0 <= i < |Cut(last.events)|
      ensures !Cut(last.events)[i].Usage?
    {
      assert forall j :: 0 <= j < i ==> last.events[j] == Cut(last.events)[j] && !last.events[j].Terminal();
    }
  }
}
