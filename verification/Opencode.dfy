/**
  The chat turn that runs on an external agent: failover between pooled configurations, and
  saving what was streamed.
 */
module Opencode {
  import opened Text
  import opened UsageWindow
  import LlmTypes
  import opened Others
  import opened Delivery
  import opened Gateway

  type ErrorData = LlmTypes.ErrorData

  datatype ChatEvent =
    | TextDelta(delta: Option<string>, text: Option<string>)
    | Done
    | Failure(error: ErrorData)
    | Other(kind: string)
    | Busy                                             // the session is being initialised
    | RuntimeState(config: ConfigId, pooled: bool)
  {
    predicate Final() { Done? || Failure? }
  }

  /** How a turn stops producing events. */
  datatype TurnEnd = Closed | Raised(error: ErrorData) | Cancelled

  /** One turn on one configuration: whether it got started, its events, and how it stopped. */
  datatype Turn = Turn(started: bool, events: seq<ChatEvent>, end: TurnEnd)

  datatype Try = Try(config: ConfigId, pooled: bool, turn: Turn)

  /** What is kept of a turn: nothing, an answer, or an answer cut short by the user. */
  datatype Saved = Nothing | Answer(content: string) | Stopped(content: string)

  /** The text of a delta event: `delta` if it is not empty, else `text`. */
  function TextOf(e: ChatEvent): Option<string>
  {
    if !e.TextDelta? then None
    else if e.delta.Some? && |e.delta.value| > 0 then e.delta else e.text
  }

  /** All text in a run of events. */
  function TextIn(events: seq<ChatEvent>): string
  {
    if events == [] then ""
    else
      var t := TextOf(events[|events| - 1]);
      TextIn(events[..|events| - 1]) + if t.Some? then t.value else ""
  }

  predicate HasText(events: seq<ChatEvent>)
  {
    exists e :: e in events && TextOf(e).Some?
  }

  // ----- what a turn delivers -----

  /** Position of the first final event, or the length. */
  function FinalAt(events: seq<ChatEvent>): (j: nat)
    ensures j <= |events| && (j < |events| ==> events[j].Final())
    ensures forall i :: 0 <= i < j ==> !events[i].Final()
  {
    if events == [] then 0
    else if events[0].Final() then 0
    else 1 + FinalAt(events[1..])
  }

  /** Failed before any text, in a way that moves the turn to another pooled configuration. */
  predicate GivenUp(t: Try, counts: ErrorData -> bool)
  {
    var j := FinalAt(t.turn.events);
    && t.pooled && t.turn.started && j < |t.turn.events|
    && t.turn.events[j].Failure? && counts(t.turn.events[j].error)
    && !HasText(t.turn.events[..j])
  }

  /** The error a turn ended in, as shown. */
  function ErrorShown(t: Try): seq<ChatEvent>
  {
    var j := FinalAt(t.turn.events);
    if j < |t.turn.events| && t.turn.events[j].Failure? then [t.turn.events[j]] else []
  }

  /** Before its final event, a started turn shows these. */
  function Head(t: Try): seq<ChatEvent>
  {
    [Busy, RuntimeState(t.config, t.pooled)] + t.turn.events[..FinalAt(t.turn.events)]
  }

  function HeadsOf(given: seq<Try>): seq<ChatEvent>
  {
    if given == [] then [] else HeadsOf(given[..|given| - 1]) + Head(given[|given| - 1])
  }

  function EndEvents(end: TurnEnd): seq<ChatEvent>
  {
    if end.Raised? then [Failure(end.error)] else []
  }

  /** Everything the last turn shows. */
  function Last(t: Try): seq<ChatEvent>
  {
    var j := FinalAt(t.turn.events);
    if !t.turn.started then [Busy] + EndEvents(t.turn.end)
    else if j < |t.turn.events| then Head(t) + [t.turn.events[j]]
    else Head(t) + EndEvents(t.turn.end)
  }

  predicate Completed(t: Try)
  {
    var j := FinalAt(t.turn.events);
    t.turn.started && j < |t.turn.events| && t.turn.events[j].Done?
  }

  predicate WasCancelled(t: Try)
  {
    t.turn.end.Cancelled? && (!t.turn.started || FinalAt(t.turn.events) == |t.turn.events|)
  }

  // ----- what a whole run of tries means -----

  ghost predicate AllGivenUp(given: seq<Try>, counts: ErrorData -> bool)
  {
    forall t :: t in given ==> GivenUp(t, counts)
  }

  lemma {:induction false} TextAppend(a: seq<ChatEvent>, b: seq<ChatEvent>)
    ensures TextIn(a + b) == TextIn(a) + TextIn(b)
  {
    if |b| == 0 {
      assert a + b == a;
    } else {
      assert (a + b)[..|a + b| - 1] == a + b[..|b| - 1];
      TextAppend(a, b[..|b| - 1]);
      Assoc(TextIn(a), TextIn(b[..|b| - 1]), TextIn(b)[|TextIn(b[..|b| - 1])|..]);
    }
  }

  lemma {:induction false} NoText(events: seq<ChatEvent>)
    requires !HasText(events)
    ensures TextIn(events) == ""
  {
    if events != [] {
      assert events[|events| - 1] in events;
      NoText(events[..|events| - 1]);
    }
  }

  lemma HeadText(t: Try)
    ensures TextIn(Head(t)) == TextIn(t.turn.events[..FinalAt(t.turn.events)])
    ensures forall i :: 0 <= i < |Head(t)| ==> !Head(t)[i].Final()
  {
    var start := [Busy, RuntimeState(t.config, t.pooled)];
    assert !HasText(start);
    NoText(start);
    TextAppend(start, t.turn.events[..FinalAt(t.turn.events)]);
  }

  /** Tries that were given up showed no text and nothing final. */
  lemma {:induction false} GivenUpShowNoText(given: seq<Try>, counts: ErrorData -> bool)
    requires AllGivenUp(given, counts)
    ensures TextIn(HeadsOf(given)) == ""
    ensures forall i :: 0 <= i < |HeadsOf(given)| ==> !HeadsOf(given)[i].Final()
  {
    if given != [] {
      var n := |given| - 1;
      assert given[n] in given;
      GivenUpShowNoText(given[..n], counts);
      HeadText(given[n]);
      NoText(given[n].turn.events[..FinalAt(given[n].turn.events)]);
      hide Head, HasText;
      TextAppend(HeadsOf(given[..n]), Head(given[n]));
    }
  }

  /** All forwarded text is the last turn's, up to its final event; an error or a done can only be last. */
  lemma TextFromLastTry(given: seq<Try>, last: Try, counts: ErrorData -> bool)
    requires AllGivenUp(given, counts)
    ensures var out := HeadsOf(given) + Last(last);
      && TextIn(out) == (if last.turn.started then TextIn(last.turn.events[..FinalAt(last.turn.events)]) else "")
      && (forall i :: 0 <= i < |out| && out[i].Final() ==> i == |out| - 1)
      && (Completed(last) <==> out[|out| - 1].Done?)
  {
    GivenUpShowNoText(given, counts);
    LastText(last);
    hide Head, Last, TextIn;
    TextAppend(HeadsOf(given), Last(last));
  }

  lemma LastText(t: Try)
    ensures var r := Last(t);
      && r != []
      && TextIn(r) == (if t.turn.started then TextIn(t.turn.events[..FinalAt(t.turn.events)]) else "")
      && (forall i :: 0 <= i < |r| && r[i].Final() ==> i == |r| - 1)
      && (Completed(t) <==> r[|r| - 1].Done?)
  {
    assert |Head(t)| >= 2;
    hide Head, HasText, TextIn;
    var j := FinalAt(t.turn.events);
    HeadText(t);
    if t.turn.started {
      var tail := if j < |t.turn.events| then [t.turn.events[j]] else EndEvents(t.turn.end);
      ShortTail(tail);
      TextAppend(Head(t), tail);
    } else {
      ShortTail([Busy] + EndEvents(t.turn.end));
    }
  }

  lemma ShortTail(tail: seq<ChatEvent>)
    requires forall e :: e in tail ==> e.Final() || e.Busy?
    ensures TextIn(tail) == ""
  {
    NoText(tail);
  }

  /** What a turn forwarded and saved, however it ended. A final event can only be the last; all text is that of
      the last try, and there is none when every try was given up. A done saves the stripped text, if there is
      any, as the answer; an error saves nothing; only a cancelled try leaves a stopped answer. */
  lemma TurnOutcome(trace: seq<Try>, out: seq<ChatEvent>, saved: Saved, repo: Repo, counts: ErrorData -> bool,
                    exhausted: bool)
    requires TurnReport(trace, out, saved, repo, counts, exhausted)
    ensures |out| > 0 && forall i :: 0 <= i < |out| && out[i].Final() ==> i == |out| - 1
    ensures TextIn(out) ==
      if trace == [] || exhausted || !trace[|trace| - 1].turn.started then ""
      else TextIn(trace[|trace| - 1].turn.events[..FinalAt(trace[|trace| - 1].turn.events)])
    ensures var content, last := Strip(TextIn(out)), out[|out| - 1];
      && (last.Done? ==> saved == if content == "" then Nothing else Answer(content))
      && (last.Failure? ==> saved == Nothing)
      && (!last.Final() ==> saved.Nothing? || saved == Stopped(content))
  {
    hide HeadsOf, Head, Last, TextIn, Strip, HasText, GivenUp, FinalAt, ErrorShown;
    if trace == [] {
      ShortTail(out);
    } else if exhausted {
      var last := trace[|trace| - 1];
      GivenUpShowNoText(trace, counts);
      ErrorShape(last);
      ShortTail(ErrorShown(last));
      TextAppend(HeadsOf(trace), ErrorShown(last));
      assert last in trace;
      GivenUpShows(last, counts);
      assert out[|out| - 1] == ErrorShown(last)[0] && ErrorShown(last)[0] in ErrorShown(last);
    } else {
      var n := |trace| - 1;
      TextFromLastTry(trace[..n], trace[n], counts);
      CancelledShowsNoFinal(trace[n]);
      LastText(trace[n]);
      assert out[|out| - 1] == Last(trace[n])[|Last(trace[n])| - 1];
    }
  }

  lemma ErrorShape(t: Try)
    ensures |ErrorShown(t)| <= 1 && forall e :: e in ErrorShown(t) ==> e.Failure?
  {
  }

  lemma GivenUpShows(t: Try, counts: ErrorData -> bool)
    requires GivenUp(t, counts)
    ensures |ErrorShown(t)| == 1
  {
  }

  lemma CancelledShowsNoFinal(t: Try)
    ensures WasCancelled(t) ==> var r := Last(t); |r| > 0 && !r[|r| - 1].Final()
  {
    hide HasText, TextIn;
    HeadText(t);
  }

  // ----- what the events of a try mean -----

  /** The text of a run of events, event by event: the delta if there is any, else the text field. */
  lemma {:induction false} TextSpelled(events: seq<ChatEvent>, texts: seq<string>)
    requires |texts| == |events|
    requires forall i :: 0 <= i < |events| ==>
      texts[i] == match events[i]
                  case TextDelta(Some(delta), Some(text)) => if delta != "" then delta else text
                  case TextDelta(Some(delta), None) => delta
                  case TextDelta(None, Some(text)) => text
                  case _ => ""
    ensures TextIn(events) == Concat(texts)
  {
    if |events| > 0 {
      hide Concat;
      var n := |events| - 1;
      TextSpelled(events[..n], texts[..n]);
      ConcatOne(texts[..n], texts[n]);
      assert texts == texts[..n] + [texts[n]];
    }
  }

  lemma NoTextWhen(events: seq<ChatEvent>)
    ensures !HasText(events) <==>
      forall i :: 0 <= i < |events| && events[i].TextDelta? ==>
        events[i].text.None? && (events[i].delta.None? || events[i].delta.value == "")
  {
    assert forall i :: 0 <= i < |events| ==> events[i] in events;
  }

  /** The first done or error of a try decides what it shows and what it counts as. */
  lemma TryMeaning(t: Try, counts: ErrorData -> bool, j: nat)
    requires j <= |t.turn.events| && forall i :: 0 <= i < j ==> !t.turn.events[i].Done? && !t.turn.events[i].Failure?
    requires j < |t.turn.events| ==> t.turn.events[j].Done? || t.turn.events[j].Failure?
    ensures FinalAt(t.turn.events) == j
    ensures GivenUp(t, counts) <==>
      && t.pooled && t.turn.started && j < |t.turn.events|
      && t.turn.events[j].Failure? && counts(t.turn.events[j].error)
      && forall i :: 0 <= i < j && t.turn.events[i].TextDelta? ==>
           t.turn.events[i].text.None? && (t.turn.events[i].delta.None? || t.turn.events[i].delta.value == "")
    ensures Completed(t) <==> t.turn.started && j < |t.turn.events| && t.turn.events[j].Done?
    ensures WasCancelled(t) <==> t.turn.end.Cancelled? && (t.turn.started ==> j == |t.turn.events|)
    ensures GivenUp(t, counts) ==>
      && ErrorShown(t) == [t.turn.events[j]]
      && Head(t) == [Busy, RuntimeState(t.config, t.pooled)] + t.turn.events[..j]
    ensures var broken := if t.turn.end.Raised? then [Failure(t.turn.end.error)] else [];
      Last(t) ==
        if !t.turn.started then [Busy] + broken
        else [Busy, RuntimeState(t.config, t.pooled)] + t.turn.events[..j] +
             if j < |t.turn.events| then [t.turn.events[j]] else broken
  {
    FinalAtIs(t.turn.events, j);
    hide HasText;
    NoTextWhen(t.turn.events[..j]);
  }

  /** What a turn saves, in terms of the text its last try streamed. */
  lemma SavedText(trace: seq<Try>, out: seq<ChatEvent>, saved: Saved, repo: Repo, counts: ErrorData -> bool,
                  exhausted: bool, j: nat, texts: seq<string>)
    requires TurnReport(trace, out, saved, repo, counts, exhausted)
    requires trace != [] && !exhausted && trace[|trace| - 1].turn.started
    requires var events := trace[|trace| - 1].turn.events;
      && j == |texts| <= |events|
      && (forall i :: 0 <= i < j ==> !events[i].Done? && !events[i].Failure?)
      && (j < |events| ==> events[j].Done? || events[j].Failure?)
    requires forall i :: 0 <= i < j ==>
      texts[i] == match trace[|trace| - 1].turn.events[i]
                  case TextDelta(Some(delta), Some(text)) => if delta != "" then delta else text
                  case TextDelta(Some(delta), None) => delta
                  case TextDelta(None, Some(text)) => text
                  case _ => ""
    ensures var last, text := trace[|trace| - 1].turn, Strip(Concat(texts));
      && TextIn(out) == Concat(texts)
      && saved == if j < |last.events| then
                    if last.events[j].Done? && text != "" then Answer(text) else Nothing
                  else if last.end.Cancelled? then Stopped(text)
                  else Nothing
  {
    hide HeadsOf, Head, Last, TextIn, HasText, GivenUp, FinalAt, ErrorShown, Strip, Completed, WasCancelled;
    var n := |trace| - 1;
    var t := trace[n];
    TryMeaning(t, counts, j);
    TextSpelled(t.turn.events[..j], texts);
    TextFromLastTry(trace[..n], t, counts);
  }

  // ----- which configurations are tried -----

  ghost function TriedConfigs(trace: seq<Try>): set<ConfigId>
  {
    set t | t in trace :: t.config
  }

  function ConfigsOf(trace: seq<Try>): seq<ConfigId>
  {
    Mapped(trace, (t: Try) => t.config)
  }

  lemma DistinctConfigsCount(trace: seq<Try>)
    requires Distinct(ConfigsOf(trace))
    ensures |TriedConfigs(trace)| == |trace|
  {
    hide Distinct;
    var configs := ConfigsOf(trace);
    DistinctSize(configs);
    forall c ensures c in TriedConfigs(trace) <==> c in Elements(configs)
    {
      if c in TriedConfigs(trace) {
        var i :| 0 <= i < |trace| && trace[i].config == c;
        assert configs[i] == c;
      }
      if c in Elements(configs) {
        var i :| 0 <= i < |configs| && configs[i] == c;
        assert trace[i] in trace;
      }
    }
    assert TriedConfigs(trace) == Elements(configs);
  }

  function MarkOfTry(t: Try, counts: ErrorData -> bool): seq<Mark>
  {
    if GivenUp(t, counts) then [Mark(t.config, true)]
    else if t.pooled && Completed(t) then [Mark(t.config, false)]
    else []
  }

  function MarksOfTries(trace: seq<Try>, counts: ErrorData -> bool): seq<Mark>
  {
    if trace == [] then [] else MarksOfTries(trace[..|trace| - 1], counts) + MarkOfTry(trace[|trace| - 1], counts)
  }

  /** What is saved, given everything that was forwarded. */
  function SavedFrom(last: Try, out: seq<ChatEvent>): Saved
  {
    if Completed(last) then
      var content := Strip(TextIn(out));
      if content == "" then Nothing else Answer(content)
    else if WasCancelled(last) then Stopped(Strip(TextIn(out)))
    else Nothing
  }

  // ----- the loops -----

  /** Forward events up to the first final one, collecting text. */
  method ForwardTurn(events: seq<ChatEvent>) returns (j: nat, chunks: string, emittedText: bool)
    ensures j == FinalAt(events) && chunks == TextIn(events[..j])
    ensures emittedText <==> HasText(events[..j])
  {
    j, chunks, emittedText := 0, "", false;
    while j < |events| && !events[j].Final()
      invariant j <= |events| && forall i :: 0 <= i < j ==> !events[i].Final()
      invariant chunks == TextIn(events[..j])
      invariant emittedText <==> HasText(events[..j])
    {
      var t := TextOf(events[j]);
      assert events[..j + 1] == events[..j] + [events[j]];
      assert events[..j + 1][..j] == events[..j];
      if t.Some? {
        chunks := chunks + t.value;
        emittedText := true;
      } else {
        assert chunks + "" == chunks;
      }
      j := j + 1;
    }
    FinalAtIs(events, j);
  }

  lemma {:induction false} FinalAtIs(events: seq<ChatEvent>, j: nat)
    requires j <= |events| && forall i :: 0 <= i < j ==> !events[i].Final()
    requires j < |events| ==> events[j].Final()
    ensures FinalAt(events) == j
  {
    if events != [] && j > 0 {
      FinalAtIs(events[1..], j - 1);
    }
  }

  /** Exactly what a finished run forwarded and saved, and why it ended. */
  ghost predicate TurnReport(trace: seq<Try>, out: seq<ChatEvent>, saved: Saved, repo: Repo,
                             counts: ErrorData -> bool, exhausted: bool)
  {
    && (trace == [] ==> |out| == 1 && out[0].Failure? && saved == Nothing)
    && (trace != [] && exhausted ==>
          && AllGivenUp(trace, counts)
          && out == HeadsOf(trace) + ErrorShown(trace[|trace| - 1])
          && saved == Nothing && PoolOf(repo) <= TriedConfigs(trace))
    && (trace != [] && !exhausted ==>
          var n := |trace| - 1;
          && AllGivenUp(trace[..n], counts) && !GivenUp(trace[n], counts)
          && out == HeadsOf(trace[..n]) + Last(trace[n])
          && saved == SavedFrom(trace[n], out))
  }

  ghost predicate TriesOk(trace: seq<Try>, repo: Repo, counts: ErrorData -> bool)
  {
    && AllGivenUp(trace, counts) && Distinct(ConfigsOf(trace))
    && (forall t :: t in trace ==> t.config in repo.globals)
  }

  /** One try on the selected configuration. Only an error before any text can move on to the next one.
      Other requests use the window while the try runs. */
  method RunTry(gateway: LLMGateway, req: Request, selection: Selection, turn: Turn, meanwhile: seq<Op>,
                ghost log0: seq<Event>, ghost account: Account)
    returns (shown: seq<ChatEvent>, chunks: string, retry: bool, error: Option<ChatEvent>, ghost account': Account)
    requires gateway.Valid() && Grew(log0, gateway.usage.log, account)
    modifies gateway.usage
    ensures gateway.Valid() && old(gateway.usage.log) <= gateway.usage.log
    ensures Grew(log0, gateway.usage.log, account')
    ensures var t := Try(selection.config, selection.pooled, turn);
      && (retry <==> GivenUp(t, gateway.countsAgainstHealth))
      && (retry ==> error.Some? && [error.value] == ErrorShown(t))
      && shown == (if retry then Head(t) else Last(t))
      && chunks == (if turn.started then TextIn(turn.events[..FinalAt(turn.events)]) else "")
      && Marks(account'.own) == Marks(account.own) + MarkOfTry(t, gateway.countsAgainstHealth)
    ensures Acts(account'.foreign) == Acts(account.foreign) + Effects(meanwhile)
    // a try that moves on makes the session let go of its configuration; any other leaves it there
    ensures retry ==> !SticksTo(gateway.usage.log, req.session, selection.config)
    ensures !retry && Avoids(meanwhile, req.session) && old(SticksTo(gateway.usage.log, req.session, selection.config))
      ==> SticksTo(gateway.usage.log, req.session, selection.config)
  {
    hide Marks, HasText, TextIn, SticksTo, Grew, Acts, Effects, Avoids;
    account' := gateway.Interfere(meanwhile, req.session, log0, account);
    ghost var t := Try(selection.config, selection.pooled, turn);
    shown, chunks, retry, error := [Busy], "", false, None;
    if !turn.started {
      shown := shown + EndEvents(turn.end);
      return;
    }
    shown := shown + [RuntimeState(selection.config, selection.pooled)];
    var j, text, emittedText := ForwardTurn(turn.events);
    chunks, shown := text, shown + turn.events[..j];
    assert shown == Head(t);
    if j == |turn.events| {
      shown := shown + EndEvents(turn.end);
      return;
    }
    var event := turn.events[j];
    if event.Done? {
      ghost var log := gateway.usage.log;
      gateway.RecordRuntimeConfigSuccess(selection);
      FailureKeepsSticky(log, Succeeded(selection.config), req.session, selection.config);
      assert log + [] == log;
      if selection.pooled {
        OneMark(account'.own, Succeeded(selection.config));
        OwnMore(log0, log, account', [Succeeded(selection.config)]);
        account' := Account(account'.own + [Succeeded(selection.config)], account'.foreign);
      }
    } else if !emittedText && selection.pooled && gateway.countsAgainstHealth(event.error) {
      ghost var log := gateway.usage.log;
      var counted := gateway.RecordRuntimeConfigFailure(selection, event.error, req.session);
      ghost var blame := Blame(selection.config, gateway.usage.clock, req.session);
      BlameMarks(selection.config, gateway.usage.clock, req.session);
      MarksAppend(account'.own, blame);
      OwnMore(log0, log, account', blame);
      account' := Account(account'.own + blame, account'.foreign);
      retry, error := true, Some(event);
      return;
    }
    shown := shown + [event];
  }

  lemma EndReport(given: seq<Try>, t: Try, repo: Repo, counts: ErrorData -> bool)
    requires TriesOk(given, repo, counts) && !GivenUp(t, counts)
    ensures var out := HeadsOf(given) + Last(t);
      TurnReport(given + [t], out, SavedFrom(t, out), repo, counts, false)
  {
    var trace := given + [t];
    assert trace[..|trace| - 1] == given && trace[|trace| - 1] == t;
  }

  lemma ExhaustedReport(trace: seq<Try>, repo: Repo, counts: ErrorData -> bool)
    requires trace != [] && TriesOk(trace, repo, counts) && PoolOf(repo) <= TriedConfigs(trace)
    ensures TurnReport(trace, HeadsOf(trace) + ErrorShown(trace[|trace| - 1]), Nothing, repo, counts, true)
  {
  }

  /** One more pooled try on a configuration not tried before: still within the pool, all different. */
  lemma OneMoreTry(trace: seq<Try>, t: Try, repo: Repo, counts: ErrorData -> bool)
    requires TriesOk(trace, repo, counts) && t.config in repo.globals && t.config !in TriedConfigs(trace)
    ensures Distinct(ConfigsOf(trace + [t])) && |trace| + 1 <= |PoolOf(repo)|
    ensures GivenUp(t, counts) ==> TriesOk(trace + [t], repo, counts)
    ensures TriedConfigs(trace + [t]) == TriedConfigs(trace) + {t.config}
  {
    var trace' := trace + [t];
    assert trace'[..|trace|] == trace && forall x :: x in trace' <==> x in trace || x == t;
    hide GivenUp, Head, HeadsOf, Distinct;
    assert TriedConfigs(trace') == TriedConfigs(trace) + {t.config};
    StaysDistinct(trace, t);
    DistinctConfigsCount(trace');
    SubsetSize(TriedConfigs(trace'), PoolOf(repo));
  }

  lemma StaysDistinct(trace: seq<Try>, t: Try)
    requires Distinct(ConfigsOf(trace)) && t.config !in TriedConfigs(trace)
    ensures Distinct(ConfigsOf(trace + [t]))
  {
    assert forall i :: 0 <= i < |trace| ==> trace[i] in trace && (trace + [t])[i] == trace[i];
    assert forall i :: 0 <= i < |trace| ==> ConfigsOf(trace + [t])[i] == ConfigsOf(trace)[i];
  }

  lemma MarksOfTriesStep(trace: seq<Try>, t: Try, counts: ErrorData -> bool)
    ensures MarksOfTries(trace + [t], counts) == MarksOfTries(trace, counts) + MarkOfTry(t, counts)
  {
    assert (trace + [t])[..|trace|] == trace;
  }

  lemma NothingEligible(repo: Repo, excluded: set<ConfigId>)
    requires forall c :: !Eligible(repo, excluded, c)
    ensures PoolOf(repo) <= excluded
  {
    forall c | c in PoolOf(repo) ensures c in excluded
    {
      assert !Eligible(repo, excluded, c);
    }
  }

  lemma PooledIsNew(repo: Repo, excluded: set<ConfigId>, c: ConfigId)
    requires Eligible(repo, excluded, c)
    ensures c in repo.globals && c !in excluded
  {
  }

  lemma RefusedReport(error: ErrorData, repo: Repo, counts: ErrorData -> bool)
    ensures TurnReport([], [Failure(error)], Nothing, repo, counts, false)
  {
  }

  lemma HeadsOfStep(trace: seq<Try>, t: Try)
    ensures HeadsOf(trace + [t]) == HeadsOf(trace) + Head(t)
  {
    assert (trace + [t])[..|trace|] == trace;
  }

  ghost predicate FromBackend(trace: seq<Try>, backend: (nat, ConfigId) -> Turn)
  {
    forall i :: 0 <= i < |trace| ==> trace[i].turn == backend(i, trace[i].config)
  }

  /** A turn in progress: every try so far was given up, on a different pooled configuration. */
  ghost predicate TurnRunning(trace: seq<Try>, out: seq<ChatEvent>, excluded: set<ConfigId>,
                              lastError: Option<ChatEvent>, req: Request, repo: Repo,
                              counts: ErrorData -> bool, backend: (nat, ConfigId) -> Turn)
  {
    && TriesOk(trace, repo, counts) && excluded == TriedConfigs(trace)
    && |trace| <= |PoolOf(repo)|
    && (trace != [] ==> req.runtime.NoRuntime? && UserConfigs(repo, req.subject) == [])
    && out == HeadsOf(trace) && FromBackend(trace, backend)
    && (if trace == [] then lastError.None?
        else lastError.Some? && [lastError.value] == ErrorShown(trace[|trace| - 1]))
  }

  /** A finished turn. */
  ghost predicate TurnDone(trace: seq<Try>, out: seq<ChatEvent>, saved: Saved, exhausted: bool, repo: Repo,
                           counts: ErrorData -> bool, backend: (nat, ConfigId) -> Turn)
  {
    && TurnReport(trace, out, saved, repo, counts, exhausted) && FromBackend(trace, backend)
    && (|trace| <= 1 || |trace| <= |PoolOf(repo)|)
    && (trace != [] && trace[0].pooled ==> Distinct(ConfigsOf(trace)))
  }

  /** No configuration is left: the error of the last try is shown, or why none could be had at all. */
  lemma TurnRefused(trace: seq<Try>, out: seq<ChatEvent>, excluded: set<ConfigId>, lastError: Option<ChatEvent>,
                    req: Request, repo: Repo, counts: ErrorData -> bool, backend: (nat, ConfigId) -> Turn,
                    error: ErrorData)
    requires TurnRunning(trace, out, excluded, lastError, req, repo, counts, backend)
    requires trace != [] ==> forall c :: !Eligible(repo, excluded, c)
    ensures TurnDone(trace, out + [if lastError.Some? then lastError.value else Failure(error)], Nothing,
                     trace != [], repo, counts, backend)
  {
    if trace != [] {
      NothingEligible(repo, excluded);
      ExhaustedReport(trace, repo, counts);
      hide TurnReport, HeadsOf, TriedConfigs;
    } else {
      RefusedReport(error, repo, counts);
      assert HeadsOf([]) == [];
    }
  }

  /** One more try: the turn goes on if the try is given up, and is done otherwise. */
  lemma TurnStep(trace: seq<Try>, out: seq<ChatEvent>, excluded: set<ConfigId>, lastError: Option<ChatEvent>,
                 req: Request, repo: Repo, counts: ErrorData -> bool, backend: (nat, ConfigId) -> Turn, t: Try)
    requires TurnRunning(trace, out, excluded, lastError, req, repo, counts, backend)
    requires t.turn == backend(|trace|, t.config)
    requires t.pooled ==>
      req.runtime.NoRuntime? && UserConfigs(repo, req.subject) == [] && Eligible(repo, excluded, t.config)
    requires trace != [] ==> t.pooled
    ensures if GivenUp(t, counts)
      then forall e :: [e] == ErrorShown(t) ==>
        TurnRunning(trace + [t], out + Head(t), excluded + {t.config}, Some(e), req, repo, counts, backend)
      else TurnDone(trace + [t], out + Last(t), SavedFrom(t, out + Last(t)), false, repo, counts, backend)
  {
    var trace' := trace + [t];
    assert trace'[|trace|] == t && FromBackend(trace', backend);
    OnlyPooled(t, counts);
    hide GivenUp, FromBackend, HeadsOf, Head, Last, TriesOk, TurnReport, TriedConfigs, SavedFrom, ErrorShown, Distinct;
    HeadsOfStep(trace, t);
    if t.pooled {
      PooledIsNew(repo, excluded, t.config);
      OneMoreTry(trace, t, repo, counts);
    }
    if !GivenUp(t, counts) {
      EndReport(trace, t, repo, counts);
    }
  }

  lemma OnlyPooled(t: Try, counts: ErrorData -> bool)
    ensures GivenUp(t, counts) ==> t.pooled
  {
  }

  lemma MeasureShrinks(trace: seq<Try>, out: seq<ChatEvent>, excluded: set<ConfigId>, lastError: Option<ChatEvent>,
                       req: Request, repo: Repo, counts: ErrorData -> bool, backend: (nat, ConfigId) -> Turn)
    requires TurnRunning(trace, out, excluded, lastError, req, repo, counts, backend)
    ensures |trace| <= |PoolOf(repo)|
  {
  }

  /** Select the next try's configuration, after other requests have used the window. */
  method NextSelection(gateway: LLMGateway, req: Request, excluded: set<ConfigId>, repo: Repo, before: seq<Op>,
                       ghost log0: seq<Event>, ghost account: Account)
    returns (r: RuntimeSelection, ghost account': Account, ghost pick: Pick)
    requires gateway.Valid() && Distinct(repo.globals) && Grew(log0, gateway.usage.log, account)
    modifies gateway.usage
    ensures gateway.Valid() && old(gateway.usage.log) <= pick.log <= gateway.usage.log
    ensures Grew(log0, gateway.usage.log, account') && Marks(account'.own) == Marks(account.own)
    ensures Acts(account'.foreign) == Acts(account.foreign) + Effects(before)
    ensures if req.runtime.Invalid? then r == Refused(req.runtime.data)
            else if r.Refused? then r.error == RESOURCE_BUSY && RightChoice(req, repo, excluded, None)
            else RightChoice(req, repo, excluded, Some(r.selection))
    ensures r.Chosen? && r.selection.pooled ==>
      && req.runtime.NoRuntime? && UserConfigs(repo, req.subject) == [] && Eligible(repo, excluded, r.selection.config)
      && WellPicked(gateway.usage.st, repo, req.session, excluded, pick, r.selection.config)
      && (Named(req.session) ==> SticksTo(gateway.usage.log, req.session, r.selection.config))
    ensures r.Refused? && Avoids(before, req.session) ==>
      forall c :: SticksTo(gateway.usage.log, req.session, c) ==> old(SticksTo(gateway.usage.log, req.session, c))
  {
    hide WellPicked, SticksTo, Grew, Acts, Effects, Avoids, RightChoice, Marks;
    account' := gateway.Interfere(before, req.session, log0, account);
    ghost var log := gateway.usage.log;
    ghost var own;
    r, own, pick := gateway.SelectRuntimeConfig(req, excluded, repo);
    OwnMore(log0, log, account', own);
    MarksAppend(account'.own, own);
    account' := Account(account'.own + own, account'.foreign);
  }

  /** Stream one turn. `backend` gives what the n-th try would produce on a configuration. The pool does not
      change during the turn; each retry leaves fewer configurations to try. Other requests share the gateway:
      `others` says what they do on the window before the n-th selection and while the n-th try runs. */
  method StreamTurn(gateway: LLMGateway, req: Request, repo: Repo, backend: (nat, ConfigId) -> Turn,
                    others: nat -> seq<Op>)
    returns (out: seq<ChatEvent>, saved: Saved, ghost trace: seq<Try>, ghost exhausted: bool, ghost account: Account,
             ghost picks: seq<Pick>)
    requires gateway.Valid() && Distinct(repo.globals) && req.configId.None?
    modifies gateway.usage
    ensures gateway.Valid()
    ensures TurnDone(trace, out, saved, exhausted, repo, gateway.countsAgainstHealth, backend)
    // accounting: the log holds the others' events and the turn's own, and these mark exactly its tries
    ensures Grew(old(gateway.usage.log), gateway.usage.log, account)
    ensures Acts(account.foreign) == Effects(UpTo(others, Points(trace, trace == [] || exhausted)))
    ensures Marks(account.own) == MarksOfTries(trace, gateway.countsAgainstHealth)
    // every try is on a configuration that may be had at that point, and a pooled one is a good choice
    ensures ChosenRightly(trace, req, repo)
    ensures TriesPicked(picks, trace, gateway.usage.st, repo, req.session)
    ensures LogsWithin(picks, old(gateway.usage.log), gateway.usage.log)
    ensures trace == [] ==> NoneToBeHad(out, req, repo)
    // the session is on the configuration that served the turn, and off the last one when all failed
    ensures AloneWith(others, req.session) && trace != [] && trace[|trace| - 1].pooled && Named(req.session) ==>
      (SticksTo(gateway.usage.log, req.session, trace[|trace| - 1].config) <==> !exhausted)
  {
    hide ChosenRightly, RightChoice, TriedConfigs, GoodChoice, SticksTo, Named;
    hide TurnRunning, TurnDone, Marks, MarksOfTries, MarkOfTry, Head, Last, GivenUp, ErrorShown, SavedFrom, Completed,
         Eligible, TextIn, Grew, Acts, Effects, AloneWith, Avoids, TriesPicked, WellPicked, LogsWithin, UpTo,
         UserConfigs, PoolOf, Distinct, gateway.Valid;
    ghost var counts := gateway.countsAgainstHealth;
    out, saved, trace, exhausted, account, picks := [], Nothing, [], false, EMPTY, [];
    var excluded: set<ConfigId> := {};
    var lastError: Option<ChatEvent> := None;
    var tries, going := 0, true;
    ghost var log0 := gateway.usage.log;
    GrewNothing(log0);
    NoPoints(others);
    NothingMarked();
    TurnStarts(req, repo, counts, backend);
    NothingPicked(gateway.usage.st, repo, req.session, log0);
    while going
      invariant gateway.Valid() && log0 <= gateway.usage.log
      invariant if going then
                  && tries == |trace| <= |PoolOf(repo)|
                  && TurnRunning(trace, out, excluded, lastError, req, repo, counts, backend)
                  && (trace != [] ==> req.runtime.NoRuntime? && UserConfigs(repo, req.subject) == [])
                else TurnDone(trace, out, saved, exhausted, repo, counts, backend)
      invariant Grew(log0, gateway.usage.log, account) && Marks(account.own) == MarksOfTries(trace, counts)
      invariant Acts(account.foreign) == Effects(UpTo(others, Points(trace, !going && (trace == [] || exhausted))))
      invariant ChosenRightly(trace, req, repo) && TriesPicked(picks, trace, gateway.usage.st, repo, req.session)
      invariant LogsWithin(picks, log0, gateway.usage.log)
      invariant AloneWith(others, req.session) && trace != [] && (going || exhausted) ==>
        !SticksTo(gateway.usage.log, req.session, trace[|trace| - 1].config)
      invariant AloneWith(others, req.session) && trace != [] && !going && !exhausted && trace[|trace| - 1].pooled &&
                Named(req.session) ==>
        SticksTo(gateway.usage.log, req.session, trace[|trace| - 1].config)
      invariant !going && trace == [] ==> NoneToBeHad(out, req, repo)
      decreases going, |PoolOf(repo)| - |trace|
    {
      AloneAt(others, req.session, 2 * tries);
      TryPoints(others, tries);
      ghost var log1 := gateway.usage.log;
      var choice;
      ghost var pick;
      choice, account, pick := NextSelection(gateway, req, excluded, repo, others(2 * tries), log0, account);
      TriedSoFar(trace, out, excluded, lastError, req, repo, counts, backend);
      if trace != [] {
        FromPool(req, repo, excluded, if choice.Refused? then None else Some(choice.selection));
      }
      if choice.Refused? {
        TurnRefused(trace, out, excluded, lastError, req, repo, counts, backend, choice.error);
        out := out + [if lastError.Some? then lastError.value else Failure(choice.error)];
        saved, exhausted, going := Nothing, trace != [], false;
        LogsMore(picks, pick, false, log0, log1, gateway.usage.log);
        assert picks + [] == picks;
      } else {
        var selection := choice.selection;
        var t := Try(selection.config, selection.pooled, backend(tries, selection.config));
        var shown, chunks, retry, error;
        shown, chunks, retry, error, account :=
          RunTry(gateway, req, selection, t.turn, others(2 * tries + 1), log0, account);
        MarksOfTriesStep(trace, t, counts);
        ChosenMore(trace, t, req, repo);
        TriesPickedMore(picks, trace, gateway.usage.st, repo, req.session, pick, t);
        LogsMore(picks, pick, true, log0, log1, gateway.usage.log);
        TurnStep(trace, out, excluded, lastError, req, repo, counts, backend, t);
        if !retry {
          TextSoFar(trace, out, excluded, lastError, req, repo, counts, backend, t);
        }
        out, trace, tries, picks := out + shown, trace + [t], tries + 1, picks + [pick];
        if retry {
          lastError, excluded := error, excluded + {selection.config};
          MeasureShrinks(trace, out, excluded, lastError, req, repo, counts, backend);
          OnlyPooled(t, counts);
        } else {
          saved := SavedContent(out, chunks, t);
          exhausted, going := false, false;
        }
      }
    }
  }

  /** How many points of the others' schedule have passed: two for each try, and one for a refused selection. */
  function Points(trace: seq<Try>, refused: bool): nat
  {
    2 * |trace| + if refused then 1 else 0
  }

  lemma NoPoints(others: nat -> seq<Op>)
    ensures Acts([]) == Effects(UpTo(others, Points([], false)))
  {
    NothingDone();
  }

  lemma TryPoints(others: nat -> seq<Op>, n: nat)
    ensures Effects(UpTo(others, 2 * n + 1)) == Effects(UpTo(others, 2 * n)) + Effects(others(2 * n))
    ensures Effects(UpTo(others, 2 * (n + 1))) ==
      Effects(UpTo(others, 2 * n)) + Effects(others(2 * n)) + Effects(others(2 * n + 1))
  {
    EffectsUpTo(others, 2 * n);
    EffectsUpTo(others, 2 * n + 1);
  }

  /** Every pooled try was a good choice, given the log before its selection and the earlier tries excluded. */
  ghost predicate TriesPicked(picks: seq<Pick>, trace: seq<Try>, st: Settings, repo: Repo, session: Option<SessionId>)
  {
    && |picks| == |trace|
    && forall i :: 0 <= i < |trace| && trace[i].pooled ==>
         WellPicked(st, repo, session, TriedConfigs(trace[..i]), picks[i], trace[i].config)
  }

  lemma NothingPicked(st: Settings, repo: Repo, session: Option<SessionId>, log: seq<Event>)
    ensures TriesPicked([], [], st, repo, session) && LogsWithin([], log, log)
  {
  }

  lemma TriesPickedMore(picks: seq<Pick>, trace: seq<Try>, st: Settings, repo: Repo, session: Option<SessionId>,
                        pick: Pick, t: Try)
    requires TriesPicked(picks, trace, st, repo, session)
    requires t.pooled ==> WellPicked(st, repo, session, TriedConfigs(trace), pick, t.config)
    ensures TriesPicked(picks + [pick], trace + [t], st, repo, session)
  {
    hide WellPicked, TriedConfigs;
    assert (trace + [t])[..|trace|] == trace;
    assert forall i :: 0 <= i < |trace| ==> (trace + [t])[..i] == trace[..i];
  }

  /** Nothing was tried, and one error says why. */
  ghost predicate NoneToBeHad(out: seq<ChatEvent>, req: Request, repo: Repo)
  {
    && out == [Failure(if req.runtime.Invalid? then req.runtime.data else RESOURCE_BUSY)]
    && (req.runtime.Invalid? || RightChoice(req, repo, {}, None))
  }

  /** Each try's configuration is a right choice when those of the earlier tries are excluded. */
  ghost predicate ChosenRightly(trace: seq<Try>, req: Request, repo: Repo)
  {
    forall i :: 0 <= i < |trace| ==>
      RightChoice(req, repo, TriedConfigs(trace[..i]), Some(Selection(trace[i].config, trace[i].pooled)))
  }

  lemma ChosenMore(trace: seq<Try>, t: Try, req: Request, repo: Repo)
    requires ChosenRightly(trace, req, repo)
    requires RightChoice(req, repo, TriedConfigs(trace), Some(Selection(t.config, t.pooled)))
    ensures ChosenRightly(trace + [t], req, repo)
  {
    hide RightChoice, TriedConfigs;
    assert (trace + [t])[..|trace|] == trace;
    assert forall i :: 0 <= i < |trace| ==> (trace + [t])[..i] == trace[..i];
  }

  lemma FromPool(req: Request, repo: Repo, excluded: set<ConfigId>, selected: Option<Selection>)
    requires RightChoice(req, repo, excluded, selected)
    requires req.runtime.NoRuntime? && req.configId.None? && UserConfigs(repo, req.subject) == []
    ensures if selected.None? then forall c :: !Eligible(repo, excluded, c) else selected.value.pooled
  {
  }

  lemma TriedSoFar(trace: seq<Try>, out: seq<ChatEvent>, excluded: set<ConfigId>, lastError: Option<ChatEvent>,
                   req: Request, repo: Repo, counts: ErrorData -> bool, backend: (nat, ConfigId) -> Turn)
    requires TurnRunning(trace, out, excluded, lastError, req, repo, counts, backend)
    ensures excluded == TriedConfigs(trace)
    ensures trace == [] ==> excluded == {} && out == [] && lastError.None?
  {
  }

  lemma TurnStarts(req: Request, repo: Repo, counts: ErrorData -> bool, backend: (nat, ConfigId) -> Turn)
    ensures TurnRunning([], [], {}, None, req, repo, counts, backend) && MarksOfTries([], counts) == []
    ensures ChosenRightly([], req, repo)
  {
  }

  /** What the try collected is the text forwarded over the whole turn. */
  lemma TextSoFar(trace: seq<Try>, out: seq<ChatEvent>, excluded: set<ConfigId>, lastError: Option<ChatEvent>,
                  req: Request, repo: Repo, counts: ErrorData -> bool, backend: (nat, ConfigId) -> Turn, t: Try)
    requires TurnRunning(trace, out, excluded, lastError, req, repo, counts, backend)
    ensures var all := out + Last(t);
      && all != [] && (Completed(t) <==> all[|all| - 1].Done?)
      && TextIn(all) == if t.turn.started then TextIn(t.turn.events[..FinalAt(t.turn.events)]) else ""
  {
    TextFromLastTry(trace, t, counts);
    LastText(t);
  }

  /** A done saves the stripped text if there is any; a cancelled turn saves what there was. */
  method SavedContent(out: seq<ChatEvent>, chunks: string, t: Try) returns (saved: Saved)
    requires out != [] && chunks == TextIn(out) && (Completed(t) <==> out[|out| - 1].Done?)
    ensures saved == SavedFrom(t, out)
  {
    var content := Strip(chunks);
    if out[|out| - 1].Done? {
      return if content == "" then Nothing else Answer(content);
    }
    return if WasCancelled(t) then Stopped(content) else Nothing;
  }
}
