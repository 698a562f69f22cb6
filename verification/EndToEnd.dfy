/**
  The gateway on top of the model client: what a consumer of the gateway receives when every
  attempt's stream is the client's rendering of a provider stream.
 */
module EndToEnd {
  import opened Text
  import opened UsageWindow
  import opened LlmTypes
  import opened Others
  import opened Delivery
  import opened Gateway
  import C = LlmClient
  import F = ThinkFilter

  /** A provider stream and what the client made of it. */
  datatype Reply = Reply(stream: seq<C.Chunk>, failure: Option<ErrorData>, out: seq<LlmEvent>, core: seq<LlmEvent>,
                         consumed: nat, ending: C.Ending)

  ghost predicate Rendered(lower: char -> char, r: Reply)
  {
    C.Produced(lower, r.stream, r.failure, r.out, r.core, r.consumed, r.ending)
  }

  /** Every provider stream, failing or not, has a rendering. */
  method Render(lower: char -> char, stream: seq<C.Chunk>, failure: Option<ErrorData>) returns (r: Reply)
    ensures r.stream == stream && r.failure == failure && Rendered(lower, r)
  {
    hide C.Produced;
    var out, core, consumed, ending := C.StreamEvents(lower, stream, failure);
    r := Reply(stream, failure, out, core, consumed, ending);
  }

  /** The chunks a reply was made from. */
  function Chunks(r: Reply): seq<C.Chunk>
  {
    if r.consumed <= |r.stream| then r.stream[..r.consumed] else []
  }

  /** The events between the core of a finished reply and its usage: the dones and the stop. */
  function Finish(r: Reply): seq<LlmEvent>
  {
    var chunks := Chunks(r);
    if |chunks| > 0 && C.Closing(chunks[|chunks| - 1]) then
      C.Dones(C.FirstSeen(C.FragmentsOf(chunks)), C.FragmentsOf(chunks)) +
      [MessageStop(C.StopReason(chunks[|chunks| - 1].finish.value))]
    else []
  }

  function Figures(r: Reply): seq<LlmEvent>
  {
    if |Chunks(r)| > 0 then C.UsageEvents(Chunks(r)[|Chunks(r)| - 1].usage) else []
  }

  /** A reply that got to its finish: its core tells the whole content, reasoning and tool calls of its chunks. */
  ghost predicate Whole(lower: char -> char, r: Reply)
  {
    var chunks := Chunks(r);
    && r.ending.Finished? && C.Grammatical(r.core)
    && C.EventsOk(C.FragmentsOf(chunks), r.core)
    && C.Visible(r.core) == F.Scan(lower, C.ContentOf(chunks), false)
    && C.Reasoned(r.core) == C.ReasoningOf(chunks)
  }

  lemma CoreIsQuiet(core: seq<LlmEvent>)
    requires C.Grammatical(core)
    ensures forall i :: 0 <= i < |core| ==> !core[i].Terminal() && !core[i].Usage?
    ensures forall i :: 0 <= i < |core| ==> (core[i].IsStart() <==> i == 0)
  {
    hide C.Started;
  }

  lemma EmptyIsGrammatical()
    ensures C.Grammatical([])
  {
  }

  /** The three shapes a reply can have. */
  lemma Shapes(lower: char -> char, r: Reply)
    requires Rendered(lower, r)
    ensures C.Grammatical(r.core)
    ensures match r.ending
      case Finished => r.core != [] && Whole(lower, r) && r.out == r.core + Finish(r) + Figures(r)
      case RanOut => r.out == r.core
      case Failed => exists e :: r.out == r.core + [Error(e)]
  {
    hide C.Complete, C.SoFar, C.SoFarBroken, C.Grammatical;
    EmptyIsGrammatical();
    if r.ending.Finished? {
      Completes(lower, r);
    }
  }

  lemma Completes(lower: char -> char, r: Reply)
    requires r.consumed <= |r.stream| && C.Complete(lower, Chunks(r), r.core, r.out) && r.ending.Finished?
    requires C.Grammatical(r.core)
    ensures Whole(lower, r) && r.out == r.core + Finish(r) + Figures(r) && r.core != []
  {
    hide C.Grammatical, C.Visible, C.Reasoned, C.ReasoningOf, C.FragmentsOf, C.ContentOf, F.Scan, C.FirstSeen,
         C.Started, C.DeltasOf, C.ArgumentsOf;
    var chunks := Chunks(r);
    var fs := C.FragmentsOf(chunks);
    Assoc(r.core, C.Dones(C.FirstSeen(fs), fs) + [MessageStop(C.StopReason(chunks[|chunks| - 1].finish.value))],
          C.UsageEvents(chunks[|chunks| - 1].usage));
  }

  lemma FinishShape(r: Reply)
    requires Finish(r) != []
    ensures var n := |Finish(r)| - 1;
      Finish(r)[n].MessageStop? && forall i :: 0 <= i < n ==> Finish(r)[i].ToolCallDone?
  {
    hide C.FirstSeen, C.FragmentsOf, C.NameOf, C.ArgumentsOf;
  }

  lemma FinishedFinishes(lower: char -> char, r: Reply)
    requires Rendered(lower, r) && r.ending.Finished?
    ensures Finish(r) != []
  {
    hide C.EventsOk, C.Visible, C.Reasoned, C.FragmentsOf, C.FirstSeen, C.ContentOf, C.ReasoningOf, F.Scan,
         C.Grammatical;
  }

  /** In what the client sends, usage comes only after a stop. */
  lemma UsageAfterStop(lower: char -> char, r: Reply)
    requires Rendered(lower, r)
    ensures forall i :: 0 <= i < |r.out| && r.out[i].Usage? ==> exists j :: 0 <= j < i && r.out[j].MessageStop?
  {
    hide C.Grammatical, Rendered, Finish, Figures, Whole, Chunks;
    Shapes(lower, r);
    CoreIsQuiet(r.core);
    if r.ending.Finished? {
      FinishedFinishes(lower, r);
      FinishShape(r);
      var n := |r.core| + |Finish(r)| - 1;
      assert r.out[n] == Finish(r)[|Finish(r)| - 1];
      assert forall i :: |r.core| <= i <= n ==> r.out[i] == Finish(r)[i - |r.core|];
      assert forall i :: 0 <= i < |r.core| ==> r.out[i] == r.core[i];
    } else {
      assert forall i :: 0 <= i < |r.core| ==> r.out[i] == r.core[i];
    }
  }

  /** A reply read up to a stop is a finished one, and is read up to just that stop. */
  lemma ReadToStop(lower: char -> char, r: Reply, a: Attempt)
    requires Rendered(lower, r) && a.events == r.out && Completed(a)
    ensures r.ending.Finished? && r.core != [] && Whole(lower, r)
    ensures Cut(r.out) == r.core + Finish(r) && Finish(r) != []
  {
    hide C.Grammatical, Rendered, Finish, Figures, Whole, Chunks, Cut;
    Shapes(lower, r);
    CoreIsQuiet(r.core);
    assert forall i :: 0 <= i < |r.core| ==> r.out[i] == r.core[i];
    if r.ending.Finished? {
      FinishedFinishes(lower, r);
      FinishShape(r);
      CutAtFinish(r.core, Finish(r), Figures(r));
    }
  }

  lemma CutAtFinish(core: seq<LlmEvent>, finish: seq<LlmEvent>, figures: seq<LlmEvent>)
    requires forall i :: 0 <= i < |core| ==> !core[i].Terminal()
    requires |finish| > 0 && finish[|finish| - 1].Terminal()
    requires forall i :: 0 <= i < |finish| - 1 ==> !finish[i].Terminal()
    ensures Cut(core + finish + figures) == core + finish
  {
    hide Cut;
    var out, n := core + finish + figures, |core| + |finish| - 1;
    assert forall i :: |core| <= i <= n ==> out[i] == finish[i - |core|];
    CutAt(out, n);
    assert out[..n] + [out[n]] == core + finish;
  }

  lemma {:induction false} Silent(events: seq<LlmEvent>)
    requires forall i :: 0 <= i < |events| ==> !C.Quiet(events[i])
    ensures C.Visible(events) == []
  {
    if |events| > 0 {
      Silent(events[..|events| - 1]);
    }
  }

  /** What a request that ended in a stop delivered: one client reply, complete up to its stop. */
  ghost predicate WholeReply(lower: char -> char, r: Reply, out: seq<LlmEvent>)
  {
    && Whole(lower, r) && r.core != [] && Finish(r) != []
    && Payload(out) == r.core[1..] + Finish(r)
    && C.Visible(out) == F.Scan(lower, C.ContentOf(Chunks(r)), false)
  }

  lemma StopDelivers(lower: char -> char, trace: seq<Attempt>, counts: ErrorData -> bool, r: Reply)
    requires trace != [] && ValidTrace(trace, counts) && Rendered(lower, r)
    requires trace[|trace| - 1].events == r.out && Completed(trace[|trace| - 1])
    ensures WholeReply(lower, r, Transcript(trace))
  {
    hide C.Grammatical, C.Visible, Finish, Chunks, Rendered, Cut, Completed, Payload, F.Scan, C.ContentOf, Transcript,
         ValidTrace, Whole;
    ReadToStop(lower, r, trace[|trace| - 1]);
    var starts := StartsOf(trace, counts);
    Shapes(lower, r);
    CoreIsQuiet(r.core);
    FinishShape(r);
    VisibleOfReply(starts, r.core, Finish(r));
    PayloadOfReply(starts, r.core, Finish(r));
    WholeVisible(lower, r);
  }

  lemma StartsOf(trace: seq<Attempt>, counts: ErrorData -> bool) returns (starts: seq<LlmEvent>)
    requires ValidTrace(trace, counts)
    ensures forall i :: 0 <= i < |starts| ==> starts[i].IsStart()
    ensures Transcript(trace) == starts + Cut(trace[|trace| - 1].events)
  {
    hide Cut, Abandoned;
    var n := |trace| - 1;
    OpeningIsStarts(trace[..n], counts);
    starts := Opening(trace[..n]) + [SelectedConfig(trace[n].config, trace[n].pooled)];
  }

  lemma WholeVisible(lower: char -> char, r: Reply)
    requires Whole(lower, r)
    ensures C.Visible(r.core) == F.Scan(lower, C.ContentOf(Chunks(r)), false)
  {
  }

  lemma VisibleOfReply(starts: seq<LlmEvent>, core: seq<LlmEvent>, finish: seq<LlmEvent>)
    requires forall i :: 0 <= i < |starts| ==> starts[i].IsStart()
    requires forall i :: 0 <= i < |finish| ==> finish[i].ToolCallDone? || finish[i].MessageStop?
    ensures C.Visible(starts + (core + finish)) == C.Visible(core)
  {
    hide C.Visible;
    Silent(starts);
    Silent(finish);
    C.VisibleAppend(starts, core + finish);
    C.VisibleAppend(core, finish);
  }

  lemma PayloadOfReply(starts: seq<LlmEvent>, core: seq<LlmEvent>, finish: seq<LlmEvent>)
    requires forall i :: 0 <= i < |starts| ==> starts[i].IsStart()
    requires core != [] && forall i :: 0 <= i < |core| ==> (core[i].IsStart() <==> i == 0)
    requires forall i :: 0 <= i < |finish| ==> !finish[i].IsStart()
    ensures Payload(starts + (core + finish)) == core[1..] + finish
  {
    hide Filter;
    PayloadAfterStarts(starts, core + finish);
    assert core + finish == [core[0]] + (core[1..] + finish);
    PayloadAfterStarts([core[0]], core[1..] + finish);
    FilterAllKept(core[1..] + finish, (e: LlmEvent) => !e.MessageStart? && !e.SelectedConfig?);
  }

  lemma NoUsage(lower: char -> char, trace: seq<Attempt>, counts: ErrorData -> bool, replies: (nat, ConfigId) -> Reply)
    requires ValidTrace(trace, counts)
    requires forall n, c :: Rendered(lower, replies(n, c))
    requires forall i :: 0 <= i < |trace| ==> trace[i].events == replies(i, trace[i].config).out
    ensures forall i :: 0 <= i < |Transcript(trace)| ==> !Transcript(trace)[i].Usage?
  {
    hide Rendered, ValidTrace, Transcript;
    forall a, i | a in trace && 0 <= i < |a.events| && a.events[i].Usage?
      ensures exists j :: 0 <= j < i && a.events[j].MessageStop?
    {
      var n :| 0 <= n < |trace| && trace[n] == a;
      UsageAfterStop(lower, replies(n, a.config));
    }
    UsageNeverDelivered(trace, counts);
  }

  /** Stream a request from providers. `replies` gives the provider stream and the client's rendering of it for
      the n-th attempt on a configuration. */
  method StreamRequest(gateway: LLMGateway, req: Request, lower: char -> char, replies: (nat, ConfigId) -> Reply,
                       repos: nat -> Repo, others: nat -> seq<Op>)
    returns (out: seq<LlmEvent>, ghost trace: seq<Attempt>)
    requires gateway.Valid() && 0.0 <= gateway.baseDelay
    requires forall n :: Distinct(repos(n).globals)
    requires forall n, c :: Rendered(lower, replies(n, c))
    modifies gateway.usage
    ensures gateway.Valid()
    ensures forall i :: 0 <= i < |out| ==> !out[i].Usage?
    ensures forall i :: 0 <= i < |out| && out[i].Terminal() ==> i == |out| - 1
    ensures |out| > 0 && out[|out| - 1].MessageStop? ==>
      trace != [] && WholeReply(lower, replies(|trace| - 1, trace[|trace| - 1].config), out)
  {
    hide Rendered, WholeReply, Report, SessionSettled, RightChoice, ValidTrace, Transcript, Completed, MarksOf, Marks,
         Grew, Acts, Effects, Picked, LogsWithin, AloneWith, Paused;
    var slept;
    ghost var d, account, picks;
    out, slept, trace, d, account, picks :=
      gateway.Stream(req, (n: nat, c: ConfigId) => replies(n, c).out, repos, others);
    if trace != [] {
      NoUsage(lower, trace, gateway.countsAgainstHealth, replies);
      DeliveredFromLastAttempt(trace, gateway.countsAgainstHealth);
      StopIsLast(trace);
      if out[|out| - 1].MessageStop? {
        StopDelivers(lower, trace, gateway.countsAgainstHealth, replies(|trace| - 1, trace[|trace| - 1].config));
      }
    }
  }

  lemma StopIsLast(trace: seq<Attempt>)
    requires trace != []
    ensures var out := Transcript(trace);
      |out| > 0 && (out[|out| - 1].MessageStop? <==> Completed(trace[|trace| - 1]))
  {
    hide Cut, Opening;
    var last := trace[|trace| - 1];
    if Cut(last.events) == [] {
      assert Transcript(trace) == Opening(trace[..|trace| - 1]) + [SelectedConfig(last.config, last.pooled)];
    }
  }
}
