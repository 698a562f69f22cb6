/**
  Turning a provider's chunk stream into events: the think filter on visible content and the
  assembly of interleaved tool-call fragments.
 */
module LlmClient {
  import opened Text
  import opened LlmTypes
  import F = ThinkFilter

  /** A piece of a tool call. The provider may leave out the id after the first piece. */
  datatype Fragment = Fragment(id: Option<string>, name: string, arguments: string)

  datatype Delta = Delta(reasoning: string, reasoningContent: string, thinking: string, content: string,
                         toolCalls: seq<Fragment>)

  datatype UsageData = UsageData(inputTokens: int, outputTokens: int)

  /** `delta` is absent when the chunk has no choice or the choice no delta: then the chunk says nothing. */
  datatype Chunk = Chunk(model: string, delta: Option<Delta>, finish: Option<string>, usage: Option<UsageData>)

  datatype Accumulator = Accumulator(name: string, arguments: string)

  /** How the consumed part of a stream ended. */
  datatype Ending = RanOut | Finished | Failed

  // ----- what the fragments mean -----

  /** A fragment that makes the accumulator lookup fail: an empty id, and something to record. */
  predicate Unroutable(f: Fragment)
  {
    f.id.Some? && |f.id.value| == 0 && (|f.name| > 0 || |f.arguments| > 0)
  }

  function Ids(fs: seq<Fragment>): set<string>
  {
    set f | f in fs && f.id.Some? && |f.id.value| > 0 :: f.id.value
  }

  /** The id seen for the first time most recently: where fragments without an id belong. */
  function Newest(fs: seq<Fragment>): Option<string>
  {
    if fs == [] then None
    else
      var n := |fs| - 1;
      match fs[n].id
      case Some(id) => if |id| > 0 && id !in Ids(fs[..n]) then Some(id) else Newest(fs[..n])
      case None => Newest(fs[..n])
  }

  function Owner(fs: seq<Fragment>, f: Fragment): Option<string>
  {
    if f.id.Some? then f.id else Newest(fs)
  }

  /** Ids in the order they first appear. */
  function FirstSeen(fs: seq<Fragment>): seq<string>
  {
    if fs == [] then []
    else
      var n := |fs| - 1;
      var id := fs[n].id;
      FirstSeen(fs[..n]) + if id.Some? && |id.value| > 0 && id.value !in Ids(fs[..n]) then [id.value] else []
  }

  /** Everything the fragments add to one call's arguments, in order. */
  function ArgumentsOf(fs: seq<Fragment>, id: string): string
  {
    if fs == [] then ""
    else
      var n := |fs| - 1;
      ArgumentsOf(fs[..n], id) + if Owner(fs[..n], fs[n]) == Some(id) then fs[n].arguments else ""
  }

  /** The first non-empty name among one call's fragments. */
  function NameOf(fs: seq<Fragment>, id: string): string
  {
    if fs == [] then ""
    else
      var n := |fs| - 1;
      var earlier := NameOf(fs[..n], id);
      if |earlier| == 0 && Owner(fs[..n], fs[n]) == Some(id) then fs[n].name else earlier
  }

  // ----- reading events -----

  function VisibleOf(e: LlmEvent): seq<F.Labelled>
  {
    match e
    case TextDelta(t) => F.Label(t, false)
    case ReasoningDelta(field, t) => if field == CONTENT_THINK_FIELD then F.Label(t, true) else []
    case _ => []
  }

  /** The content characters delivered, each with its side of the think markup. */
  function Visible(out: seq<LlmEvent>): seq<F.Labelled>
  {
    if out == [] then [] else Visible(out[..|out| - 1]) + VisibleOf(out[|out| - 1])
  }

  const CONTENT_THINK_FIELD := "content_think_tag"

  /** Reasoning from the provider's own fields, not from think markup in the content. */
  predicate Structured(e: LlmEvent)
  {
    e.ReasoningDelta? && e.field != CONTENT_THINK_FIELD
  }

  function Reasoned(out: seq<LlmEvent>): seq<LlmEvent>
  {
    Filter(out, Structured)
  }

  lemma Unreasoned(out: seq<LlmEvent>, more: seq<LlmEvent>)
    requires forall e :: e in more ==> !Structured(e)
    ensures Reasoned(out + more) == Reasoned(out)
  {
    hide Filter;
    FilterAppend(out, more, Structured);
    FilterAllDropped(more, Structured);
  }

  lemma ReasonedMore(out: seq<LlmEvent>, more: seq<LlmEvent>)
    requires forall e :: e in more ==> Structured(e)
    ensures Reasoned(out + more) == Reasoned(out) + more
  {
    hide Filter;
    FilterAppend(out, more, Structured);
    FilterAllKept(more, Structured);
  }

  function Started(out: seq<LlmEvent>): seq<string>
  {
    if out == [] then []
    else
      var n := |out| - 1;
      Started(out[..n]) + if out[n].ToolCallStart? then [out[n].id] else []
  }

  function DeltasOf(out: seq<LlmEvent>, id: string): string
  {
    if out == [] then ""
    else
      var n := |out| - 1;
      DeltasOf(out[..n], id) + if out[n].ToolCallDelta? && out[n].id == id then out[n].arguments else ""
  }

  predicate Quiet(e: LlmEvent)
  {
    e.TextDelta? || e.ReasoningDelta?
  }

  /** One start at the front, none later; each delta follows the start of its call; nothing repeats a start. */
  ghost predicate Grammatical(out: seq<LlmEvent>)
  {
    forall i :: 0 <= i < |out| ==>
      && (Quiet(out[i]) || out[i].MessageStart? || out[i].ToolCallStart? || out[i].ToolCallDelta?)
      && (out[i].MessageStart? <==> i == 0)
      && (out[i].ToolCallStart? ==> out[i].id !in Started(out[..i]))
      && (out[i].ToolCallDelta? ==> |out[i].arguments| > 0 && out[i].id in Started(out[..i]))
  }

  // ----- one more event, one more fragment -----

  lemma OneMoreEvent(out: seq<LlmEvent>, e: LlmEvent)
    ensures Started(out + [e]) == Started(out) + if e.ToolCallStart? then [e.id] else []
    ensures forall id :: DeltasOf(out + [e], id) ==
              DeltasOf(out, id) + if e.ToolCallDelta? && e.id == id then e.arguments else ""
    ensures !Quiet(e) ==> Visible(out + [e]) == Visible(out)
    ensures
      (&& Grammatical(out) && out != [] && (Quiet(e) || e.ToolCallStart? || e.ToolCallDelta?)
       && (e.ToolCallStart? ==> e.id !in Started(out))
       && (e.ToolCallDelta? ==> |e.arguments| > 0 && e.id in Started(out))) ==> Grammatical(out + [e])
  {
    assert (out + [e])[..|out|] == out;
    assert forall i :: 0 <= i < |out| ==> (out + [e])[i] == out[i] && (out + [e])[..i] == out[..i];
  }

  lemma {:induction false} QuietEvents(out: seq<LlmEvent>, more: seq<LlmEvent>)
    requires forall e :: e in more ==> Quiet(e)
    ensures Started(out + more) == Started(out)
    ensures forall id :: DeltasOf(out + more, id) == DeltasOf(out, id)
    ensures Grammatical(out) && out != [] ==> Grammatical(out + more)
  {
    if more == [] {
      assert out + more == out;
    } else {
      var n := |more| - 1;
      assert out + more == (out + more[..n]) + [more[n]];
      assert more[n] in more;
      QuietEvents(out, more[..n]);
      OneMoreEvent(out + more[..n], more[n]);
    }
  }

  lemma VisibleOneMore(out: seq<LlmEvent>, e: LlmEvent)
    ensures Visible(out + [e]) == Visible(out) + VisibleOf(e)
  {
    assert (out + [e])[..|out|] == out;
  }

  lemma {:induction false} VisibleAppend(out: seq<LlmEvent>, more: seq<LlmEvent>)
    ensures Visible(out + more) == Visible(out) + Visible(more)
  {
    if |more| == 0 {
      assert out + more == out;
    } else {
      hide Visible, VisibleOf;
      var n := |more| - 1;
      assert out + more == (out + more[..n]) + [more[n]];
      assert more == more[..n] + [more[n]];
      VisibleOneMore(out + more[..n], more[n]);
      VisibleOneMore(more[..n], more[n]);
      VisibleAppend(out, more[..n]);
      Assoc(Visible(out), Visible(more[..n]), VisibleOf(more[n]));
    }
  }

  lemma OneMoreFragment(fs: seq<Fragment>, f: Fragment)
    ensures var fs' := fs + [f];
      var isNew := f.id.Some? && |f.id.value| > 0 && f.id.value !in Ids(fs);
      && Ids(fs') == Ids(fs) + (if f.id.Some? && |f.id.value| > 0 then {f.id.value} else {})
      && Newest(fs') == (if isNew then f.id else Newest(fs))
      && FirstSeen(fs') == FirstSeen(fs) + (if isNew then [f.id.value] else [])
  {
    assert (fs + [f])[..|fs|] == fs;
    assert forall g :: g in fs + [f] <==> g in fs || g == f;
  }

  lemma OneMoreFor(fs: seq<Fragment>, f: Fragment, id: string)
    ensures ArgumentsOf(fs + [f], id) == ArgumentsOf(fs, id) + if Owner(fs, f) == Some(id) then f.arguments else ""
    ensures NameOf(fs + [f], id) ==
              if |NameOf(fs, id)| == 0 && Owner(fs, f) == Some(id) then f.name else NameOf(fs, id)
  {
    assert (fs + [f])[..|fs|] == fs;
  }

  /** An id no fragment has carried has no arguments and no name. */
  lemma {:induction false} UnknownIsEmpty(fs: seq<Fragment>, id: string)
    requires |id| > 0 && id !in Ids(fs)
    ensures ArgumentsOf(fs, id) == "" && NameOf(fs, id) == ""
  {
    if fs != [] {
      var n := |fs| - 1;
      assert fs == fs[..n] + [fs[n]];
      OneMoreFragment(fs[..n], fs[n]);
      OneMoreFor(fs[..n], fs[n], id);
      NewestIsKnown(fs[..n]);
      UnknownIsEmpty(fs[..n], id);
    }
  }

  lemma {:induction false} NewestIsKnown(fs: seq<Fragment>)
    ensures Newest(fs).Some? ==> |Newest(fs).value| > 0 && Newest(fs).value in Ids(fs)
  {
    if fs != [] {
      var n := |fs| - 1;
      NewestIsKnown(fs[..n]);
      assert fs == fs[..n] + [fs[n]];
      OneMoreFragment(fs[..n], fs[n]);
    }
  }

  /** Every call is listed once. */
  lemma {:induction false} FirstSeenIsIds(fs: seq<Fragment>)
    ensures forall id :: id in FirstSeen(fs) <==> id in Ids(fs)
    ensures forall i, j :: 0 <= i < j < |FirstSeen(fs)| ==> FirstSeen(fs)[i] != FirstSeen(fs)[j]
  {
    if fs != [] {
      var n := |fs| - 1;
      FirstSeenIsIds(fs[..n]);
      assert fs == fs[..n] + [fs[n]];
      OneMoreFragment(fs[..n], fs[n]);
    }
  }

  // ----- assembling tool calls -----

  ghost predicate AccumulatorsOk(fs: seq<Fragment>, order: seq<string>, accs: map<string, Accumulator>,
                                 active: Option<string>)
  {
    && order == FirstSeen(fs) && active == Newest(fs)
    && accs.Keys == Ids(fs)
    && (forall id :: id in accs ==> accs[id] == Accumulator(NameOf(fs, id), ArgumentsOf(fs, id)))
  }

  ghost predicate EventsOk(fs: seq<Fragment>, out: seq<LlmEvent>)
  {
    && out != [] && Grammatical(out)
    && Started(out) == FirstSeen(fs)
    && (forall id :: |id| > 0 ==> DeltasOf(out, id) == ArgumentsOf(fs, id))
  }

  /** The accumulators hold what the fragments so far add up to, and the events tell the same story. */
  ghost predicate Tools(fs: seq<Fragment>, order: seq<string>, accs: map<string, Accumulator>,
                        active: Option<string>, out: seq<LlmEvent>)
  {
    AccumulatorsOk(fs, order, accs, active) && EventsOk(fs, out)
  }

  predicate IsNew(f: Fragment, known: set<string>)
  {
    f.id.Some? && |f.id.value| > 0 && f.id.value !in known
  }

  /** What one more fragment does to the accumulator of its call. */
  function Merged(f: Fragment, acc: Accumulator): Accumulator
  {
    Accumulator(if |acc.name| == 0 then f.name else acc.name, acc.arguments + f.arguments)
  }

  function RoutedAccs(f: Fragment, accs: map<string, Accumulator>, owner: Option<string>): map<string, Accumulator>
  {
    if IsNew(f, accs.Keys) then accs[f.id.value := Merged(f, Accumulator("", ""))]
    else if owner.Some? && owner.value in accs then accs[owner.value := Merged(f, accs[owner.value])]
    else accs
  }

  function RoutedStart(f: Fragment, known: set<string>): seq<LlmEvent>
  {
    if IsNew(f, known) then [ToolCallStart(f.id.value, f.name)] else []
  }

  function RoutedDelta(f: Fragment, owner: Option<string>): seq<LlmEvent>
  {
    if owner.Some? && |f.arguments| > 0 then [ToolCallDelta(owner.value, f.arguments)] else []
  }

  function RoutedOrder(f: Fragment, known: set<string>, order: seq<string>): seq<string>
  {
    if IsNew(f, known) then order + [f.id.value] else order
  }

  function RoutedActive(f: Fragment, known: set<string>, active: Option<string>): Option<string>
  {
    if IsNew(f, known) then f.id else active
  }

  lemma AccumulatorsStep(fs: seq<Fragment>, f: Fragment, order: seq<string>, accs: map<string, Accumulator>,
                         active: Option<string>)
    requires AccumulatorsOk(fs, order, accs, active) && !Unroutable(f)
    ensures AccumulatorsOk(fs + [f], RoutedOrder(f, accs.Keys, order), RoutedAccs(f, accs, Owner(fs, f)),
                           RoutedActive(f, accs.Keys, active))
  {
    OneMoreFragment(fs, f);
    NewestIsKnown(fs);
    var owner := Owner(fs, f);
    var accs' := RoutedAccs(f, accs, owner);
    var fs' := fs + [f];
    assert accs'.Keys == Ids(fs');
    forall id | id in accs' ensures accs'[id] == Accumulator(NameOf(fs', id), ArgumentsOf(fs', id))
    {
      OneMoreFor(fs, f, id);
      if id !in accs {
        UnknownIsEmpty(fs, id);
        assert "" + f.arguments == f.arguments;
      } else if owner != Some(id) {
        assert ArgumentsOf(fs, id) + "" == ArgumentsOf(fs, id);
      }
      hide NameOf, ArgumentsOf, Ids, Newest;
    }
  }

  /** After a possible start event, before the fragment's arguments are passed on. */
  ghost predicate StartedSoFar(fs: seq<Fragment>, f: Fragment, mid: seq<LlmEvent>)
  {
    && mid != [] && Grammatical(mid)
    && Started(mid) == RoutedOrder(f, Ids(fs), FirstSeen(fs))
    && (forall id :: |id| > 0 ==> DeltasOf(mid, id) == ArgumentsOf(fs, id))
  }

  lemma StartStep(fs: seq<Fragment>, f: Fragment, out: seq<LlmEvent>)
    requires EventsOk(fs, out)
    ensures var mid := out + RoutedStart(f, Ids(fs));
      StartedSoFar(fs, f, mid) && Visible(mid) == Visible(out)
  {
    FirstSeenIsIds(fs);
    hide Ids, Newest, FirstSeen, ArgumentsOf, NameOf, Started, DeltasOf, Grammatical, Visible;
    if IsNew(f, Ids(fs)) {
      OneMoreEvent(out, ToolCallStart(f.id.value, f.name));
    } else {
      assert out + RoutedStart(f, Ids(fs)) == out;
    }
  }

  lemma OwnerIsKnown(fs: seq<Fragment>, f: Fragment)
    requires !Unroutable(f) && Owner(fs, f).Some? && |f.arguments| > 0
    ensures |Owner(fs, f).value| > 0 && Owner(fs, f).value in RoutedOrder(f, Ids(fs), FirstSeen(fs))
  {
    NewestIsKnown(fs);
    FirstSeenIsIds(fs);
  }

  lemma EventsStep(fs: seq<Fragment>, f: Fragment, out: seq<LlmEvent>)
    requires EventsOk(fs, out) && !Unroutable(f)
    ensures var out' := out + RoutedStart(f, Ids(fs)) + RoutedDelta(f, Owner(fs, f));
      EventsOk(fs + [f], out') && Visible(out') == Visible(out)
  {
    hide Grammatical, Started, Visible, Ids, Newest, FirstSeen, ArgumentsOf, DeltasOf, NameOf;
    StartStep(fs, f, out);
    OneMoreFragment(fs, f);
    var mid, owner := out + RoutedStart(f, Ids(fs)), Owner(fs, f);
    var out', fs' := mid + RoutedDelta(f, owner), fs + [f];
    if owner.Some? && |f.arguments| > 0 {
      OwnerIsKnown(fs, f);
      OneMoreEvent(mid, ToolCallDelta(owner.value, f.arguments));
    } else {
      assert out' == mid;
    }
    forall id | |id| > 0 ensures DeltasOf(out', id) == ArgumentsOf(fs', id)
    {
      OneMoreFor(fs, f, id);
      DeltaStep(mid, f, owner, id);
      assert DeltasOf(mid, id) == ArgumentsOf(fs, id);
    }
  }

  lemma DeltaStep(mid: seq<LlmEvent>, f: Fragment, owner: Option<string>, id: string)
    ensures DeltasOf(mid + RoutedDelta(f, owner), id) ==
              DeltasOf(mid, id) + if owner == Some(id) then f.arguments else ""
  {
    if owner.Some? && |f.arguments| > 0 {
      assert (mid + [ToolCallDelta(owner.value, f.arguments)])[..|mid|] == mid;
    } else {
      assert mid + RoutedDelta(f, owner) == mid;
      assert |f.arguments| == 0 ==> f.arguments == "";
    }
  }

  lemma RouteStep(fs: seq<Fragment>, f: Fragment, order: seq<string>, accs: map<string, Accumulator>,
                  active: Option<string>, out: seq<LlmEvent>)
    requires Tools(fs, order, accs, active, out) && !Unroutable(f)
    ensures var owner := if f.id.Some? then f.id else active;
      var out' := out + RoutedStart(f, accs.Keys) + RoutedDelta(f, owner);
      && Tools(fs + [f], RoutedOrder(f, accs.Keys, order), RoutedAccs(f, accs, owner),
               RoutedActive(f, accs.Keys, active), out')
      && Visible(out') == Visible(out)
  {
    assert accs.Keys == Ids(fs) && active == Newest(fs);
    hide Ids, Newest, Visible, EventsOk, AccumulatorsOk, Unroutable;
    EventsStep(fs, f, out);
    AccumulatorsStep(fs, f, order, accs, active);
  }

  lemma ToolsKeys(fs: seq<Fragment>, order: seq<string>, accs: map<string, Accumulator>, active: Option<string>,
                  out: seq<LlmEvent>)
    requires Tools(fs, order, accs, active, out)
    ensures (active.Some? ==> active.value in accs) && forall id :: id in accs ==> |id| > 0
  {
    NewestIsKnown(fs);
  }

  /** Only tool-call events were added. */
  predicate Adds(out: seq<LlmEvent>, out': seq<LlmEvent>)
  {
    out <= out' && forall i :: |out| <= i < |out'| ==> out'[i].ToolCallStart? || out'[i].ToolCallDelta?
  }

  method RouteFragment(f: Fragment, order: seq<string>, accs: map<string, Accumulator>, active: Option<string>,
                       out: seq<LlmEvent>, ghost fs: seq<Fragment>)
    returns (order': seq<string>, accs': map<string, Accumulator>, active': Option<string>, out': seq<LlmEvent>,
             failed: bool)
    requires Tools(fs, order, accs, active, out)
    ensures failed <==> Unroutable(f)
    ensures Visible(out') == Visible(out) && Adds(out, out')
    ensures if failed then out' == out else Tools(fs + [f], order', accs', active', out')
  {
    hide Tools, Visible, Newest;
    if !Unroutable(f) {
      RouteStep(fs, f, order, accs, active, out);
    }
    ToolsKeys(fs, order, accs, active, out);
    order', accs', active', out', failed := order, accs, active, out, false;
    var id := if f.id.Some? then f.id else active;
    if id.None? {
      assert out + [] + [] == out;
      return;
    }
    var key := id.value;
    if |key| > 0 && key !in accs {
      accs' := accs[key := Accumulator(f.name, "")];
      order', active' := order + [key], id;
      out' := out' + [ToolCallStart(key, f.name)];
    } else {
      assert out + [] == out;
    }
    if key !in accs' {
      failed := |f.name| > 0 || |f.arguments| > 0;
      assert out + [] == out;
      return;
    }
    var acc := accs'[key];
    if |f.name| > 0 && |acc.name| == 0 {
      acc := acc.(name := f.name);
    }
    if |f.arguments| > 0 {
      acc := acc.(arguments := acc.arguments + f.arguments);
      out' := out' + [ToolCallDelta(key, f.arguments)];
    } else {
      assert acc.arguments + f.arguments == acc.arguments && out' + [] == out';
    }
    accs' := accs'[key := acc];
    assert accs' == RoutedAccs(f, accs, id);
  }

  method RouteAll(toolCalls: seq<Fragment>, order: seq<string>, accs: map<string, Accumulator>, active: Option<string>,
                  out: seq<LlmEvent>, ghost fs: seq<Fragment>)
    returns (order': seq<string>, accs': map<string, Accumulator>, active': Option<string>, out': seq<LlmEvent>,
             failed: bool, routed: nat)
    requires Tools(fs, order, accs, active, out)
    ensures routed <= |toolCalls| && Tools(fs + toolCalls[..routed], order', accs', active', out')
    ensures forall f :: f in toolCalls[..routed] ==> !Unroutable(f)
    ensures if failed then routed < |toolCalls| && Unroutable(toolCalls[routed]) else routed == |toolCalls|
    ensures Visible(out') == Visible(out) && Adds(out, out')
  {
    hide Tools, Visible;
    order', accs', active', out', failed, routed := order, accs, active, out, false, 0;
    assert fs + toolCalls[..0] == fs;
    while routed < |toolCalls|
      invariant routed <= |toolCalls| && Tools(fs + toolCalls[..routed], order', accs', active', out')
      invariant forall f :: f in toolCalls[..routed] ==> !Unroutable(f)
      invariant Visible(out') == Visible(out) && Adds(out, out')
    {
      assert fs + toolCalls[..routed] + [toolCalls[routed]] == fs + toolCalls[..routed + 1];
      var order1, accs1, active1, out1, failed1 :=
        RouteFragment(toolCalls[routed], order', accs', active', out', fs + toolCalls[..routed]);
      if failed1 {
        failed := true;
        return;
      }
      order', accs', active', out', routed := order1, accs1, active1, out1, routed + 1;
    }
  }

  // ----- content through the think filter -----

  function ToLlm(e: F.Event): LlmEvent
  {
    match e
    case TextDelta(t) => TextDelta(t)
    case ReasoningDelta(t) => ReasoningDelta(CONTENT_THINK_FIELD, t)
  }

  function AllToLlm(events: seq<F.Event>): (r: seq<LlmEvent>)
    ensures forall e :: e in r ==> Quiet(e) && !Structured(e)
  {
    if events == [] then [] else AllToLlm(events[..|events| - 1]) + [ToLlm(events[|events| - 1])]
  }

  lemma {:induction false} AllToLlmVisible(events: seq<F.Event>)
    ensures Visible(AllToLlm(events)) == F.Labels(events)
  {
    if events != [] {
      var n := |events| - 1;
      AllToLlmVisible(events[..n]);
      OneEventVisible(events[n]);
      hide F.Labels, F.LabelsOf, F.Label, Visible, VisibleOf;
      F.LabelsAppend(events[..n], [events[n]]);
      assert events == events[..n] + [events[n]];
      VisibleAppend(AllToLlm(events[..n]), [ToLlm(events[n])]);
    }
  }

  lemma OneEventVisible(e: F.Event)
    ensures Visible([ToLlm(e)]) == F.Labels([e])
  {
    assert Visible([ToLlm(e)]) == Visible([]) + VisibleOf(ToLlm(e));
    assert F.Labels([e]) == F.LabelsOf(e) + F.Labels([]);
  }

  /** What has been delivered of the content so far, and what the filter still holds. */
  ghost predicate TextOk(lower: char -> char, content: string, buffer: string, inside: bool, out: seq<LlmEvent>)
  {
    var a := F.Absorb(lower, content, false);
    a.rest == buffer && a.inside == inside && Visible(out) == F.Shown(a.tokens)
  }

  method PassContent(filter: F.ThinkTagContentFilter, text: string, out: seq<LlmEvent>, ghost content: string)
    returns (more: seq<LlmEvent>)
    requires filter.Valid() && TextOk(filter.lower, content, filter.buffer, filter.inside, out)
    modifies filter
    ensures filter.Valid() && TextOk(filter.lower, content + text, filter.buffer, filter.inside, out + more)
    ensures forall e :: e in more ==> Quiet(e) && !Structured(e)
  {
    ghost var held, side := filter.buffer, filter.inside;
    var events := filter.Feed(text);
    more := AllToLlm(events);
    F.AbsorbAppend(filter.lower, content, text, false);
    F.ShownAppend(F.Absorb(filter.lower, content, false).tokens, F.Absorb(filter.lower, held + text, side).tokens);
    AllToLlmVisible(events);
    VisibleAppend(out, more);
  }

  /** Structured reasoning fields, in the order they are looked at. They are never part of the content. */
  function ReasoningEvents(d: Delta): (r: seq<LlmEvent>)
    ensures forall e :: e in r ==> Quiet(e) && Structured(e)
    ensures Visible(r) == []
  {
    var r1 := ReasoningEvent("reasoning", d.reasoning);
    var r2 := ReasoningEvent("reasoning_content", d.reasoningContent);
    var r3 := ReasoningEvent("thinking", d.thinking);
    VisibleAppend(r1, r2);
    VisibleAppend(r1 + r2, r3);
    r1 + r2 + r3
  }

  function ReasoningEvent(field: string, text: string): (r: seq<LlmEvent>)
    requires field != CONTENT_THINK_FIELD
    ensures forall e :: e in r ==> Quiet(e) && Structured(e)
    ensures Visible(r) == []
  {
    if text == "" then [] else [ReasoningDelta(field, text)]
  }

  // ----- the whole stream -----

  function FragmentsOf(chunks: seq<Chunk>): seq<Fragment>
  {
    if chunks == [] then []
    else
      var last := chunks[|chunks| - 1];
      FragmentsOf(chunks[..|chunks| - 1]) + if last.delta.Some? then last.delta.value.toolCalls else []
  }

  function ContentOf(chunks: seq<Chunk>): string
  {
    if chunks == [] then ""
    else
      var last := chunks[|chunks| - 1];
      ContentOf(chunks[..|chunks| - 1]) + if last.delta.Some? then last.delta.value.content else ""
  }

  /** The structured reasoning of all chunks, in order. */
  function ReasoningOf(chunks: seq<Chunk>): seq<LlmEvent>
  {
    if chunks == [] then []
    else
      var last := chunks[|chunks| - 1];
      ReasoningOf(chunks[..|chunks| - 1]) + if last.delta.Some? then ReasoningEvents(last.delta.value) else []
  }

  lemma OneMoreChunk(chunks: seq<Chunk>, c: Chunk)
    ensures FragmentsOf(chunks + [c]) == FragmentsOf(chunks) + if c.delta.Some? then c.delta.value.toolCalls else []
    ensures ContentOf(chunks + [c]) == ContentOf(chunks) + if c.delta.Some? then c.delta.value.content else ""
    ensures ReasoningOf(chunks + [c]) == ReasoningOf(chunks) +
        if c.delta.Some? then ReasoningEvents(c.delta.value) else []
  {
    assert (chunks + [c])[..|chunks|] == chunks;
  }

  predicate Closing(c: Chunk)
  {
    c.delta.Some? && c.finish.Some?
  }

  function StopReason(finish: string): string
  {
    if finish == "stop" then "end_turn"
    else if finish == "tool_calls" then "tool_call"
    else if finish == "length" then "max_tokens"
    else if finish == "content_filter" then "content_filter"
    else "unknown"
  }

  function UsageEvents(u: Option<UsageData>): seq<LlmEvent>
  {
    if u.Some? then [Usage(u.value.inputTokens, u.value.outputTokens)] else []
  }

  /** One done event per call, in first-seen order, with the whole of its arguments. */
  function Dones(ids: seq<string>, fs: seq<Fragment>): (r: seq<LlmEvent>)
    ensures |r| == |ids|
    ensures forall i :: 0 <= i < |ids| ==> r[i] == ToolCallDone(ids[i], NameOf(fs, ids[i]), ArgumentsOf(fs, ids[i]))
  {
    seq(|ids|, i requires 0 <= i < |ids| => ToolCallDone(ids[i], NameOf(fs, ids[i]), ArgumentsOf(fs, ids[i])))
  }

  function ClosingEvents(fs: seq<Fragment>, c: Chunk): seq<LlmEvent>
    requires Closing(c)
  {
    Dones(FirstSeen(fs), fs) + [MessageStop(StopReason(c.finish.value))] + UsageEvents(c.usage)
  }

  lemma StreamStarts(lower: char -> char, model: string)
    ensures Tools([], [], map[], None, [MessageStart(model)])
    ensures TextOk(lower, "", "", false, [MessageStart(model)])
    ensures FragmentsOf([]) == [] && ContentOf([]) == ""
  {
    var out := [MessageStart(model)];
    assert out[..0] == [];
    assert Visible(out) == Visible(out[..0]) + VisibleOf(out[0]);
    assert F.Absorb(lower, "", false) == F.Absorbed([], "", false);
  }

  lemma BrokenHere(lower: char -> char, chunks: seq<Chunk>, c: Chunk, k: nat, core: seq<LlmEvent>)
    requires c.delta.Some? && FirstBroken(c.delta.value.toolCalls, k)
    requires EventsOk(FragmentsOf(chunks) + c.delta.value.toolCalls[..k], core)
    requires Visible(core) == F.Shown(F.Absorb(lower, ContentOf(chunks + [c]), false).tokens)
    requires Reasoned(core) == ReasoningOf(chunks + [c])
    ensures SoFarBroken(lower, chunks + [c], core)
  {
    hide EventsOk, Visible, Reasoned, ReasoningOf, FragmentsOf, ContentOf, Unroutable, F.Absorb, F.Shown;
    assert (chunks + [c])[..|chunks|] == chunks;
    assert c.delta.value.toolCalls[k] in c.delta.value.toolCalls;
  }

  lemma NothingReasoned(model: string)
    ensures Reasoned([MessageStart(model)]) == ReasoningOf([]) == []
  {
    FilterAllDropped([MessageStart(model)], Structured);
  }

  lemma TextShown(lower: char -> char, content: string, buffer: string, inside: bool, out: seq<LlmEvent>)
    requires TextOk(lower, content, buffer, inside, out)
    ensures Visible(out) == F.Shown(F.Absorb(lower, content, false).tokens)
  {
  }

  lemma EventsAreGrammatical(fs: seq<Fragment>, core: seq<LlmEvent>)
    requires EventsOk(fs, core)
    ensures core != [] && Grammatical(core)
  {
  }

  lemma ReasonedInDelta(out: seq<LlmEvent>, reasoning: seq<LlmEvent>, more: seq<LlmEvent>, out': seq<LlmEvent>)
    requires Adds(out + reasoning + more, out')
    requires forall e :: e in more ==> !Structured(e)
    requires forall e :: e in reasoning ==> Structured(e)
    ensures Reasoned(out') == Reasoned(out) + reasoning && out <= out'
  {
    hide Reasoned;
    var said := out + reasoning + more;
    assert forall i :: 0 <= i < |out'| - |said| ==> out'[|said|..][i] == out'[|said| + i];
    assert forall e :: e in out'[|said|..] ==> !Structured(e);
    hide Structured;
    ReasonedMore(out, reasoning);
    Unreasoned(out + reasoning, more);
    Unreasoned(said, out'[|said|..]);
    assert out' == said + out'[|said|..];
  }

  lemma ToolsQuiet(fs: seq<Fragment>, order: seq<string>, accs: map<string, Accumulator>, active: Option<string>,
                   out: seq<LlmEvent>, more: seq<LlmEvent>)
    requires Tools(fs, order, accs, active, out) && forall e :: e in more ==> Quiet(e)
    ensures Tools(fs, order, accs, active, out + more)
  {
    hide AccumulatorsOk, Grammatical, Started, DeltasOf, FirstSeen, ArgumentsOf;
    QuietEvents(out, more);
  }

  /** One chunk with a delta: reasoning, then content through the filter, then tool-call fragments. */
  method HandleDelta(filter: F.ThinkTagContentFilter, d: Delta, order: seq<string>, accs: map<string, Accumulator>,
                     active: Option<string>, out: seq<LlmEvent>, ghost fs: seq<Fragment>, ghost content: string)
    returns (order': seq<string>, accs': map<string, Accumulator>, active': Option<string>, out': seq<LlmEvent>,
             failed: bool, routed: nat)
    requires filter.Valid() && Tools(fs, order, accs, active, out)
    requires TextOk(filter.lower, content, filter.buffer, filter.inside, out)
    modifies filter
    ensures filter.Valid() && routed <= |d.toolCalls| && out <= out'
    ensures Tools(fs + d.toolCalls[..routed], order', accs', active', out')
    ensures TextOk(filter.lower, content + d.content, filter.buffer, filter.inside, out')
    ensures forall f :: f in d.toolCalls[..routed] ==> !Unroutable(f)
    ensures if failed then routed < |d.toolCalls| && Unroutable(d.toolCalls[routed]) else routed == |d.toolCalls|
    ensures Reasoned(out') == Reasoned(out) + ReasoningEvents(d)
    // first the reasoning, then the content, then the tool calls
    ensures exists m: nat :: |out| + |ReasoningEvents(d)| <= m <= |out'| && SaidInOrder(out, d, out', m)
  {
    hide Reasoned, ReasoningEvents, Structured, Adds, EventsOk, Unroutable;
    hide Visible, F.Absorb, F.Held, F.Shown, Grammatical, Started, DeltasOf, FirstSeen, ArgumentsOf, AccumulatorsOk;
    var reasoning := ReasoningEvents(d);
    VisibleAppend(out, reasoning);
    ToolsQuiet(fs, order, accs, active, out, reasoning);
    assert Visible(out + reasoning) == Visible(out) + [] == Visible(out);
    assert TextOk(filter.lower, content, filter.buffer, filter.inside, out + reasoning);
    var more := PassContent(filter, d.content, out + reasoning, content);
    ToolsQuiet(fs, order, accs, active, out + reasoning, more);
    order', accs', active', out', failed, routed :=
      RouteAll(d.toolCalls, order, accs, active, out + reasoning + more, fs);
    ReasonedInDelta(out, reasoning, more, out');
    OrderOfDelta(out, d, more, out');
  }

  /** The events of one chunk: its structured reasoning, content up to `m`, tool calls from there on. */
  predicate SaidInOrder(out: seq<LlmEvent>, d: Delta, out': seq<LlmEvent>, m: nat)
  {
    && out + ReasoningEvents(d) <= out'
    && (forall i :: |out| + |ReasoningEvents(d)| <= i < m && i < |out'| ==> Quiet(out'[i]) && !Structured(out'[i]))
    && (forall i :: m <= i < |out'| ==> out'[i].ToolCallStart? || out'[i].ToolCallDelta?)
  }

  lemma OrderOfDelta(out: seq<LlmEvent>, d: Delta, more: seq<LlmEvent>, out': seq<LlmEvent>)
    requires Adds(out + ReasoningEvents(d) + more, out')
    requires forall e :: e in more ==> Quiet(e) && !Structured(e)
    ensures var m := |out| + |ReasoningEvents(d)| + |more|;
      m <= |out'| && SaidInOrder(out, d, out', m)
  {
    hide ReasoningEvents, Structured, Quiet;
    var said := out + ReasoningEvents(d);
    assert out' == said + more + out'[|said + more|..];
    forall i | |said| <= i < |said| + |more| ensures Quiet(out'[i]) && !Structured(out'[i])
    {
      assert out'[i] == more[i - |said|];
    }
  }

  method DoneEvents(order: seq<string>, accs: map<string, Accumulator>, ghost fs: seq<Fragment>)
    returns (dones: seq<LlmEvent>)
    requires forall id :: id in order ==> id in accs && accs[id] == Accumulator(NameOf(fs, id), ArgumentsOf(fs, id))
    ensures dones == Dones(order, fs)
  {
    hide NameOf, ArgumentsOf;
    dones := [];
    for i := 0 to |order|
      invariant |dones| == i
      invariant forall k :: 0 <= k < i ==> dones[k] == Dones(order, fs)[k]
    {
      assert order[i] in order;
      dones := dones + [ToolCallDone(order[i], accs[order[i]].name, accs[order[i]].arguments)];
    }
  }

  /** Flushing the filter completes the reference scan of the content. */
  method FlushContent(filter: F.ThinkTagContentFilter, out: seq<LlmEvent>, ghost fs: seq<Fragment>,
                      ghost content: string)
    returns (core: seq<LlmEvent>)
    requires filter.Valid() && EventsOk(fs, out)
    requires TextOk(filter.lower, content, filter.buffer, filter.inside, out)
    modifies filter
    ensures EventsOk(fs, core) && Visible(core) == F.Scan(filter.lower, content, false)
    ensures out <= core && Reasoned(core) == Reasoned(out)
  {
    hide Reasoned;
    hide Visible, F.Absorb, F.Scan, F.Shown, F.Held, Grammatical, Started, DeltasOf, FirstSeen, ArgumentsOf;
    F.AbsorbRefinesScan(filter.lower, content, false);
    var last := filter.Flush();
    AllToLlmVisible(last);
    VisibleAppend(out, AllToLlm(last));
    QuietEvents(out, AllToLlm(last));
    Unreasoned(out, AllToLlm(last));
    core := out + AllToLlm(last);
  }

  /** The events after a finish reason: what the filter still held, every tool call, the stop, the usage. */
  method Close(filter: F.ThinkTagContentFilter, c: Chunk, order: seq<string>, accs: map<string, Accumulator>,
               active: Option<string>, out: seq<LlmEvent>, ghost fs: seq<Fragment>, ghost content: string)
    returns (out': seq<LlmEvent>, core: seq<LlmEvent>)
    requires filter.Valid() && Tools(fs, order, accs, active, out) && Closing(c)
    requires TextOk(filter.lower, content, filter.buffer, filter.inside, out)
    modifies filter
    ensures out' == core + ClosingEvents(fs, c)
    ensures EventsOk(fs, core) && Visible(core) == F.Scan(filter.lower, content, false)
    ensures out <= core && Reasoned(core) == Reasoned(out)
  {
    FirstSeenIsIds(fs);
    var dones := DoneEvents(order, accs, fs);
    hide Visible, F.Scan, TextOk, EventsOk, AccumulatorsOk, F.Held;
    core := FlushContent(filter, out, fs, content);
    out' := core + (dones + [MessageStop(StopReason(c.finish.value))] + UsageEvents(c.usage));
  }

  /** A chunk with a fragment the accumulators cannot take. */
  predicate Breaks(c: Chunk)
  {
    c.delta.Some? && exists f :: f in c.delta.value.toolCalls && Unroutable(f)
  }

  const LOOKUP_ERROR := ErrorData("KeyError", "''", true)

  /** Everything a finished stream says, against the chunks it consumed. */
  ghost predicate Complete(lower: char -> char, chunks: seq<Chunk>, core: seq<LlmEvent>, out: seq<LlmEvent>)
  {
    && chunks != [] && Closing(chunks[|chunks| - 1])
    && (forall f :: f in FragmentsOf(chunks) ==> !Unroutable(f))
    && EventsOk(FragmentsOf(chunks), core)
    && out == core + ClosingEvents(FragmentsOf(chunks), chunks[|chunks| - 1])
    && Visible(core) == F.Scan(lower, ContentOf(chunks), false)
    && Reasoned(core) == ReasoningOf(chunks)
  }

  /** What an unfinished stream has said: all but the possible tag prefix that the filter still holds. */
  ghost predicate SoFar(lower: char -> char, chunks: seq<Chunk>, core: seq<LlmEvent>)
  {
    && EventsOk(FragmentsOf(chunks), core)
    && Visible(core) == F.Shown(F.Absorb(lower, ContentOf(chunks), false).tokens)
    && Reasoned(core) == ReasoningOf(chunks)
  }

  /** What a stream has said when a fragment breaks the lookup: everything up to that fragment. */
  ghost predicate SoFarBroken(lower: char -> char, chunks: seq<Chunk>, core: seq<LlmEvent>)
    requires |chunks| > 0
  {
    var n := |chunks| - 1;
    && Breaks(chunks[n])
    && Visible(core) == F.Shown(F.Absorb(lower, ContentOf(chunks), false).tokens)
    && Reasoned(core) == ReasoningOf(chunks)
    && exists k: nat :: FirstBroken(chunks[n].delta.value.toolCalls, k) &&
                   EventsOk(FragmentsOf(chunks[..n]) + chunks[n].delta.value.toolCalls[..k], core)
  }

  /** Fragment `k` breaks the lookup, and none before it does. */
  predicate FirstBroken(fs: seq<Fragment>, k: nat)
  {
    k < |fs| && Unroutable(fs[k]) && forall f :: f in fs[..k] ==> !Unroutable(f)
  }

  /** What a client makes of a provider stream: `out` in all, `core` before the closing or error events, after
      reading `consumed` chunks and for the reason `ending`. */
  ghost predicate Produced(lower: char -> char, stream: seq<Chunk>, failure: Option<ErrorData>, out: seq<LlmEvent>,
                           core: seq<LlmEvent>, consumed: nat, ending: Ending)
  {
    && consumed <= |stream| && core <= out
    && (if consumed == 0 then core == []
        else core != [] && core[0] == MessageStart(stream[0].model) && Grammatical(core))
    && (forall i :: 0 <= i < consumed - 1 ==> !Closing(stream[i]) && !Breaks(stream[i]))
    && match ending
       case RanOut =>
         && failure.None? && consumed == |stream| && out == core
         && (consumed > 0 ==> !Closing(stream[consumed - 1]) && SoFar(lower, stream, core))
       case Failed =>
         || (consumed == |stream| && failure.Some? && out == core + [Error(failure.value)]
             && (consumed > 0 ==> SoFar(lower, stream, core)))
         || (consumed > 0 && out == core + [Error(ErrorData("KeyError", "''", true))] &&
             SoFarBroken(lower, stream[..consumed], core))
       case Finished =>
         Complete(lower, stream[..consumed], core, out)
  }

  /** Consume a provider stream after the connection is made. `failure` is the exception, if any, that
      reading past the last chunk raises. Besides the events sent: those before the closing or error events,
      how many chunks were read, and why no more were. */
  method StreamEvents(lower: char -> char, stream: seq<Chunk>, failure: Option<ErrorData>)
    returns (out: seq<LlmEvent>, core: seq<LlmEvent>, consumed: nat, ending: Ending)
    ensures Produced(lower, stream, failure, out, core, consumed, ending)
  {
    hide EventsOk, AccumulatorsOk, F.Absorb, F.Scan, F.Held, Visible, FragmentsOf, ContentOf, FirstSeen, TextOk,
         Unroutable, Grammatical, Reasoned, ReasoningOf, ReasoningEvents, F.Shown;
    var filter := new F.ThinkTagContentFilter(lower);
    out, core, consumed, ending := [], [], 0, RanOut;
    if stream != [] {
      out := [MessageStart(stream[0].model)];
      StreamStarts(lower, stream[0].model);
      NothingReasoned(stream[0].model);
      var order, accs, active := [], map[], None;
      ghost var fs, content := [], "";
      core := out;
      assert stream[..0] == [];
      for i := 0 to |stream|
        invariant filter.Valid() && fresh(filter) && filter.lower == lower
        invariant consumed == i && core == out && out != [] && out[0] == MessageStart(stream[0].model)
        invariant Tools(fs, order, accs, active, out)
        invariant TextOk(lower, content, filter.buffer, filter.inside, out)
        invariant fs == FragmentsOf(stream[..i]) && content == ContentOf(stream[..i])
        invariant Reasoned(out) == ReasoningOf(stream[..i])
        invariant forall f :: f in fs ==> !Unroutable(f)
        invariant forall k :: 0 <= k < i ==> !Closing(stream[k]) && !Breaks(stream[k])
      {
        var c := stream[i];
        assert stream[..i + 1] == stream[..i] + [c];
        OneMoreChunk(stream[..i], c);
        consumed := i + 1;
        if c.delta.None? {
          assert fs + [] == fs && content + "" == content && Reasoned(out) + [] == Reasoned(out);
          continue;
        }
        var d := c.delta.value;
        var failed, routed;
        order, accs, active, out, failed, routed := HandleDelta(filter, d, order, accs, active, out, fs, content);
        fs, content, core := fs + d.toolCalls[..routed], content + d.content, out;
        if failed {
          EventsAreGrammatical(fs, core);
          TextShown(lower, content, filter.buffer, filter.inside, out);
          BrokenHere(lower, stream[..i], c, routed, core);
          out, ending := out + [Error(LOOKUP_ERROR)], Failed;
          return;
        }
        assert d.toolCalls[..routed] == d.toolCalls;
        if c.finish.Some? {
          out, core := Close(filter, c, order, accs, active, out, fs, content);
          EventsAreGrammatical(fs, core);
          ending := Finished;
          return;
        }
      }
      EventsAreGrammatical(fs, core);
      assert stream[..|stream|] == stream;
      TextShown(lower, content, filter.buffer, filter.inside, out);
    }
    if failure.Some? {
      out, ending := out + [Error(failure.value)], Failed;
    }
  }

  /** At the finish every started call is done exactly once, in first-seen order, with exactly the
      arguments its deltas carried. */
  lemma DonesMatchDeltas(fs: seq<Fragment>, core: seq<LlmEvent>)
    requires EventsOk(fs, core)
    ensures var ids, dones := Started(core), Dones(FirstSeen(fs), fs);
      && Distinct(ids) && |dones| == |ids|
      && forall i :: 0 <= i < |ids| ==> DoneFor(dones[i], ids[i], DeltasOf(core, ids[i]))
  {
    hide Started, DeltasOf, ArgumentsOf, NameOf, FirstSeen, Grammatical;
    FirstSeenIsIds(fs);
    KnownIdsAreNonEmpty(fs);
    var ids := FirstSeen(fs);
    forall i | 0 <= i < |ids| ensures DoneFor(Dones(ids, fs)[i], ids[i], DeltasOf(core, ids[i]))
    {
      assert ids[i] in ids;
    }
  }

  /** Before the finish there is no done, stop, error or usage event, so the closing events are the only
      ones; among them usage comes only after the stop. */
  lemma UsageFollowsStop(fs: seq<Fragment>, core: seq<LlmEvent>, c: Chunk)
    requires Grammatical(core) && Closing(c)
    ensures var out := core + ClosingEvents(fs, c);
      && (forall i :: 0 <= i < |core| ==> !core[i].ToolCallDone? && !core[i].Terminal() && !core[i].Usage?)
      && (forall i :: 0 <= i < |out| && out[i].Usage? ==> exists j :: 0 <= j < i && out[j].MessageStop?)
  {
    hide Started, FirstSeen, NameOf, ArgumentsOf;
    var out, dones := core + ClosingEvents(fs, c), Dones(FirstSeen(fs), fs);
    assert out[|core| + |dones|].MessageStop?;
    assert forall i :: |core| <= i < |core| + |dones| ==> out[i] == dones[i - |core|];
  }

  // ----- the same in plain terms -----

  /** What the stop says, and the figures after it. */
  lemma StopTells(fs: seq<Fragment>, c: Chunk)
    requires Closing(c)
    ensures var closing, n := ClosingEvents(fs, c), |FirstSeen(fs)|;
      && n < |closing| && closing[n].MessageStop?
      && (forall i :: 0 <= i < n ==> closing[i].ToolCallDone?)
      && (closing[n].stopReason == "end_turn" <==> c.finish == Some("stop"))
      && (closing[n].stopReason == "tool_call" <==> c.finish == Some("tool_calls"))
      && (closing[n].stopReason == "max_tokens" <==> c.finish == Some("length"))
      && (closing[n].stopReason == "content_filter" <==> c.finish == Some("content_filter"))
      && (closing[n].stopReason == "unknown" <==>
            c.finish.value !in {"stop", "tool_calls", "length", "content_filter"})
      && closing[n + 1..] ==
           if c.usage.Some? then [Usage(c.usage.value.inputTokens, c.usage.value.outputTokens)] else []
  {
    hide FirstSeen, NameOf, ArgumentsOf;
  }

  /** The text sent under one reasoning field. */
  function Said(out: seq<LlmEvent>, field: string): string
  {
    if out == [] then ""
    else
      var last := out[|out| - 1];
      Said(out[..|out| - 1], field) + if last.ReasoningDelta? && last.field == field then last.reasoning else ""
  }

  function TextSaid(out: seq<LlmEvent>): string
  {
    if out == [] then ""
    else
      var last := out[|out| - 1];
      TextSaid(out[..|out| - 1]) + if last.TextDelta? then last.delta else ""
  }

  /** The characters of one side, in order. */
  function SideOf(labels: seq<F.Labelled>, reasoning: bool): string
  {
    if labels == [] then ""
    else
      var last := labels[|labels| - 1];
      SideOf(labels[..|labels| - 1], reasoning) + if last.reasoning == reasoning then [last.c] else ""
  }

  lemma {:induction false} SideOfAppend(a: seq<F.Labelled>, b: seq<F.Labelled>, reasoning: bool)
    ensures SideOf(a + b, reasoning) == SideOf(a, reasoning) + SideOf(b, reasoning)
  {
    if |b| == 0 {
      assert a + b == a;
    } else {
      var n := |b| - 1;
      assert (a + b)[..|a + b| - 1] == a + b[..n];
      SideOfAppend(a, b[..n], reasoning);
      Assoc(SideOf(a, reasoning), SideOf(b[..n], reasoning), if b[n].reasoning == reasoning then [b[n].c] else "");
    }
  }

  lemma {:induction false} SideOfLabel(text: string, side: bool, reasoning: bool)
    ensures SideOf(F.Label(text, side), reasoning) == if side == reasoning then text else ""
  {
    if |text| > 0 {
      var n := |text| - 1;
      SideOfLabel(text[..n], side, reasoning);
      assert F.Label(text, side)[..n] == F.Label(text[..n], side);
      assert text == text[..n] + [text[n]];
    }
  }

  /** Text events carry the visible side of the content, reasoning events of the think field the other one. */
  lemma {:induction false} SidesSaid(out: seq<LlmEvent>)
    ensures TextSaid(out) == SideOf(Visible(out), false)
    ensures Said(out, "content_think_tag") == SideOf(Visible(out), true)
  {
    if |out| > 0 {
      hide F.Label, SideOf;
      var n := |out| - 1;
      SidesSaid(out[..n]);
      SideOfAppend(Visible(out[..n]), VisibleOf(out[n]), false);
      SideOfAppend(Visible(out[..n]), VisibleOf(out[n]), true);
      NoLabels();
      match out[n]
      case TextDelta(t) =>
        SideOfLabel(t, false, false);
        SideOfLabel(t, false, true);
      case ReasoningDelta(_, t) =>
        SideOfLabel(t, true, false);
        SideOfLabel(t, true, true);
      case _ =>
    }
  }

  lemma NoLabels()
    ensures SideOf([], false) == SideOf([], true) == ""
  {
  }

  /** What the chunks say in one place of their deltas, joined. */
  function Given(chunks: seq<Chunk>, text: Delta -> string): string
  {
    Concat(Mapped(chunks, (c: Chunk) => if c.delta.Some? then text(c.delta.value) else ""))
  }

  /** The provider's reasoning fields come out under their own names, complete and in order. */
  lemma ReasoningSaid(chunks: seq<Chunk>)
    ensures Said(ReasoningOf(chunks), "reasoning") == Given(chunks, (d: Delta) => d.reasoning)
    ensures Said(ReasoningOf(chunks), "reasoning_content") == Given(chunks, (d: Delta) => d.reasoningContent)
    ensures Said(ReasoningOf(chunks), "thinking") == Given(chunks, (d: Delta) => d.thinking)
  {
    forall d: Delta
      ensures Said(ReasoningEvents(d), "reasoning") == d.reasoning
      ensures Said(ReasoningEvents(d), "reasoning_content") == d.reasoningContent
      ensures Said(ReasoningEvents(d), "thinking") == d.thinking
    {
      OneDeltaSaid(d);
    }
    hide Said, ReasoningOf, ReasoningEvents, Given;
    FieldGiven(chunks, "reasoning", (d: Delta) => d.reasoning);
    FieldGiven(chunks, "reasoning_content", (d: Delta) => d.reasoningContent);
    FieldGiven(chunks, "thinking", (d: Delta) => d.thinking);
  }

  lemma {:induction false} FieldGiven(chunks: seq<Chunk>, field: string, text: Delta -> string)
    requires forall d :: Said(ReasoningEvents(d), field) == text(d)
    ensures Said(ReasoningOf(chunks), field) == Given(chunks, text)
  {
    if |chunks| > 0 {
      hide Said, ReasoningOf, ReasoningEvents, Given;
      var n := |chunks| - 1;
      FieldGiven(chunks[..n], field, text);
      OneMoreChunk(chunks[..n], chunks[n]);
      assert chunks == chunks[..n] + [chunks[n]];
      GivenMore(chunks[..n], chunks[n], text);
      if chunks[n].delta.Some? {
        SaidAppend(ReasoningOf(chunks[..n]), ReasoningEvents(chunks[n].delta.value), field);
      } else {
        assert ReasoningOf(chunks[..n]) + [] == ReasoningOf(chunks[..n]);
      }
    }
  }

  lemma GivenMore(chunks: seq<Chunk>, c: Chunk, text: Delta -> string)
    ensures Given(chunks + [c], text) == Given(chunks, text) + if c.delta.Some? then text(c.delta.value) else ""
  {
    var say := (c: Chunk) => if c.delta.Some? then text(c.delta.value) else "";
    MappedAppend(chunks, [c], say);
    ConcatOne(Mapped(chunks, say), say(c));
    assert Mapped([c], say) == [say(c)];
  }

  lemma {:induction false} SaidAppend(a: seq<LlmEvent>, b: seq<LlmEvent>, field: string)
    ensures Said(a + b, field) == Said(a, field) + Said(b, field)
  {
    if |b| == 0 {
      assert a + b == a;
    } else {
      var n := |b| - 1;
      assert (a + b)[..|a + b| - 1] == a + b[..n];
      SaidAppend(a, b[..n], field);
      Assoc(Said(a, field), Said(b[..n], field),
            if b[n].ReasoningDelta? && b[n].field == field then b[n].reasoning else "");
    }
  }

  /** One delta: an event for each field that is not empty, in this order. */
  lemma OneDeltaSaid(d: Delta)
    ensures Said(ReasoningEvents(d), "reasoning") == d.reasoning
    ensures Said(ReasoningEvents(d), "reasoning_content") == d.reasoningContent
    ensures Said(ReasoningEvents(d), "thinking") == d.thinking
    ensures |d.reasoning| > 0 && |d.reasoningContent| > 0 && |d.thinking| > 0 ==>
      ReasoningEvents(d) == [ReasoningDelta("reasoning", d.reasoning),
                             ReasoningDelta("reasoning_content", d.reasoningContent),
                             ReasoningDelta("thinking", d.thinking)]
    ensures forall e :: e in ReasoningEvents(d) ==> e.ReasoningDelta? && |e.reasoning| > 0
  {
    hide Said;
    SaidInDelta(d, "reasoning");
    SaidInDelta(d, "reasoning_content");
    SaidInDelta(d, "thinking");
  }

  lemma SaidInDelta(d: Delta, field: string)
    ensures Said(ReasoningEvents(d), field) ==
      (if "reasoning" == field then d.reasoning else "") +
      (if "reasoning_content" == field then d.reasoningContent else "") +
      if "thinking" == field then d.thinking else ""
  {
    hide Said, ReasoningEvent;
    var r1 := ReasoningEvent("reasoning", d.reasoning);
    var r2 := ReasoningEvent("reasoning_content", d.reasoningContent);
    var r3 := ReasoningEvent("thinking", d.thinking);
    FieldSaid("reasoning", d.reasoning);
    FieldSaid("reasoning_content", d.reasoningContent);
    FieldSaid("thinking", d.thinking);
    SaidAppend(r1, r2, field);
    SaidAppend(r1 + r2, r3, field);
  }

  lemma FieldSaid(field: string, text: string)
    requires field != CONTENT_THINK_FIELD
    ensures forall g :: Said(ReasoningEvent(field, text), g) == if g == field then text else ""
    ensures forall e :: e in ReasoningEvent(field, text) ==> e.ReasoningDelta? && |e.reasoning| > 0
  {
    var r := ReasoningEvent(field, text);
    if |r| > 0 {
      assert r[..0] == [];
    }
  }

  /** Everything a finished stream has told, in plain terms: the visible content, the content inside think
      markup, and the provider's reasoning fields. */
  lemma StreamTells(lower: char -> char, chunks: seq<Chunk>, core: seq<LlmEvent>, out: seq<LlmEvent>)
    requires Complete(lower, chunks, core, out)
    ensures var sides := F.Scan(lower, Given(chunks, (d: Delta) => d.content), false);
      TextSaid(core) == SideOf(sides, false) && Said(core, "content_think_tag") == SideOf(sides, true)
    ensures Said(core, "reasoning") == Given(chunks, (d: Delta) => d.reasoning)
    ensures Said(core, "reasoning_content") == Given(chunks, (d: Delta) => d.reasoningContent)
    ensures Said(core, "thinking") == Given(chunks, (d: Delta) => d.thinking)
  {
    hide Visible, F.Scan, Given, Said, TextSaid, SideOf, Reasoned, ReasoningOf, EventsOk, ContentOf, ClosingEvents;
    SidesSaid(core);
    ContentGiven(chunks);
    ReasoningSaid(chunks);
    StructuredSaid(core, "reasoning");
    StructuredSaid(core, "reasoning_content");
    StructuredSaid(core, "thinking");
  }

  lemma {:induction false} ContentGiven(chunks: seq<Chunk>)
    ensures ContentOf(chunks) == Given(chunks, (d: Delta) => d.content)
  {
    if |chunks| > 0 {
      hide ContentOf, Given;
      var n := |chunks| - 1;
      ContentGiven(chunks[..n]);
      assert chunks == chunks[..n] + [chunks[n]];
      OneMoreChunk(chunks[..n], chunks[n]);
      GivenMore(chunks[..n], chunks[n], (d: Delta) => d.content);
    }
  }

  lemma {:induction false} StructuredSaid(out: seq<LlmEvent>, field: string)
    requires field != "content_think_tag"
    ensures Said(out, field) == Said(Reasoned(out), field)
  {
    if |out| > 0 {
      hide Said, Reasoned;
      var n := |out| - 1;
      StructuredSaid(out[..n], field);
      assert out == out[..n] + [out[n]];
      SaidAppend(out[..n], [out[n]], field);
      if Structured(out[n]) {
        ReasonedMore(out[..n], [out[n]]);
        SaidAppend(Reasoned(out[..n]), [out[n]], field);
      } else {
        Unreasoned(out[..n], [out[n]]);
        NotSaid(out[n], field);
      }
    }
  }

  lemma NotSaid(e: LlmEvent, field: string)
    requires !Structured(e) && field != "content_think_tag"
    ensures Said([e], field) == ""
  {
    assert [e][..0] == [];
  }

  /** Fragment `i` brings in an id that no fragment before it carries. */
  predicate Introduces(fs: seq<Fragment>, i: nat)
    requires i < |fs|
  {
    fs[i].id.Some? && fs[i].id.value != "" && forall j :: 0 <= j < i ==> fs[j].id != fs[i].id
  }

  /** Fragments without an id belong to the call introduced last. */
  lemma {:induction false} NewestIs(fs: seq<Fragment>, k: nat)
    requires forall i :: k < i < |fs| ==> !Introduces(fs, i)
    requires k < |fs| ==> Introduces(fs, k)
    requires k >= |fs| ==> forall i :: 0 <= i < |fs| ==> !Introduces(fs, i)
    ensures Newest(fs) == if k < |fs| then fs[k].id else None
  {
    if |fs| > 0 {
      var n := |fs| - 1;
      NewAt(fs);
      IntroducedEarlier(fs);
      if !Introduces(fs, n) {
        forall i | 0 <= i < n ensures Introduces(fs[..n], i) <==> Introduces(fs, i)
        {
        }
        NewestIs(fs[..n], if k < |fs| then k else n);
      }
    }
  }

  lemma NewAt(fs: seq<Fragment>)
    requires |fs| > 0
    ensures var n := |fs| - 1;
      Introduces(fs, n) <==> fs[n].id.Some? && fs[n].id.value != "" && fs[n].id.value !in Ids(fs[..n])
  {
    var n := |fs| - 1;
    var before := fs[..n];
    if fs[n].id.Some? && fs[n].id.value != "" {
      forall j | 0 <= j < n && fs[j].id == fs[n].id ensures fs[n].id.value in Ids(before)
      {
        assert before[j] in before;
      }
    }
  }

  lemma IntroducedEarlier(fs: seq<Fragment>)
    requires |fs| > 0
    ensures forall i :: 0 <= i < |fs| - 1 ==> (Introduces(fs[..|fs| - 1], i) <==> Introduces(fs, i))
  {
  }

  /** Calls are listed in the order in which they are introduced. */
  lemma {:induction false} IntroducedInOrder(fs: seq<Fragment>)
    returns (at: seq<nat>)
    ensures |at| == |FirstSeen(fs)| && forall k :: 0 <= k < |at| ==> at[k] < |fs|
    ensures forall k :: 0 <= k < |at| ==> Introduces(fs, at[k]) && fs[at[k]].id == Some(FirstSeen(fs)[k])
    ensures forall j, k :: 0 <= j < k < |at| ==> at[j] < at[k]
    ensures forall i :: 0 <= i < |fs| && Introduces(fs, i) ==> i in at
  {
    at := [];
    if |fs| > 0 {
      var n := |fs| - 1;
      var before := IntroducedInOrder(fs[..n]);
      NewAt(fs);
      IntroducedEarlier(fs);
      at := before + if Introduces(fs, n) then [n] else [];
    }
  }

  /** Fragment `i` is part of the call. */
  predicate PartOf(fs: seq<Fragment>, i: nat, id: string)
    requires i < |fs|
  {
    fs[i].id == Some(id) || (fs[i].id.None? && Newest(fs[..i]) == Some(id))
  }

  /** A call is named by the first of its fragments that has a name. */
  lemma {:induction false} NamedByFirst(fs: seq<Fragment>, id: string, k: nat)
    requires forall i :: 0 <= i < k && i < |fs| && PartOf(fs, i, id) ==> fs[i].name == ""
    requires k < |fs| ==> PartOf(fs, k, id) && fs[k].name != ""
    ensures NameOf(fs, id) == if k < |fs| then fs[k].name else ""
  {
    if |fs| > 0 {
      var n := |fs| - 1;
      assert forall i :: 0 <= i < n ==> fs[..n][..i] == fs[..i];
      assert forall i :: 0 <= i < n ==> (PartOf(fs[..n], i, id) <==> PartOf(fs, i, id));
      NamedByFirst(fs[..n], id, k);
    }
  }

  /** A call's arguments are those of its fragments, joined. */
  lemma {:induction false} ArgumentsJoined(fs: seq<Fragment>, id: string, parts: seq<string>)
    requires |parts| == |fs|
    requires forall i :: 0 <= i < |fs| ==> parts[i] == if PartOf(fs, i, id) then fs[i].arguments else ""
    ensures ArgumentsOf(fs, id) == Concat(parts)
  {
    if |fs| > 0 {
      hide Concat;
      var n := |fs| - 1;
      assert forall i :: 0 <= i < n ==> fs[..n][..i] == fs[..i];
      ArgumentsJoined(fs[..n], id, parts[..n]);
      assert parts == parts[..n] + [parts[n]];
      ConcatOne(parts[..n], parts[n]);
    }
  }

  predicate DoneFor(e: LlmEvent, id: string, arguments: string)
  {
    e.ToolCallDone? && e.id == id && e.rawArguments == arguments
  }

  lemma KnownIdsAreNonEmpty(fs: seq<Fragment>)
    ensures forall id :: id in Ids(fs) ==> |id| > 0
  {
  }
}
