/**
  Server-sent events: the server's printer and the browser's incremental parser.
  The wire format is that of section 9.2 of the WHATWG HTML Living Standard, as far as
  this printer uses it. Text is a sequence of characters; payloads are JSON text.
 */
module Sse {
  import opened Text

  /** The names of the events the server can send. */
  predicate ServerName(name: string)
  {
    name in [
      "llm_input", "stage_transition", "text_delta", "reasoning_observed", "reasoning_leak_detected", "runtime_state",
      "tool_call", "tool_result", "retrieval_context", "assistant_action", "needs_clarification", "evidence",
      "wiki_scope_resolution", "scope_detection", "sufficiency_judgement", "ask_user", "done", "error"]
  }

  /** The browser dispatches exactly the events that the server names. */
  lemma SameNames(name: string)
    ensures KnownName(name) <==> ServerName(name)
  {
  }

  /** The event names the browser lists. */
  predicate KnownName(name: string)
  {
    || name == "llm_input" || name == "stage_transition" || name == "text_delta"
    || name == "reasoning_observed" || name == "reasoning_leak_detected" || name == "runtime_state"
    || name == "tool_call" || name == "tool_result" || name == "retrieval_context"
    || name == "assistant_action" || name == "needs_clarification" || name == "evidence"
    || name == "wiki_scope_resolution" || name == "scope_detection" || name == "sufficiency_judgement"
    || name == "ask_user" || name == "done" || name == "error"
  }

  datatype AgentEvent = AgentEvent(name: string, payload: string)

  // ----- printer -----

  function Block(e: AgentEvent): string
  {
    "event: " + e.name + "\ndata: " + e.payload
  }

  function Format(e: AgentEvent): string
  {
    Block(e) + "\n\n"
  }

  function FormatAll(es: seq<AgentEvent>): string
  {
    if es == [] then "" else Format(es[0]) + FormatAll(es[1..])
  }

  // ----- parser -----

  /** What the browser's trim functions remove. */
  predicate JsSpace(c: char)
  {
    || '\t' <= c <= '\r' || c == ' ' || c == '\U{00A0}' || c == '\U{1680}' || '\U{2000}' <= c <= '\U{200A}'
    || c == '\U{2028}' || c == '\U{2029}' || c == '\U{202F}' || c == '\U{205F}' || c == '\U{3000}' || c == '\U{FEFF}'
  }

  /** White space and line terminators of ECMAScript. */
  lemma BrowserSpace(c: char)
    ensures JsSpace(c) <==>
      c as int in {9, 10, 11, 12, 13, 32, 160, 5760, 8192, 8193, 8194, 8195, 8196, 8197, 8198, 8199, 8200, 8201, 8202,
                   8232, 8233, 8239, 8287, 12288, 65279}
  {
  }

  predicate StartsWith(s: string, prefix: string)
  {
    |prefix| <= |s| && s[..|prefix|] == prefix
  }

  /** Lines end in a newline, optionally preceded by one carriage return. */
  function SplitLines(s: string): seq<string>
    decreases |s|
  {
    var i := Find(s, "\n");
    if i == -1 then [s]
    else [if i > 0 && s[i - 1] == '\r' then s[..i - 1] else s[..i]] + SplitLines(s[i + 1..])
  }

  datatype Fields = Fields(name: Option<string>, dataLines: seq<string>)

  function ReadLine(f: Fields, rawLine: string): Fields
  {
    var line := TrimEnd(rawLine, JsSpace);
    if StartsWith(line, "event:") then
      var name := Trim(line[|"event:"|..], JsSpace);
      f.(name := if KnownName(name) then Some(name) else None)
    else if StartsWith(line, "data:") then
      f.(dataLines := f.dataLines + [TrimStart(line[|"data:"|..], JsSpace)])
    else f
  }

  function ReadLines(f: Fields, lines: seq<string>): Fields
    decreases |lines|
  {
    if lines == [] then f else ReadLines(ReadLine(f, lines[0]), lines[1..])
  }

  function EventOf(f: Fields): Option<AgentEvent>
  {
    if f.name.None? then None else Some(AgentEvent(f.name.value, Join(f.dataLines, "\n")))
  }

  function ParseBlock(block: string): Option<AgentEvent>
  {
    EventOf(ReadLines(Fields(None, []), SplitLines(block)))
  }

  datatype Drained = Drained(events: seq<AgentEvent>, rest: string)

  /** Dispatch every complete block; what follows the last blank line stays. */
  function Drain(buffer: string): Drained
    decreases |buffer|
  {
    var i := Find(buffer, "\n\n");
    if i == -1 then Drained([], buffer)
    else
      Dispatch(ParseBlock(buffer[..i]), Drain(buffer[i + 2..]))
  }

  function Dispatch(e: Option<AgentEvent>, d: Drained): Drained
  {
    Drained((if e.Some? then [e.value] else []) + d.events, d.rest)
  }

  // ----- chunking -----

  lemma FindInPrefix(a: string, b: string)
    requires Find(a, "\n\n") != -1
    ensures Find(a + b, "\n\n") == Find(a, "\n\n")
  {
    var i := Find(a, "\n\n");
    assert (a + b)[i..i + 2] == a[i..i + 2];
    forall j | 0 <= j < i ensures !At(a + b, "\n\n", j)
    {
      assert (a + b)[j..j + 2] == a[j..j + 2];
      assert !At(a, "\n\n", j);
    }
    FindIs(a + b, "\n\n", i);
  }

  lemma DrainStep(s: string)
    ensures var i := Find(s, "\n\n");
      && (i == -1 ==> Drain(s) == Drained([], s))
      && (i != -1 ==> 0 <= i && i + 2 <= |s| && Drain(s) == Dispatch(ParseBlock(s[..i]), Drain(s[i + 2..])))
  {
    hide ParseBlock, Find, At, Dispatch;
  }

  /** Draining piece by piece, keeping the rest, dispatches the same events as draining at once. */
  lemma {:induction false} DrainAppend(a: string, b: string)
    ensures var d := Drain(a);
      var e := Drain(d.rest + b);
      Drain(a + b) == Drained(d.events + e.events, e.rest)
    decreases |a|
  {
    hide ParseBlock, Drain, Find;
    DrainStep(a);
    var i := Find(a, "\n\n");
    if i == -1 {
      assert [] + Drain(a + b).events == Drain(a + b).events;
    } else {
      DrainStep(a + b);
      FindInPrefix(a, b);
      assert (a + b)[..i] == a[..i] && (a + b)[i + 2..] == a[i + 2..] + b;
      DrainAppend(a[i + 2..], b);
    }
  }

  // ----- one event -----

  predicate Plain(name: string)
  {
    |name| > 0 && forall i :: 0 <= i < |name| ==> 'a' <= name[i] <= 'z' || name[i] == '_'
  }

  /** The shape of a JSON object printed on one line: no line breaks, no blank at either end. */
  predicate SingleLine(payload: string)
  {
    && |payload| > 0 && !JsSpace(payload[0]) && !JsSpace(payload[|payload| - 1])
    && forall i :: 0 <= i < |payload| ==> payload[i] != '\n' && payload[i] != '\r'
  }

  predicate Printable(e: AgentEvent)
  {
    ServerName(e.name) && SingleLine(e.payload)
  }

  lemma NamesArePlain(name: string)
    requires KnownName(name)
    ensures Plain(name)
  {
    NamesArePlain1();
    NamesArePlain2();
    NamesArePlain3();
    hide Plain;
  }

  lemma NamesArePlain1()
    ensures Plain("llm_input") && Plain("stage_transition") && Plain("text_delta")
    ensures Plain("reasoning_observed") && Plain("reasoning_leak_detected") && Plain("runtime_state")
  {
  }

  lemma NamesArePlain2()
    ensures Plain("tool_call") && Plain("tool_result") && Plain("retrieval_context")
    ensures Plain("assistant_action") && Plain("needs_clarification") && Plain("evidence")
  {
  }

  lemma NamesArePlain3()
    ensures Plain("wiki_scope_resolution") && Plain("scope_detection") && Plain("sufficiency_judgement")
    ensures Plain("ask_user") && Plain("done") && Plain("error")
  {
  }

  lemma NewlineAt(s: string, i: int)
    requires At(s, "\n", i)
    ensures 0 <= i < |s| && s[i] == '\n'
  {
    assert s[i..i + 1][0] == s[i];
  }

  lemma NoNewline(s: string)
    requires forall i :: 0 <= i < |s| ==> s[i] != '\n'
    ensures Find(s, "\n") == -1
  {
    hide Find, At;
    var i := Find(s, "\n");
    if i >= 0 {
      NewlineAt(s, i);
    }
  }

  lemma OneLine(s: string)
    requires forall i :: 0 <= i < |s| ==> s[i] != '\n'
    ensures SplitLines(s) == [s]
  {
    hide Find, At;
    NoNewline(s);
  }

  lemma FirstNewline(a: string, b: string)
    requires forall i :: 0 <= i < |a| ==> a[i] != '\n'
    ensures Find(a + "\n" + b, "\n") == |a|
  {
    var s := a + "\n" + b;
    assert forall i :: At(s, "\n", i) ==> s[i] == '\n';
    assert s[|a|..|a| + 1] == "\n";
    FindIs(s, "\n", |a|);
  }

  lemma SplitStep(s: string)
    requires Find(s, "\n") != -1
    ensures var i := Find(s, "\n");
      SplitLines(s) == [if i > 0 && s[i - 1] == '\r' then s[..i - 1] else s[..i]] + SplitLines(s[i + 1..])
  {
    hide Find, At;
  }

  lemma TwoLines(a: string, b: string)
    requires forall i :: 0 <= i < |a| ==> a[i] != '\n' && a[i] != '\r'
    requires forall i :: 0 <= i < |b| ==> b[i] != '\n'
    ensures SplitLines(a + "\n" + b) == [a, b]
  {
    hide Find, At, SplitLines;
    var s := a + "\n" + b;
    FirstNewline(a, b);
    assert s[..|a|] == a && s[|a| + 1..] == b;
    assert |a| > 0 ==> s[|a| - 1] == a[|a| - 1];
    OneLine(b);
    SplitStep(s);
  }

  /** Trimming at the end leaves text alone that does not end in a blank. */
  lemma NothingToTrim(s: string)
    requires |s| > 0 && !JsSpace(s[|s| - 1])
    ensures TrimEnd(s, JsSpace) == s && (!JsSpace(s[0]) ==> TrimStart(s, JsSpace) == s)
    ensures !JsSpace(s[0]) ==> TrimStart(" " + s, JsSpace) == s
  {
    assert (" " + s)[1..] == s;
  }

  lemma ReadEventLine(name: string, f: Fields)
    requires Plain(name)
    ensures ReadLine(f, "event: " + name) == f.(name := if KnownName(name) then Some(name) else None)
  {
    hide KnownName;
    var line := "event: " + name;
    NothingToTrim(line);
    assert line[..|"event:"|] == "event:" && line[|"event:"|..] == " " + name;
    NothingToTrim(name);
  }

  lemma ReadDataLine(payload: string, f: Fields)
    requires SingleLine(payload)
    ensures ReadLine(f, "data: " + payload) == f.(dataLines := f.dataLines + [payload])
  {
    hide KnownName;
    var line := "data: " + payload;
    NothingToTrim(line);
    assert line[..|"data:"|] == "data:" && line[|"data:"|..] == " " + payload;
    assert !StartsWith(line, "event:") by {
      assert line[0] != "event:"[0];
    }
    NothingToTrim(payload);
  }

  lemma PrintableShape(e: AgentEvent)
    requires Printable(e)
    ensures KnownName(e.name) && Plain(e.name) && SingleLine(e.payload)
  {
    SameNames(e.name);
    NamesArePlain(e.name);
  }

  lemma ParsePrinted(e: AgentEvent)
    requires Printable(e)
    ensures ParseBlock(Block(e)) == Some(e)
  {
    hide ReadLine, KnownName, Printable;
    PrintableShape(e);
    var first, second := "event: " + e.name, "data: " + e.payload;
    assert Block(e) == first + "\n" + second;
    TwoLines(first, second);
    ReadEventLine(e.name, Fields(None, []));
    ReadDataLine(e.payload, Fields(Some(e.name), []));
    var lines := [first, second];
    assert lines[1..] == [second] && [second][1..] == [];
    assert ReadLines(Fields(None, []), lines) == ReadLines(Fields(Some(e.name), []), [second]);
    assert ReadLines(Fields(Some(e.name), []), [second]) == ReadLines(Fields(Some(e.name), [] + [e.payload]), []);
    assert [] + [e.payload] == [e.payload];
  }

  /** A line and the text after it; the line may end in a carriage return as well. */
  lemma FirstLine(line: string, rest: string)
    requires forall i :: 0 <= i < |line| ==> line[i] != '\n' && line[i] != '\r'
    ensures SplitLines(line + "\n" + rest) == [line] + SplitLines(rest)
    ensures SplitLines(line + "\r\n" + rest) == [line] + SplitLines(rest)
  {
    hide Find, At, SplitLines;
    LineTo(line, rest);
    LineTo(line + "\r", rest);
    assert (line + "\r")[..|line|] == line;
    assert line + "\r" + "\n" + rest == line + "\r\n" + rest;
  }

  lemma LineTo(line: string, rest: string)
    requires forall i :: 0 <= i < |line| ==> line[i] != '\n'
    ensures var n := |line|;
      SplitLines(line + "\n" + rest) ==
        [if n > 0 && line[n - 1] == '\r' then line[..n - 1] else line] + SplitLines(rest)
  {
    hide Find, At, SplitLines;
    var s, n := line + "\n" + rest, |line|;
    FirstNewline(line, rest);
    assert s[..n] == line && s[n + 1..] == rest;
    assert n > 0 ==> s[n - 1] == line[n - 1] && s[..n - 1] == line[..n - 1];
    SplitStep(s);
  }

  /** The data lines of an event, one field each. */
  function DataText(lines: seq<string>): string
    requires |lines| > 0
  {
    if |lines| == 1 then "data: " + lines[0] else "data: " + lines[0] + "\n" + DataText(lines[1..])
  }

  lemma ReadLinesCons(f: Fields, line: string, more: seq<string>)
    ensures ReadLines(f, [line] + more) == ReadLines(ReadLine(f, line), more)
  {
    hide ReadLine;
    assert ([line] + more)[1..] == more;
  }

  lemma ReadNoMore(f: Fields)
    ensures ReadLines(f, []) == f
  {
  }

  lemma DataUnbroken(payload: string)
    requires SingleLine(payload)
    ensures var line := "data: " + payload; forall i :: 0 <= i < |line| ==> line[i] != '\n' && line[i] != '\r'
  {
  }

  lemma {:induction false} ReadDataLines(lines: seq<string>, f: Fields)
    requires |lines| > 0 && forall i :: 0 <= i < |lines| ==> SingleLine(lines[i])
    ensures ReadLines(f, SplitLines(DataText(lines))) == f.(dataLines := f.dataLines + lines)
  {
    hide ReadLine, SplitLines, ReadLines, SingleLine;
    var line := "data: " + lines[0];
    DataUnbroken(lines[0]);
    ReadDataLine(lines[0], f);
    var read := ReadLine(f, line);
    if |lines| == 1 {
      OneLine(line);
      assert lines == [lines[0]] && [line] + [] == [line];
      ReadLinesCons(f, line, []);
      ReadNoMore(read);
    } else {
      FirstLine(line, DataText(lines[1..]));
      ReadDataLines(lines[1..], read);
      ReadLinesCons(f, line, SplitLines(DataText(lines[1..])));
      assert f.dataLines + lines == (f.dataLines + [lines[0]]) + lines[1..];
    }
  }

  /** An event with a known name carries its data lines, joined by newlines; one with another name is dropped. */
  lemma EventRead(name: string, lines: seq<string>)
    requires Plain(name) && |lines| > 0 && forall i :: 0 <= i < |lines| ==> SingleLine(lines[i])
    ensures ParseBlock("event: " + name + "\n" + DataText(lines)) ==
      if KnownName(name) then Some(AgentEvent(name, Join(lines, "\n"))) else None
  {
    hide KnownName, ReadLine, SplitLines, DataText, Join, ReadLines;
    var line, f := "event: " + name, Fields(None, []);
    ReadEventLine(name, f);
    FirstLine(line, DataText(lines));
    ReadDataLines(lines, ReadLine(f, line));
    ReadLinesCons(f, line, SplitLines(DataText(lines)));
    assert [] + lines == lines;
  }

  predicate NoBreak(s: string)
  {
    forall i :: 0 <= i < |s| ==> s[i] != '\n'
  }

  lemma BlankLineAfter(first: string, second: string, rest: string)
    requires NoBreak(first) && NoBreak(second) && |second| > 0
    ensures Find(first + "\n" + second + "\n\n" + rest, "\n\n") == |first| + 1 + |second|
  {
    var block := first + "\n" + second;
    var s, n := block + "\n\n" + rest, |block|;
    assert s[..n] == block && s[n..n + 2] == "\n\n";
    assert forall j :: 0 <= j < n && j != |first| ==> s[j] != '\n';
    forall j | 0 <= j < n ensures !At(s, "\n\n", j)
    {
      assert s[j..j + 2][0] == s[j] && s[j..j + 2][1] == s[j + 1];
    }
    FindIs(s, "\n\n", n);
  }

  lemma LinesUnbroken(e: AgentEvent)
    requires Printable(e)
    ensures NoBreak("event: " + e.name) && NoBreak("data: " + e.payload)
  {
    PrintableShape(e);
    hide Printable, KnownName;
  }

  /** A printed block contains no blank line and does not end in a newline. */
  lemma BlockEnds(e: AgentEvent, rest: string)
    requires Printable(e)
    ensures Find(Format(e) + rest, "\n\n") == |Block(e)|
  {
    hide Printable, NoBreak, Find, At;
    LinesUnbroken(e);
    BlankLineAfter("event: " + e.name, "data: " + e.payload, rest);
    assert Block(e) == "event: " + e.name + "\n" + ("data: " + e.payload);
  }

  lemma {:induction false} DrainPrinted(es: seq<AgentEvent>)
    requires forall i :: 0 <= i < |es| ==> Printable(es[i])
    ensures Drain(FormatAll(es)) == Drained(es, "")
  {
    hide ParseBlock, Printable, Find, Drain, Format, Block;
    DrainStep(FormatAll(es));
    if es == [] {
      NothingInEmpty();
    } else {
      var s := FormatAll(es);
      BlockEnds(es[0], FormatAll(es[1..]));
      FormatSplits(es[0], FormatAll(es[1..]));
      ParsePrinted(es[0]);
      DrainPrinted(es[1..]);
    }
  }

  lemma NothingInEmpty()
    ensures Find("", "\n\n") == -1
  {
  }

  lemma FormatSplits(e: AgentEvent, rest: string)
    ensures var s, n := Format(e) + rest, |Block(e)|;
      n + 2 <= |s| && s[..n] == Block(e) && s[n + 2..] == rest
  {
  }

  /** The blank line appended at the end of the stream dispatches nothing of its own. */
  lemma FinalBlankLine()
    ensures Drain("" + "\n\n") == Drained([], "")
  {
    var s := "\n\n";
    assert "" + s == s;
    FindIs(s, "\n\n", 0);
    assert s[..0] == "" && s[2..] == "";
    OneLine("");
    assert ParseBlock("") == None by {
      assert [""][1..] == [];
    }
    DrainStep(s);
    DrainStep("");
    NothingInEmpty();
  }

  // ----- the loops -----

  method ParseEventBlock(block: string) returns (r: Option<AgentEvent>)
    ensures r == ParseBlock(block)
  {
    var lines := SplitLines(block);
    var f := Fields(None, []);
    var i := 0;
    assert lines[0..] == lines;
    while i < |lines|
      invariant 0 <= i <= |lines|
      invariant ReadLines(f, lines[i..]) == ReadLines(Fields(None, []), lines)
    {
      assert lines[i..][1..] == lines[i + 1..];
      f := ReadLine(f, lines[i]);
      i := i + 1;
    }
    r := EventOf(f);
  }

  method DispatchBufferedEvents(buffer: string) returns (events: seq<AgentEvent>, remaining: string)
    ensures Drained(events, remaining) == Drain(buffer)
  {
    hide ParseBlock, Drain;
    events, remaining := [], buffer;
    assert [] + Drain(buffer).events == Drain(buffer).events;
    var index := Find(remaining, "\n\n");
    while index != -1
      invariant index == Find(remaining, "\n\n")
      invariant Drain(buffer) == Drained(events + Drain(remaining).events, Drain(remaining).rest)
      decreases |remaining|
    {
      DrainStep(remaining);
      var event := ParseEventBlock(remaining[..index]);
      remaining := remaining[index + 2..];
      ghost var dispatched := events;
      if event.Some? {
        events := events + [event.value];
      }
      assert dispatched + ((if event.Some? then [event.value] else []) + Drain(remaining).events)
          == events + Drain(remaining).events;
      index := Find(remaining, "\n\n");
    }
    DrainStep(remaining);
    assert events + [] == events;
  }

  /** What the client dispatches is determined by the text received, not by how it was cut. */
  method StreamMessages(pieces: seq<string>) returns (events: seq<AgentEvent>)
    ensures var d := Drain(Concat(pieces));
      events == d.events + Drain(d.rest + "\n\n").events
  {
    hide Drain;
    events := [];
    var buffer := "";
    DrainNothing();
    assert pieces[..0] == [];
    for i := 0 to |pieces|
      invariant Drain(Concat(pieces[..i])) == Drained(events, buffer)
    {
      assert pieces[..i + 1] == pieces[..i] + [pieces[i]];
      ConcatAppend(pieces[..i], [pieces[i]]);
      assert Concat([pieces[i]]) == pieces[i];
      DrainAppend(Concat(pieces[..i]), pieces[i]);
      buffer := buffer + pieces[i];
      var more, rest := DispatchBufferedEvents(buffer);
      events, buffer := events + more, rest;
    }
    assert pieces[..|pieces|] == pieces;
    var last, _ := DispatchBufferedEvents(buffer + "\n\n");
    events := events + last;
  }

  lemma DrainNothing()
    ensures Drain(Concat([])) == Drained([], "")
  {
    NothingInEmpty();
  }

  /** Round trip under chunking: however the printed events are cut in transit, exactly they are dispatched. */
  method RoundTrip(es: seq<AgentEvent>, pieces: seq<string>) returns (received: seq<AgentEvent>)
    requires forall i :: 0 <= i < |es| ==> Printable(es[i])
    requires Concat(pieces) == FormatAll(es)
    ensures received == es
  {
    hide Drain, Printable, FormatAll;
    DrainPrinted(es);
    FinalBlankLine();
    received := StreamMessages(pieces);
    assert es + [] == es;
  }
}
