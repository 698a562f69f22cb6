# CodeAsk: verified models of its streaming, failover and text handling

CodeAsk answers questions about a code base through language models. This project models the parts of it
whose correctness rests on state kept over time or on text cut at arbitrary places, and proves what those
parts are meant to guarantee. Each component is one Dafny module; the modules share `Text.dfy` (sequences
and strings) and `LlmTypes.dfy` (events).

`dafny verify dfyconfig.toml` checks everything.

## What is modelled

- **Think-tag filter** (`ThinkFilter.dfy`). A filter receives model output in arbitrary pieces and removes
  leaked `<think>` markup. `Scan` is a one-pass scanner that sees the whole text. `Absorb` describes what the
  online filter has decided after some input and what it still holds back. The class is proved to compute
  `Absorb`, and `Absorb` followed by a flush is proved to be `Scan`, for every way of cutting the text.
- **Usage window and circuit breaker** (`UsageWindow.dfy`, `CircuitBreaker.dfy`). The class keeps four maps that
  it prunes lazily. Its abstract state is the complete log of assignments, clears, failures, successes and
  health queries. Every answer equals one computed from that log. Health queries are part of the log because
  asking after a cooldown forgets the failures that led to it.
- **Gateway** (`Delivery.dfy`, `Gateway.dfy`, `LoadBalance.dfy`). Selection from the configuration pool, and the
  streaming loop that retries, excludes failed configurations and backs off. A run is described by the trace
  of its attempts; the delivered events, pauses, health records and session stickiness are functions of the trace.
- **Other requests** (`Others.dfy`). One gateway serves the whole application, and requests take turns at every
  `await` and `yield`. A streaming request or agent turn is therefore given an arbitrary schedule of what others
  do on the window at the points where it can be interrupted; the results hold for all schedules. The log is a merge
  of the two, and the results about a request are about its own events in it.
- **Model client** (`LlmClient.dfy`). Provider chunks become events: think filter, interleaved tool-call fragments,
  closing events.
- **Gateway on client** (`EndToEnd.dfy`). What a consumer of the gateway receives when the client serves every attempt.
- **Server-sent events** (`Sse.dfy`). The server's printer and the browser's incremental parser, for the part of
  section 9.2 of the WHATWG HTML Living Standard that the printer uses.
- **Agent turns** (`Opencode.dfy`). The second failover loop on the same pool, which also saves what was streamed.
- **Wiki chunker** (`Chunker.dfy`). Bounded splitting of text and assembly of markdown sections under a heading stack.
- **JSON repair** (`JsonRepair.dfy`). Escaping raw control characters inside string literals of section 7 of RFC 8259,
  judged by a reader of such texts.
- **Symbol cache** (`CtagsCache.dfy`) and **feature slugs** (`Slug.dfy`).

Where the source is a class or a loop the model is one too, proved against a specification function or predicate;
pure text functions are functions. Loop bodies with many branches are methods of their own.

## Conventions

- `str.lower` is a parameter of the filter: any function from characters to characters.
- A clock reading is any time not before the previous one; times are reals.
- `random_choice` is any choice. What a client, the agent backend, ctags or a repository read returns is a parameter.
- Whether an error counts against a configuration's health, and whether it is retryable, are arbitrary predicates
  of the error.
- Code between two suspension points runs undisturbed, so recording a failure and releasing the session, or choosing
  from a repository read and recording the choice, are single steps.
- Session and configuration ids are strings. Configuration ids in one repository read are distinct (a primary key).
- Many small lemmas only unfold one definition. They let the larger proofs hide definitions and stay quick.
- "Ink" is what remains of a text without white space.

## What the proofs brought out

- Only single events are free of think tags. The visible text as a whole contains one exactly when a removal splices
  it together (`VisibleTagIsSpliced`), as when an open tag is cut by a close tag (`SplicedTag`). It is free of tags
  when no tag in the input directly follows a proper part of a tag (`VisibleIsFree`).
- `gateway.stream` never enters the branches at its lines 266 and 273: an attempt that breaks off without a new
  selection has sent nothing real and is below the retry bound. The model of the loop has no such branches and still
  covers every way an attempt can end.
- The client sends usage figures only after `message_stop`, and the gateway returns at `message_stop`, so a consumer
  of the gateway never sees them (`EndToEnd.StreamRequest`).
- A session that fails over late, on the last allowed attempt, is still assigned to another configuration, although
  that configuration is not tried in the same request (`MovedOn` in `AfterError` and `SessionSettled`).
- An agent turn that fails after showing text is not charged to its configuration; the gateway does charge it.
- A slug candidate cut right after a dash ends in two dashes before its number and is then not a slug that slugifying
  would give back; `CandidateWellFormed` says exactly when this happens, and
  `IllFormedCandidate` gives a name.
- A cache file that cannot be read counts as an empty index for good (`UnreadableHides`); `LookUpAll` says
  exactly which lookups of a run are right.

## Model

| member | source | states |
|---|---|---|
| ThinkFilter.ThinkTagContentFilter.Feed | src/codeask/llm/reasoning.py:110-155 | after any feed the emitted labels, the held-back buffer and the side are what the specification gives for buffer plus text; every event is free of the tags that count on its side; the loop ends |
| ThinkFilter.ThinkTagContentFilter.Flush | src/codeask/llm/reasoning.py:157-174 | the held-back text goes out on its side; an empty buffer leaves the side as it is |
| ThinkFilter.NextStep | src/codeask/llm/reasoning.py:117-153 | one pass of the loop acts on the first tag or holds back the longest possible tag prefix, and shrinks the buffer when it goes on |
| ThinkFilter.AppendDelta | src/codeask/llm/reasoning.py:221-239 | no event for empty text, else one on the given side |
| ThinkFilter.SuffixLength | src/codeask/llm/reasoning.py:242-247 | the longest proper prefix of the tag that the text ends with |
| ThinkFilter.FilterStream | src/codeask/llm/reasoning.py:110-174 | feeding any pieces and flushing labels every character as the one-pass scanner labels the concatenation |
| ThinkFilter.ChunkingIndependence | src/codeask/llm/reasoning.py:110-155 | every cutting of a text leads to the same tokens, buffer and side as the whole text at once |
| ThinkFilter.AbsorbAppend | src/codeask/llm/reasoning.py:114-155 | absorbing in two steps is absorbing at once: the held-back tail is all the memory needed |
| ThinkFilter.AbsorbRefinesScan | src/codeask/llm/reasoning.py:110-174 | what has been shown plus the flushed tail is the reference scan |
| ThinkFilter.AbsorbConserves | src/codeask/llm/reasoning.py:117-155 | kept characters, removed tags and tail spell the input in order; length is visible + reasoning + held + 7 per open tag + 8 per close tag; at most 7 characters are held |
| ThinkFilter.TagDecides | src/codeask/llm/reasoning.py:118-153 | a whole tag is never a mere prefix of a tag, and the two tags never overlap |
| ThinkFilter.VisibleTagIsSpliced | src/codeask/llm/reasoning.py:114-174 | for every text, the visible text contains a tag if and only if at some removal the visible text before it ends in a proper part of a tag and what follows begins with the rest; the visible characters since the previous removal then already do |
| ThinkFilter.VisibleIsFree | src/codeask/llm/reasoning.py:114-174 | a condition on the input: if no tag in it directly follows a proper part of a tag, the visible text is free of tags |
| ThinkFilter.RunsAreVisible | src/codeask/llm/reasoning.py:114-174 | the runs between removals concatenate to the visible characters of the reference scan |
| ThinkFilter.RunBeforeTag | src/codeask/llm/reasoning.py:128-153 | every run but the last stands in the input directly in front of a tag |
| ThinkFilter.SplicedTag | src/codeask/llm/reasoning.py:134-155 | an input at which the visible text contains a tag, for every cut of the open tag |
| ThinkFilter.MarkupTakenOut | src/codeask/llm/reasoning.py:118-153 | text between `<think>` and `</think>`, in any case, is reasoning, text before and after is visible, and the tags are gone |
| UsageWindow.GlobalUsageWindow.RecordSession | src/codeask/llm/gateway.py:498-502 | logs one assignment; invariants hold |
| UsageWindow.GlobalUsageWindow.StickyConfigId | src/codeask/llm/gateway.py:504-513 | the answer computed from the complete log, whatever was pruned or asked before |
| UsageWindow.GlobalUsageWindow.ClearStickySession | src/codeask/llm/gateway.py:515-518 | logs a clear, which cancels an assignment to that configuration only |
| UsageWindow.GlobalUsageWindow.SessionCount | src/codeask/llm/gateway.py:520-523 | the number of sessions the complete log has within the usage window |
| UsageWindow.GlobalUsageWindow.IsUnhealthy | src/codeask/llm/gateway.py:525-534 | health as the log before the query defines it; the query itself is logged |
| UsageWindow.GlobalUsageWindow.RecordFailure | src/codeask/llm/gateway.py:536-546 | logs one failure; dropping old failure times loses nothing a later question could count |
| UsageWindow.GlobalUsageWindow.RecordSuccess | src/codeask/llm/gateway.py:548-550 | logs one success; the breaker is reset |
| UsageWindow.GlobalUsageWindow.PruneUsage | src/codeask/llm/gateway.py:552-564 | what remains is exactly the sessions live in the log |
| UsageWindow.RecentTwice | src/codeask/llm/gateway.py:538-544 | pruning early does not change what a later pruning keeps |
| UsageWindow.BreakerAfterFailure | src/codeask/llm/gateway.py:536-546 | kept failure times answer every later question like the full list, and the cooldown end is that of the last trip |
| UsageWindow.StickyCharacterised | src/codeask/llm/gateway.py:498-518 | sticky to a configuration if and only if the last assignment is to it, within the window, and not cleared from it since |
| CircuitBreaker.UnhealthyCharacterised | src/codeask/llm/gateway.py:525-550 | unhealthy at t if and only if some failure with t before its cooldown end was at least the threshold-th fresh failure in its window, with no reset since |
| CircuitBreaker.Agreement | src/codeask/llm/gateway.py:525-550 | the incremental breaker and the closed form by log positions agree on every reset and every trip |
| CircuitBreaker.FailuresCounted | src/codeask/llm/gateway.py:536-546 | the length of the pruned failure list is the number of fresh failures in the log |
| CircuitBreaker.RecoveryNeedsFreshFailures | src/codeask/llm/gateway.py:530-550 | after a success or an observed cooldown end, tripping again takes a full threshold of failures made since |
| Gateway.LLMGateway.SelectConfig | src/codeask/llm/gateway.py:280-329 | an explicit configuration; else, for a subject that has any, the first of its own ones in the repository; else one from the pool, which is eligible, the live healthy sticky one if there is one, else healthy when any is and least busy; None exactly when nothing is eligible |
| Gateway.LLMGateway.ChooseFromPool | src/codeask/llm/gateway.py:296-329 | the pool part of a selection, with exactly the probes and the assignment it leaves in the log |
| Gateway.LLMGateway.ChooseLeastBusy | src/codeask/llm/gateway.py:310-326 | any tie-breaking picks a healthy candidate if there is one, and no busier than any other candidate |
| Gateway.LeastOf | src/codeask/llm/gateway.py:322-325 | exactly the candidates with the smallest count, and at least one |
| Gateway.QuietProbesKeepHealth | src/codeask/llm/gateway.py:313-315 | probing other configurations does not change a configuration's health |
| Gateway.LLMGateway.SelectRuntimeConfig | src/codeask/llm/gateway.py:100-124 | guest configuration, refusal or a right choice; a pooled choice is a good one on readings taken during the call, and the session sticks to it; it leaves no health record |
| Gateway.LLMGateway.RecordRuntimeConfigSuccess | src/codeask/llm/gateway.py:126-128 | one success for a pooled selection, nothing otherwise |
| Gateway.LLMGateway.RecordRuntimeConfigFailure | src/codeask/llm/gateway.py:130-143 | counted exactly when pooled and blamed on the configuration; then exactly one failure and one release are logged, and the session lets go |
| Gateway.LLMGateway.Stream | src/codeask/llm/gateway.py:148-278 | whatever other requests do meanwhile, a run is a transcript of its attempts: only the last one's events besides starts, at most max_retries + 1 attempts, right first choice, pauses that double (outside the pool n attempts sleep base times 2^(n-1) - 1 in all), rotation over distinct configurations, reasons for giving up; every new pooled configuration is sticky and healthy, or else healthy when any is and least busy, given the log and the repository at its selection; the log holds the others' events and the request's own, which have one health record per counted failure or stop; where the session sticks at the end, if nobody else moved it |
| Others.Perform | src/codeask/llm/gateway.py:498-564 | any calls on the window, in any order, log exactly the events of those that log something |
| Gateway.LLMGateway.Interfere | src/codeask/app.py:457 | other requests act on the same window; the account of who logged what goes on, and a session they do not name stays where it is |
| Gateway.LLMGateway.OneAttempt | src/codeask/llm/gateway.py:186-278 | one attempt, with other requests in between, keeps the run in order: transcript, rotation, own health record, pauses, good choices and stickiness |
| Gateway.LLMGateway.AfterError | src/codeask/llm/gateway.py:206-251 | when an error leads to another configuration, to the same one again or to the consumer; nothing is retried after a real event; the session moves on to an untried configuration even when the request may not; another configuration is a good choice at that moment |
| Gateway.LLMGateway.FailOver | src/codeask/llm/gateway.py:212-224 | the configuration is blamed and another one chosen, with other requests in between; the session is moved to an untried configuration whenever the pool has one, whatever the others did |
| Gateway.LLMGateway.BlameConfig | src/codeask/llm/gateway.py:213-218 | exactly one failure is logged, and the session no longer sticks to the configuration |
| Gateway.PicksMore | src/codeask/llm/gateway.py:219-226 | one more attempt keeps every selection so far a good one, judged with exactly the earlier pooled configurations excluded |
| Gateway.MarksShared | src/codeask/llm/gateway.py:536-550 | however the events of a request and of others are merged, the health records in the log are exactly theirs together |
| Others.GrewAlone | src/codeask/app.py:457 | when the others log nothing, the log grows by exactly the request's own events |
| Others.AvoidedSticky | src/codeask/llm/gateway.py:498-518 | events that neither assign nor clear a session leave it sticking where it was |
| Gateway.RunStep | src/codeask/llm/gateway.py:186-278 | every way an attempt can end keeps the run invariant |
| Gateway.PauseStep | src/codeask/llm/gateway.py:272-278 | a pause happens before a repeated configuration and nowhere else |
| Delivery.SleptInRun | src/codeask/llm/gateway.py:272-278 | all pauses of a run in closed form: base times the difference of two powers of two, from the first repeated configuration on |
| Delivery.EndingOf | src/codeask/llm/gateway.py:199-263 | the first error or stop of a stream decides whether the attempt completed, failed, may be repeated or is given up, and its health record |
| Delivery.AttemptsAnnounced | src/codeask/llm/gateway.py:186-194 | the consumer sees exactly one selected-configuration start per attempt, in order |
| Delivery.DeliveredFromLastAttempt | src/codeask/llm/gateway.py:184-278 | single-attempt delivery: apart from starts, the delivered events are an in-order prefix of the last attempt's stream; an error or stop can only be the last event |
| Delivery.RotationStep | src/codeask/llm/gateway.py:219-243 | attempts use different configurations until the pool is exhausted and then repeat the last one |
| Delivery.UsageNeverDelivered | src/codeask/llm/gateway.py:256-260 | usage sent after a stop never reaches the consumer |
| LoadBalance.ServeMessages | src/codeask/llm/gateway.py:301-329 | from any state with nothing live or sticky, with any failures and successes recorded between messages: while nothing ages out and every health query is answered well, live counts stay within one of each other and add up to the distinct sessions, and no session moves |
| LoadBalance.ServingMore | src/codeask/llm/gateway.py:301-329 | one more selection keeps a run balanced and settled |
| LoadBalance.ServingMarked | src/codeask/llm/gateway.py:536-550 | a failure or success in between moves neither counts nor sessions |
| LoadBalance.StickySeen | src/codeask/llm/gateway.py:504-513 | during such a run a session is sticky to the configuration it was last assigned in it, and to none otherwise |
| LoadBalance.GoodChoiceKeepsBalance | src/codeask/llm/gateway.py:301-329 | whatever the log before the run and the tie-breaking, a good choice keeps the balance when every configuration it asked about was healthy |
| LoadBalance.NewSessionKeepsBalance | src/codeask/llm/gateway.py:319-328 | a new session on a least busy configuration keeps counts within one |
| LoadBalance.RepeatKeepsBalance | src/codeask/llm/gateway.py:302-308 | a repeat message on the session's configuration keeps counts within one |
| LoadBalance.BalanceSeen | src/codeask/llm/gateway.py:520-523 | balance in the log is balance of the live counts |
| LlmClient.StreamEvents | src/codeask/llm/client.py:381-500 | start first and once; grammar of tool events; at the finish visible text is the reference scan of the content, tool calls and structured reasoning are complete, then dones, stop and usage; exactly what a stream has said that runs out, fails, or breaks at a fragment with an empty id |
| LlmClient.HandleDelta | src/codeask/llm/client.py:404-452 | one chunk adds first its structured reasoning, then its content through the filter, then its tool-call fragments, up to one that breaks the lookup |
| LlmClient.RouteFragment | src/codeask/llm/client.py:416-452 | one fragment goes to its own call, or to the newest one when it has no id; the lookup error of an empty id |
| LlmClient.EventsStep | src/codeask/llm/client.py:429-452 | starts and deltas keep telling the same story as the accumulators |
| LlmClient.AccumulatorsStep | src/codeask/llm/client.py:429-448 | an accumulator holds the first name and all arguments of its fragments |
| LlmClient.Close | src/codeask/llm/client.py:454-498 | the flush completes the scan; one done per call in first-seen order, the stop, the usage |
| LlmClient.DonesMatchDeltas | src/codeask/llm/client.py:447-479 | each started id gets exactly one done, in first-seen order, whose raw arguments are the concatenation of its deltas |
| LlmClient.UsageFollowsStop | src/codeask/llm/client.py:481-497 | no done, stop, error or usage before the finish; usage only after the stop |
| LlmClient.StopTells | src/codeask/llm/client.py:481-497 | the stop reason for every finish reason, in both directions, and the usage figures after it |
| LlmClient.StreamTells | src/codeask/llm/client.py:399-406 | over a finished stream the text deltas are the visible side of the content, the think-field deltas the other side, and each reasoning field comes out complete under its own name |
| LlmClient.OneDeltaSaid | src/codeask/llm/reasoning.py:14-36 | one event for each reasoning field that is not empty, in this order |
| LlmClient.NewestIs | src/codeask/llm/client.py:416-437 | a fragment without an id belongs to the call introduced last |
| LlmClient.IntroducedInOrder | src/codeask/llm/client.py:429-437 | calls are listed once each, in the order in which fragments introduce them |
| LlmClient.NamedByFirst | src/codeask/llm/client.py:442-443 | a call's name is that of the first of its fragments that has one |
| LlmClient.ArgumentsJoined | src/codeask/llm/client.py:444-445 | a call's arguments are those of its fragments, joined |
| EndToEnd.StreamRequest | src/codeask/llm/gateway.py:148-278 | with every attempt served by the client, and other requests in between: no usage reaches the consumer, an error or stop is last, and a request that ends in a stop has delivered one whole client reply |
| EndToEnd.Render | src/codeask/llm/client.py:381-500 | every provider stream, failing or not, has a rendering of the kind the other results are about |
| EndToEnd.StopDelivers | src/codeask/llm/gateway.py:256-260 | on a stop, what is delivered besides starts is the last reply without its start and usage: grammatical, with complete tool calls, and visible text equal to the reference scan of that reply's content |
| EndToEnd.ReadToStop | src/codeask/llm/gateway.py:199-260 | a reply read up to a stop got to its finish and is read up to just that stop |
| EndToEnd.NoUsage | src/codeask/llm/client.py:489-498 | the client's usage figures never get through the gateway |
| Sse.RoundTrip | frontend/src/lib/sse.ts:86-126 | however the printed events are cut in transit, exactly they are dispatched, in order |
| Sse.StreamMessages | frontend/src/lib/sse.ts:86-101 | what is dispatched depends on the text received, not on its cutting |
| Sse.DispatchBufferedEvents | frontend/src/lib/sse.ts:111-126 | dispatches every complete block and keeps the rest |
| Sse.ParseEventBlock | frontend/src/lib/sse.ts:128-151 | the loop over lines computes the block's event |
| Sse.DrainAppend | frontend/src/lib/sse.ts:90-97 | draining piece by piece is draining at once |
| Sse.ParsePrinted | src/codeask/agent/sse.py:35-41 | parsing a printed block gives the event back |
| Sse.BlockEnds | src/codeask/agent/sse.py:41 | the first blank line of a printed event is its end |
| Sse.DrainPrinted | src/codeask/agent/sse.py:35-41 | a printed list of events drains to exactly that list |
| Sse.SameNames | src/codeask/agent/sse.py:8-27 | the browser knows exactly the event names that the server can send |
| Sse.EventRead | frontend/src/lib/sse.ts:128-151 | an event with a known name carries all its data lines joined by newlines; one with another name is dropped |
| Sse.FirstLine | frontend/src/lib/sse.ts:132 | a line ends at a newline, with or without a carriage return before it |
| Sse.BrowserSpace | frontend/src/lib/sse.ts:133-138 | trimming removes the white space and line terminators of ECMAScript |
| Opencode.StreamTurn | src/codeask/sessions/messages.py:310-533 | whatever other requests do meanwhile: all tries but the last were given up; at most pool-size tries, all different when pooled, each on a right choice, and a pooled one on a good choice given the log at its selection; what is forwarded and saved; the turn's own events have one health record per given-up or completed try; the session ends on the configuration that served the turn, if nobody else moved it |
| Opencode.RunTry | src/codeask/sessions/messages.py:367-513 | one try: what it shows, the text it collects, and that only a blamed error before any text moves on; then the session lets go of the configuration, and otherwise it stays |
| Opencode.TurnOutcome | src/codeask/sessions/messages.py:310-533 | for every way a turn can end: an error or done is last and there is at most one; all text is the last try's, and none when all were given up or refused; on done the saved answer is the stripped concatenation of the forwarded text, an error saves nothing |
| Opencode.TurnStep | src/codeask/sessions/messages.py:409-475 | one more try either keeps the turn running with fewer configurations left or ends it |
| Opencode.TurnRefused | src/codeask/sessions/messages.py:317-332 | with no configuration left the last try's error is shown |
| Opencode.OneMoreTry | src/codeask/sessions/messages.py:601-612 | each retry shrinks the set of configurations left |
| Opencode.TextSoFar | src/codeask/sessions/messages.py:455-483 | the chunks a try collected, from which the answer is saved, are the text forwarded over the whole turn |
| Opencode.TextSpelled | src/codeask/sessions/messages.py:455-459 | the text of an event is its delta if that is not empty, else its text field; other events have none |
| Opencode.TryMeaning | src/codeask/sessions/messages.py:367-513 | from the first done or error of a try: whether it is given up, completed or cancelled, and everything it shows |
| Opencode.SavedText | src/codeask/sessions/messages.py:476-533 | a done saves the stripped concatenation of the streamed texts when there is any, a cancelled turn what there was, anything else nothing |
| Chunker.SplitOversize | src/codeask/wiki/chunker.py:39-61 | exactly the pieces of the greedy grouping; 1 to 3000 characters each, with the ink of the text in order; a paragraph that fits is never cut |
| Chunker.GroupsGreedy | src/codeask/wiki/chunker.py:43-60 | groups are runs of paragraphs that fit into 3000 characters, an over-long paragraph stands alone, and a group ends only where the next paragraph does not fit |
| Chunker.ParagraphsShape | src/codeask/wiki/chunker.py:43 | the paragraphs joined by two newlines are the text, and each ends at the first pair of newlines |
| Text.WhiteSpace | src/codeask/wiki/chunker.py:43-60 | white space is what Python's `str.isspace` accepts |
| Chunker.HardSlices | src/codeask/wiki/chunker.py:49-52 | slices that concatenate to the paragraph, all full but the last |
| Chunker.ChunkText | src/codeask/wiki/chunker.py:149-164 | one run of chunks per paragraph with exactly its pieces; numbered from zero, each beginning after the chunks and blank paragraphs before it; the ink of the whole source in order |
| Chunker.ReadSections | src/codeask/wiki/chunker.py:89-133 | the token loop computes the sections of the document |
| Chunker.PushIsChain | src/codeask/wiki/chunker.py:96-102 | popping then pushing keeps the stack equal to the headings that every later heading is below |
| Chunker.ChainIncreases | src/codeask/wiki/chunker.py:99-101 | levels on the stack strictly increase |
| Chunker.ChunkMarkdown | src/codeask/wiki/chunker.py:81-147 | the ink that the tokens carry, and nothing else, in order; the chunks fall into consecutive runs, one per section, each with exactly the pieces of its body and its heading path, each beginning after the ones before it |
| Chunker.SectionsKeepInk | src/codeask/wiki/chunker.py:93-133 | every body snippet ends up in a section, in order |
| Chunker.TokensKeepInk | src/codeask/wiki/chunker.py:93-127 | a fence's marks, info and code, a code block, a rule and a block's source lines all reach the body snippets |
| Chunker.CodeWritten | src/codeask/wiki/chunker.py:122-125 | how code is written between fence lines, without the newlines that end it |
| Chunker.NothingSkipped | src/codeask/wiki/chunker.py:93-128 | every token is read by itself, with its heading, or inside a block that nothing before it has closed |
| Chunker.BlockExtends | src/codeask/wiki/chunker.py:111-120 | a block extends to the first token that balances its opening, or to the end |
| Chunker.HeadingsRead | src/codeask/wiki/chunker.py:94-103 | the headings of a document are those outside blocks, with their levels and stripped texts |
| Chunker.PathGrows | src/codeask/wiki/chunker.py:102 | a path names the headings from the outermost in, separated by arrows |
| Chunker.SectionFormed | src/codeask/wiki/chunker.py:95-132 | snippets between two headings make up one section, line after line, under the path in force |
| JsonRepair.EscapeControlCharsInsideJsonStrings | src/codeask/sessions/report_generation.py:115-138 | the loop computes the escape function; an unchanged text is returned as it is |
| JsonRepair.RepairPreservesMeaning | src/codeask/sessions/report_generation.py:115-138 | any reader reads the repaired text as the tolerant reader reads the original: same characters outside strings, same string contents |
| JsonRepair.RawTextRead | src/codeask/sessions/report_generation.py:132-135 | raw newlines, carriage returns and tabs in a string literal are read back as themselves by a strict reader |
| JsonRepair.EscapesRead | src/codeask/sessions/report_generation.py:101-112 | readers take each escape of the standard for its character |
| JsonRepair.EscapeIdempotent | src/codeask/sessions/report_generation.py:115-138 | repairing twice is repairing once |
| JsonRepair.HexSurvives | src/codeask/sessions/report_generation.py:121-128 | escapes with four hex digits pass through, and nothing turns into one |
| JsonRepair.DecodeEncode | src/codeask/sessions/report_generation.py:239-252 | the decoder inverts the five-escape encoding of any string |
| JsonRepair.EncodeDecode | src/codeask/sessions/report_generation.py:239-252 | encoding undoes decoding exactly on text the encoder could have written |
| JsonRepair.DecodeAround | src/codeask/sessions/report_generation.py:239-252 | each of the five escapes becomes its character, and text without one in front of it is left alone |
| JsonRepair.DecodeLeaves | src/codeask/sessions/report_generation.py:239-252 | text without the five escapes is unchanged, other backslashes included |
| JsonRepair.StrictReaderReadsEncoding | src/codeask/sessions/report_generation.py:239-252 | a strict reader reads an encoded string as the string itself |
| CtagsCache.CtagsClient.FindSymbols | src/codeask/code_index/ctags.py:46-61 | errors in order; exactly the tags of that name in the loaded index, each as often and in the same order, whether from memory, disk or a build; nothing on disk is overwritten; the limit holds |
| CtagsCache.NamedExactly | src/codeask/code_index/ctags.py:61 | filtering by name keeps the tags of that name, each as often as it occurs, in order, and no others |
| CtagsCache.CacheFileOf | src/codeask/code_index/ctags.py:13-74 | which ids are accepted, and the file of a key |
| CtagsCache.CtagsClient.LoadOrBuild | src/codeask/code_index/ctags.py:63-89 | memory is invisible: the answer depends on the cache directory alone, and ctags runs only for a key without a file |
| CtagsCache.CtagsClient.Touch | src/codeask/code_index/ctags.py:70-72 | the map holds the most recently used keys in recency order |
| CtagsCache.CtagsClient.Evict | src/codeask/code_index/ctags.py:87-88 | drops the oldest keys beyond the limit and no others |
| CtagsCache.LookUpAll | src/codeask/code_index/ctags.py:46-89 | any run of lookups from any cache directory: a file that was there when the run began decides, and otherwise the answer is the direct index filtered by name; so a lookup is right if and only if there was no file for its key or one that agrees on the name; the directory left behind differs only by files with the direct index |
| CtagsCache.AfterRestart | src/codeask/code_index/ctags.py:63-89 | a later client on the directory that a run left answers as if that run had not been |
| CtagsCache.AnswerJustNamed | src/codeask/code_index/ctags.py:46-89 | what a lookup of any run returns, tag by tag: from the file that was there, none from an unreadable one, else from the direct index |
| CtagsCache.UnreadableHides | src/codeask/code_index/ctags.py:147-153 | behind an unreadable file every lookup of a run finds nothing, which is right exactly for names that do not occur |
| CtagsCache.HeldIffRecent | src/codeask/code_index/ctags.py:85-88 | a key is held exactly when fewer than the limit of other keys were used since its last use |
| CtagsCache.RecencyOrder | src/codeask/code_index/ctags.py:71-86 | what stands behind a key is exactly what was used since |
| CtagsCache.PathsDistinct | src/codeask/code_index/ctags.py:13-74 | different safe keys never share a cache file |
| Slug.SlugifyWellFormed | src/codeask/wiki/api_support.py:44-46 | every name gets a slug of 1 to 120 letters, digits and single inner dashes |
| Slug.SlugifyFixed | src/codeask/wiki/api_support.py:44-46 | the slugs are exactly the fixed points of slugifying |
| Slug.SlugifyIdempotent | src/codeask/wiki/api_support.py:44-46 | slugifying a slug changes nothing |
| Slug.SlugKeepsLetters | src/codeask/wiki/api_support.py:44-46 | unless the name is cut, its letters and digits are kept in order |
| Slug.SlugFallsBack | src/codeask/wiki/api_support.py:46 | a name without letters or digits gets the fixed slug |
| Slug.SlugOfWords | src/codeask/wiki/api_support.py:44-46 | the slug is the name's words joined by single dashes, cut at 120 characters and not after a dash; `feature` when there are none |
| Slug.WordsOf | src/codeask/wiki/api_support.py:45 | every name is words of letters and digits with other characters between |
| Slug.CandidatesDistinct | src/codeask/wiki/api_support.py:56-57 | different suffixes give different candidates, however the base is cut |
| Slug.CandidateLength | src/codeask/wiki/api_support.py:56-57 | a candidate has at most 120 characters exactly when its suffix has at most 119 digits |
| Slug.CandidateKeeps | src/codeask/wiki/api_support.py:56-57 | a candidate keeps as much of the base as fits with its suffix |
| Slug.CandidateWellFormed | src/codeask/wiki/api_support.py:56-57 | exactly when a candidate is itself a well-formed slug |
| Slug.IllFormedCandidate | src/codeask/wiki/api_support.py:44-57 | a slug that slugifying gives whose first candidate is not well formed |
| Slug.TriedSize | src/codeask/wiki/api_support.py:53-58 | n tried suffixes are n different candidates |
| Slug.UniqueFeatureSlug | src/codeask/wiki/api_support.py:49-59 | the loop ends with the first free choice, the base or a candidate from suffix 2 on, after at most as many candidates as there are taken slugs, within 120 characters |

## Left out

- ThinkFilter.ThinkTagContentFilter.Feed: lower-casing that changes the length of a text (such as that of `İ`) is not modelled; the source indexes the original buffer with positions in the lowered one.
- Gateway.LLMGateway.Stream: building clients, exceptions from repository reads or from the client's iterator, and an explicit configuration id that does not exist are not modelled.
- Gateway.LLMGateway.Stream: distinctness and exact pauses are stated for a repository that does not change during the request, or for a request outside the pool.
- LlmClient.StreamEvents: the connection phase, logging, and the JSON parsing of tool arguments are not modelled; a done event carries the raw arguments. Chunks are taken to arrive whole, with one choice, and a reasoning field as the text read from it.
- Sse.RoundTrip: UTF-8 decoding and JSON parsing of payloads are not modelled; a payload is one line that begins and ends with a non-blank character.
- LoadBalance.ServeMessages: sessions are not made to let go of a configuration during the run; a clear moves a session by design.
- Opencode.StreamTurn: the pool is the same during the whole turn; traces, timing, titles, event rendering, and the checks that saving makes on the parent turn are not modelled.
- Chunker.ChunkText: offsets are not positions in the source, because pieces are stripped. Normalised text and signals are not modelled, nor are the PDF and DOCX readers.
- Chunker.ChunkMarkdown: markdown parsing is not modelled; tokens are any in which a heading's opening is followed by its text and closing.
- JsonRepair.RepairPreservesMeaning: readers split a text into strings and the characters between them; the grammar of objects and numbers is not modelled.
- CtagsCache.CtagsClient.FindSymbols: nobody else writes the cache directory, a written file reads back as written, and the ids `.` and `..`, which the safe-id pattern admits, are treated as ordinary names.
- Slug.UniqueFeatureSlug: the set of taken slugs does not change during the search; the name is given after lower-casing.
- Error-text classification, guest configuration parsing, HTTP routes, database queries, migrations, scheduling, health probes, other readers of reports, administration and the user interface.
